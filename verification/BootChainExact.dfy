/** Flat templates are exactly the templates on which replacement order never matters. */
module BootChainExact {
  import opened Wrappers
  import opened BootChain

  /** Every unmatched brace pair that encloses only text encloses at least `n` characters. */
  predicate Guarded(ts: seq<Token>, n: nat) {
    ts == [] || ((ts[0].Open? && Inner(ts[1..]).Some? ==> |Inner(ts[1..]).value| >= n) && Guarded(ts[1..], n))
  }

  lemma {:induction false} GuardedHasNoShortStray(ts: seq<Token>, n: nat, k: string)
    requires Guarded(ts, n) && |k| < n
    ensures !Stray(ts, k)
  {
    if ts != [] {
      GuardedHasNoShortStray(ts[1..], n, k);
    }
  }

  /** Text that runs into an opening brace or the end never closes a pair. */
  lemma {:induction false} TextThenNoClose(p: string, rest: string)
    requires BraceFree(p) && (rest == "" || rest[0] == '{')
    ensures Inner(Tokens(p + rest)) == None
  {
    if p == "" {
      assert p + rest == rest;
    } else {
      assert (p + rest)[0] == p[0] && (p + rest)[1..] == p[1..] + rest;
      TextThenNoClose(p[1..], rest);
    }
  }

  /** A freshly read template has no unmatched pair around plain text at all. */
  lemma {:induction false} TokensGuarded(s: string, n: nat)
    ensures Guarded(Tokens(s), n)
  {
    if s != "" {
      if s[0] == '{' {
        var j := NextBrace(s, 1);
        if j < |s| && s[j] == '}' {
          TokensGuarded(s[j + 1..], n);
        } else {
          TokensGuarded(s[1..], n);
          assert s[1..] == s[1..j] + s[j..];
          TextThenNoClose(s[1..j], s[j..]);
        }
      } else {
        TokensGuarded(s[1..], n);
      }
    }
  }

  lemma {:induction false} InnerOfCharsThen(s: string, ts: seq<Token>)
    ensures Inner(Chars(s) + ts) == if Inner(ts).Some? then Some(s + Inner(ts).value) else None
  {
    if s == "" {
      assert Chars(s) + ts == ts;
      if Inner(ts).Some? {
        assert s + Inner(ts).value == Inner(ts).value;
      }
    } else {
      assert Chars(s) + ts == [Ch(s[0])] + (Chars(s[1..]) + ts);
      InnerOfCharsThen(s[1..], ts);
      if Inner(ts).Some? {
        SplitFirst(s, Inner(ts).value);
      }
    }
  }

  /** Substituting a value either keeps the enclosed text or puts the whole value into it. */
  lemma {:induction false} InnerAfterSubst(ts: seq<Token>, k: string, v: string)
    requires Inner(SubstOne(ts, k, v)).Some?
    ensures Inner(SubstOne(ts, k, v)) == Inner(ts) || |Inner(SubstOne(ts, k, v)).value| >= |v|
  {
    if ts != [] {
      var tail := SubstOne(ts[1..], k, v);
      if ts[0] == Hole(k) {
        InnerOfCharsThen(v, tail);
      } else {
        assert ([ts[0]] + tail)[1..] == tail;
        if ts[0].Ch? {
          InnerAfterSubst(ts[1..], k, v);
        }
      }
    }
  }

  lemma {:induction false} CharsKeepGuarded(s: string, ts: seq<Token>, n: nat)
    ensures Guarded(Chars(s) + ts, n) == Guarded(ts, n)
  {
    if s == "" {
      assert Chars(s) + ts == ts;
    } else {
      assert Chars(s) + ts == [Ch(s[0])] + (Chars(s[1..]) + ts);
      CharsKeepGuarded(s[1..], ts, n);
    }
  }

  lemma {:induction false} SubstKeepsGuarded(ts: seq<Token>, k: string, v: string)
    requires Guarded(ts, |v|)
    ensures Guarded(SubstOne(ts, k, v), |v|)
  {
    if ts != [] {
      SubstKeepsGuarded(ts[1..], k, v);
      var tail := SubstOne(ts[1..], k, v);
      if ts[0] == Hole(k) {
        CharsKeepGuarded(v, tail, |v|);
      } else {
        assert ([ts[0]] + tail)[1..] == tail;
        if ts[0].Open? && Inner(tail).Some? {
          InnerAfterSubst(ts[1..], k, v);
        }
      }
    }
  }

  lemma {:induction false} SubstRemovesHole(ts: seq<Token>, k: string, v: string, n: string)
    requires Hole(n) in SubstOne(ts, k, v)
    ensures Hole(n) in ts && n != k
  {
    if ts != [] {
      var tail := SubstOne(ts[1..], k, v);
      if Hole(n) in tail {
        SubstRemovesHole(ts[1..], k, v, n);
      } else if ts[0] == Hole(k) {
        AllCh(v);
      }
    }
  }

  lemma {:induction false} AllCh(s: string)
    ensures forall t :: t in Chars(s) ==> t.Ch?
  {
    if s != "" {
      AllCh(s[1..]);
    }
  }

  // ---------------------------------------------------------------------
  // Replacing every placeholder by the same long value
  // ---------------------------------------------------------------------

  function Assign(names: seq<string>, v: string): seq<(string, string)> {
    seq(|names|, i requires 0 <= i < |names| => (names[i], v))
  }

  function SubstNames(ts: seq<Token>, names: seq<string>, v: string): seq<Token>
    decreases names
  {
    if names == [] then ts else SubstNames(SubstOne(ts, names[0], v), names[1..], v)
  }

  lemma {:induction false} SequentialNames(ts: seq<Token>, names: seq<string>, v: string)
    requires WellFormed(ts) && BraceFree(v) && Guarded(ts, |v|)
    requires forall i :: 0 <= i < |names| ==> BraceFree(names[i]) && |names[i]| < |v|
    ensures var out := SubstNames(ts, names, v);
      && Sequential(Print(ts), Assign(names, v)) == Print(out)
      && WellFormed(out) && Guarded(out, |v|) && Flat(out) == Flat(ts)
    decreases names
  {
    if names != [] {
      var k := names[0];
      GuardedHasNoShortStray(ts, |v|, k);
      ReplaceTokens(ts, k, v);
      SubstOneKeepsFlat(ts, k, v);
      SubstKeepsGuarded(ts, k, v);
      SequentialNames(SubstOne(ts, k, v), names[1..], v);
      assert Assign(names, v)[1..] == Assign(names[1..], v);
    }
  }

  lemma {:induction false} SimultaneousNames(ts: seq<Token>, names: seq<string>, v: string, last: seq<(string, string)>)
    ensures Simultaneous(ts, MapOf(Assign(names, v) + last)) == Simultaneous(SubstNames(ts, names, v), MapOf(last))
    decreases names
  {
    var vars := Assign(names, v) + last;
    if names == [] {
      assert vars == last;
    } else {
      assert vars[1..] == Assign(names[1..], v) + last;
      SimultaneousAbsorbs(ts, names[0], v, MapOf(vars[1..]));
      SimultaneousNames(SubstOne(ts, names[0], v), names[1..], v, last);
    }
  }

  lemma {:induction false} SubstNamesHoles(ts: seq<Token>, names: seq<string>, v: string, n: string)
    requires Hole(n) in SubstNames(ts, names, v)
    ensures Hole(n) in ts && n !in names
    decreases names
  {
    if names != [] {
      SubstNamesHoles(SubstOne(ts, names[0], v), names[1..], v, n);
      SubstRemovesHole(ts, names[0], v, n);
    }
  }

  lemma {:induction false} SimultaneousWithoutHoles(ts: seq<Token>, m: map<string, string>)
    requires forall n :: Hole(n) !in ts
    ensures Simultaneous(ts, m) == Print(ts)
  {
    if ts != [] {
      assert ts[0] in ts;
      assert forall n :: Hole(n) in ts[1..] ==> Hole(n) in ts;
      SimultaneousWithoutHoles(ts[1..], m);
    }
  }

  function HoleNames(ts: seq<Token>): seq<string> {
    if ts == [] then []
    else
      var rest := HoleNames(ts[1..]);
      if ts[0].Hole? && ts[0].name !in rest then [ts[0].name] + rest else rest
  }

  lemma {:induction false} HoleNamesFacts(ts: seq<Token>)
    requires WellFormed(ts)
    ensures Lists(HoleNames(ts), ts)
  {
    if ts != [] {
      WellFormedTail(ts);
      HoleNamesFacts(ts[1..]);
      var rest := HoleNames(ts[1..]);
      if ts[0].Hole? && ts[0].name !in rest {
        NewHoleFirst(ts, rest);
      } else {
        OldHoleFirst(ts, rest);
      }
    }
  }

  /** `names` are the placeholder names of `ts`, each once. */
  ghost predicate Lists(names: seq<string>, ts: seq<Token>) {
    && (forall n :: Hole(n) in ts ==> n in names)
    && (forall i :: 0 <= i < |names| ==> BraceFree(names[i]) && |names[i]| <= |Print(ts)|)
    && (forall i, j :: 0 <= i < j < |names| ==> names[i] != names[j])
  }

  lemma NewHoleFirst(ts: seq<Token>, rest: seq<string>)
    requires WellFormed(ts) && ts != [] && ts[0].Hole? && ts[0].name !in rest && Lists(rest, ts[1..])
    ensures Lists([ts[0].name] + rest, ts)
  {
    var names := [ts[0].name] + rest;
    assert |Print(ts)| == |PrintToken(ts[0])| + |Print(ts[1..])|;
    forall n | Hole(n) in ts ensures n in names {
      assert Hole(n) == ts[0] || Hole(n) in ts[1..];
    }
    forall i | 0 <= i < |names| ensures BraceFree(names[i]) && |names[i]| <= |Print(ts)| {
      if i > 0 {
        assert names[i] == rest[i - 1];
      }
    }
    forall i, j | 0 <= i < j < |names| ensures names[i] != names[j] {
      assert names[j] == rest[j - 1] && (i > 0 ==> names[i] == rest[i - 1]);
    }
  }

  lemma OldHoleFirst(ts: seq<Token>, rest: seq<string>)
    requires ts != [] && (ts[0].Hole? ==> ts[0].name in rest) && Lists(rest, ts[1..])
    ensures Lists(rest, ts)
  {
    assert |Print(ts)| == |PrintToken(ts[0])| + |Print(ts[1..])|;
    forall n | Hole(n) in ts ensures n in rest {
      assert Hole(n) == ts[0] || Hole(n) in ts[1..];
    }
  }

  // ---------------------------------------------------------------------
  // What is left nests
  // ---------------------------------------------------------------------

  lemma {:induction false} CloseMeansInner(ts: seq<Token>) returns (k: string)
    requires WellFormed(ts) && NextIsClose(ts) && forall n :: Hole(n) !in ts
    ensures Inner(ts) == Some(k) && BraceFree(k)
  {
    assert ts[0] in ts;
    if ts[0].Close? {
      k := "";
    } else {
      WellFormedTail(ts);
      assert forall n :: Hole(n) in ts[1..] ==> Hole(n) in ts;
      var r := CloseMeansInner(ts[1..]);
      k := [ts[0].c] + r;
    }
  }

  lemma {:induction false} NestedHasStray(ts: seq<Token>) returns (k: string)
    requires WellFormed(ts) && !Flat(ts) && forall n :: Hole(n) !in ts
    ensures Stray(ts, k) && BraceFree(k)
  {
    WellFormedTail(ts);
    assert forall n :: Hole(n) in ts[1..] ==> Hole(n) in ts;
    if ts[0].Open? && NextIsClose(ts[1..]) {
      k := CloseMeansInner(ts[1..]);
    } else {
      k := NestedHasStray(ts[1..]);
    }
  }

  lemma {:induction false} OccursInSuffix(p: string, s: string, pat: string)
    requires Occurs(s, pat)
    ensures Occurs(p + s, pat)
  {
    if p == "" {
      assert p + s == s;
    } else {
      assert (p + s)[1..] == p[1..] + s;
      OccursInSuffix(p[1..], s, pat);
    }
  }

  lemma {:induction false} StrayOccurs(ts: seq<Token>, k: string)
    requires WellFormed(ts) && BraceFree(k) && Stray(ts, k)
    ensures Occurs(Print(ts), Placeholder(k))
  {
    WellFormedTail(ts);
    if ts[0].Open? && Inner(ts[1..]) == Some(k) {
      StartsInner(ts[1..], k);
      StartsAfterBrace(Print(ts[1..]), k);
    } else {
      StrayOccurs(ts[1..], k);
      OccursInSuffix(PrintToken(ts[0]), Print(ts[1..]), Placeholder(k));
    }
  }

  lemma {:induction false} ErasingShrinks(s: string, pat: string)
    requires pat != ""
    ensures |Replace(s, pat, "")| <= |s|
    ensures Occurs(s, pat) ==> |Replace(s, pat, "")| < |s|
  {
    if s != "" {
      if StartsWith(s, pat) {
        ErasingShrinks(s[|pat|..], pat);
      } else {
        ErasingShrinks(s[1..], pat);
      }
    }
  }

  predicate DistinctKeys(vars: seq<(string, string)>) {
    forall i, j :: 0 <= i < j < |vars| ==> vars[i].0 != vars[j].0
  }

  /** Filling every placeholder of a nested template with long plain text leaves a braced text behind. */
  lemma FilledStaysNested(t: string, v: string, names: seq<string>) returns (k: string)
    requires !FlatTemplate(t) && BraceFree(v) && |v| == |t| + 1 && names == HoleNames(Tokens(t))
    ensures var out := SubstNames(Tokens(t), names, v);
      && Sequential(t, Assign(names, v)) == Print(out)
      && WellFormed(out) && Stray(out, k) && (forall n :: Hole(n) !in out)
    ensures BraceFree(k) && |k| >= |v|
  {
    var ts := Tokens(t);
    PrintTokens(t);
    HoleNamesFacts(ts);
    TokensGuarded(t, |v|);
    SequentialNames(ts, names, v);
    var out := SubstNames(ts, names, v);
    forall n | Hole(n) in out ensures false {
      SubstNamesHoles(ts, names, v, n);
    }
    k := NestedHasStray(out);
    if |k| < |v| {
      GuardedHasNoShortStray(out, |v|, k);
    }
  }

  lemma AssignedKeys(ts: seq<Token>, v: string, k: string)
    requires WellFormed(ts) && BraceFree(v) && BraceFree(k) && |k| >= |v| > |Print(ts)|
    ensures var vars := Assign(HoleNames(ts), v) + [(k, "")];
      BraceFreeVars(vars) && DistinctKeys(vars)
  {
    HoleNamesFacts(ts);
  }

  /** On a template whose braces nest, some dictionary without braces renders differently. */
  lemma NestedTemplatesDiffer(t: string) returns (vars: seq<(string, string)>)
    requires !FlatTemplate(t)
    ensures BraceFreeVars(vars) && DistinctKeys(vars)
    ensures Sequential(t, vars) != Simultaneous(Tokens(t), MapOf(vars))
  {
    var ts := Tokens(t);
    var v: string := seq(|t| + 1, i => 'x');
    var names := HoleNames(ts);
    var k := FilledStaysNested(t, v, names);
    var out, last := SubstNames(ts, names, v), [(k, "")];
    PrintTokens(t);
    AssignedKeys(ts, v, k);
    vars := Assign(names, v) + last;
    SequentialAppend(t, Assign(names, v), last);
    assert last[1..] == [];
    assert Sequential(t, vars) == Replace(Print(out), Placeholder(k), "");
    StrayOccurs(out, k);
    ErasingShrinks(Print(out), Placeholder(k));
    SimultaneousNames(ts, names, v, last);
    SimultaneousWithoutHoles(out, MapOf(last));
  }

  /** The replacement loop is a simultaneous substitution for every brace-free dictionary exactly on flat templates. */
  lemma FlatIsExact(t: string)
    ensures FlatTemplate(t) <==>
      forall vars :: BraceFreeVars(vars) && DistinctKeys(vars) ==> Sequential(t, vars) == Simultaneous(Tokens(t), MapOf(vars))
  {
    if FlatTemplate(t) {
      forall vars | BraceFreeVars(vars) && DistinctKeys(vars)
        ensures Sequential(t, vars) == Simultaneous(Tokens(t), MapOf(vars))
      {
        SequentialIsSimultaneous(t, vars);
      }
    } else {
      var vars := NestedTemplatesDiffer(t);
    }
  }

  /** Values with braces break it even on a flat template: the inserted text is replaced again. */
  lemma BracedValueIsReplacedAgain()
    ensures FlatTemplate("{a}")
    ensures Sequential("{a}", [("a", "{b}"), ("b", "c")]) == "c"
    ensures Simultaneous(Tokens("{a}"), MapOf([("a", "{b}"), ("b", "c")])) == "{b}"
  {
    var t := "{a}";
    assert NextBrace(t, 1) == 2 by {
      assert NextBrace(t, 2) == 2;
    }
    assert t[3..] == "" && t[1..2] == "a";
    assert Tokens(t) == [Hole("a")];
    var vars := [("a", "{b}"), ("b", "c")];
    assert Placeholder("a") == "{a}" && Placeholder("b") == "{b}";
    assert Replace("{a}", "{a}", "{b}") == "{b}" by {
      assert "{a}"[3..] == "";
    }
    assert Replace("{b}", "{b}", "c") == "c" by {
      assert "{b}"[3..] == "";
    }
    assert vars[1..] == [("b", "c")] && [("b", "c")][1..] == [];
    assert Sequential(t, vars) == Sequential("{b}", vars[1..]);
    assert Sequential("{b}", [("b", "c")]) == Sequential("c", []);
    assert MapOf(vars)["a"] == "{b}";
    assert [Hole("a")][1..] == [];
  }

  // ---------------------------------------------------------------------
  // Values: exactly the ones without braces are safe
  // ---------------------------------------------------------------------

  predicate Agrees(t: string, vars: seq<(string, string)>) {
    Sequential(t, vars) == Simultaneous(Tokens(t), MapOf(vars))
  }

  /** Once the substituted text spells a second placeholder, erasing that one tells the two apart. */
  lemma ErasedAgain(t: string, k: string, v: string, m: string)
    requires FlatTemplate(t) && BraceFree(k) && BraceFree(m) && k != m
    requires forall n :: Hole(n) in Tokens(t) ==> n == k
    requires Occurs(Print(SubstOne(Tokens(t), k, v)), Placeholder(m))
    ensures !Agrees(t, [(k, v), (m, "")])
  {
    var ts, vars, last := Tokens(t), [(k, v), (m, "")], [(m, "")];
    var out := SubstOne(ts, k, v);
    PrintTokens(t);
    FlatHasNoStray(ts, k);
    ReplaceTokens(ts, k, v);
    assert vars[1..] == last && last[1..] == [];
    assert Sequential(t, vars) == Sequential(Print(out), last) == Replace(Print(out), Placeholder(m), "");
    ErasingShrinks(Print(out), Placeholder(m));
    forall n ensures Hole(n) !in out {
      if Hole(n) in out {
        SubstRemovesHole(ts, k, v, n);
      }
    }
    SimultaneousAbsorbs(ts, k, v, MapOf(last));
    SimultaneousWithoutHoles(out, MapOf(last));
  }

  lemma NoBraceInside(s: string, i: nat, j: nat, p: nat)
    requires i <= p < j <= |s| && BraceFree(s[i..j])
    ensures s[p] != '{' && s[p] != '}'
  {
    assert s[i..j][p - i] == s[p];
  }

  lemma NextBraceIs(s: string, i: nat, j: nat)
    requires i <= j <= |s| && BraceFree(s[i..j]) && (j < |s| ==> s[j] == '{' || s[j] == '}')
    ensures NextBrace(s, i) == j
  {
    var n := NextBrace(s, i);
    if n < j {
      NoBraceInside(s, i, j, n);
    } else if j < n {
      NoBraceInside(s, i, n, j);
    }
  }

  lemma TokensOfHole(n: string, rest: string)
    requires BraceFree(n)
    ensures Tokens(Placeholder(n) + rest) == [Hole(n)] + Tokens(rest)
  {
    var s := Placeholder(n) + rest;
    assert s[1..|n| + 1] == n && s[|n| + 2..] == rest && s[|n| + 1] == '}';
    NextBraceIs(s, 1, |n| + 1);
  }

  lemma {:induction false} TokensOfText(p: string, rest: string)
    requires BraceFree(p)
    ensures Tokens(p + rest) == Chars(p) + Tokens(rest)
  {
    if p == "" {
      assert p + rest == rest;
    } else {
      assert (p + rest)[1..] == p[1..] + rest;
      TokensOfText(p[1..], rest);
    }
  }

  lemma {:induction false} SubstKeepsText(p: string, last: Token, k: string, v: string)
    ensures SubstOne(Chars(p) + [last], k, v) == Chars(p) + SubstOne([last], k, v)
  {
    if p == "" {
      assert Chars(p) + [last] == [last];
    } else {
      SubstKeepsText(p[1..], last, k, v);
      SubstKeepsFirst(Ch(p[0]), Chars(p[1..]) + [last], k, v);
      Regroup(Ch(p[0]), Chars(p[1..]), [last]);
      Regroup(Ch(p[0]), Chars(p[1..]), SubstOne([last], k, v));
    }
  }

  lemma SubstKeepsFirst(t: Token, rest: seq<Token>, k: string, v: string)
    requires !t.Hole?
    ensures SubstOne([t] + rest, k, v) == [t] + SubstOne(rest, k, v)
  {
    assert ([t] + rest)[1..] == rest;
  }

  lemma Regroup<T>(x: T, a: seq<T>, b: seq<T>)
    ensures [x] + (a + b) == [x] + a + b
  {
  }

  lemma SubstHole(k: string, rest: seq<Token>, v: string)
    ensures SubstOne([Hole(k)] + rest, k, v) == Chars(v) + SubstOne(rest, k, v)
  {
    assert ([Hole(k)] + rest)[1..] == rest;
  }

  /** A template with text and a closing brace behind its only placeholder. */
  function ClosedBehind(k: string, q: string): string {
    Placeholder(k) + (q + "}")
  }

  lemma ClosedBehindTokens(k: string, q: string)
    requires BraceFree(k) && BraceFree(q)
    ensures Tokens(ClosedBehind(k, q)) == [Hole(k)] + (Chars(q) + [Close])
    ensures Flat([Hole(k)] + (Chars(q) + [Close]))
    ensures forall n :: Hole(n) in [Hole(k)] + (Chars(q) + [Close]) ==> n == k
  {
    TokensOfHole(k, q + "}");
    TokensOfText(q, "}");
    assert Tokens("}") == [Close];
    CharsKeepFlat(q, [Close]);
    assert ([Hole(k)] + (Chars(q) + [Close]))[1..] == Chars(q) + [Close];
    AllCh(q);
  }

  lemma ClosedBehindPrints(k: string, q: string, v: string)
    ensures Print(SubstOne([Hole(k)] + (Chars(q) + [Close]), k, v)) == v + (q + "}")
  {
    SubstHole(k, Chars(q) + [Close], v);
    SubstKeepsText(q, Close, k, v);
    assert SubstOne([Close], k, v) == [Close] by {
      assert [Close][1..] == [];
    }
    PrintAppend(Chars(v), Chars(q) + [Close]);
    PrintAppend(Chars(q), [Close]);
    PrintChars(v);
    PrintChars(q);
    assert Print([Close]) == "}" by {
      assert [Close][1..] == [];
    }
  }

  lemma JoinBehind(p: string, w: string, q: string)
    ensures p + "{" + w + (q + "}") == p + Placeholder(w + q)
  {
  }

  /** It completes an opening brace of the value. */
  lemma ClosedBehindDiffers(k: string, q: string, v: string, p: string, w: string)
    requires BraceFree(k) && BraceFree(q) && v == p + "{" + w && BraceFree(w) && k != w + q
    ensures FlatTemplate(ClosedBehind(k, q)) && !Agrees(ClosedBehind(k, q), [(k, v), (w + q, "")])
  {
    ClosedBehindTokens(k, q);
    ClosedBehindPrints(k, q, v);
    JoinBehind(p, w, q);
    OccursInSuffix(p, Placeholder(w + q), Placeholder(w + q));
    ErasedAgain(ClosedBehind(k, q), k, v, w + q);
  }

  /** A template with an opening brace and text before its only placeholder. */
  function OpenedBefore(k: string, q: string): string {
    "{" + (q + Placeholder(k))
  }

  lemma OpenedBeforeTokens(k: string, q: string)
    requires BraceFree(k) && BraceFree(q)
    ensures Tokens(OpenedBefore(k, q)) == [Open] + (Chars(q) + [Hole(k)])
    ensures Flat([Open] + (Chars(q) + [Hole(k)]))
    ensures forall n :: Hole(n) in [Open] + (Chars(q) + [Hole(k)]) ==> n == k
  {
    assert Placeholder(k) + "" == Placeholder(k);
    TokensOfHole(k, "");
    TokensOfText(q, Placeholder(k));
    TokensOfOpen(q, Placeholder(k));
    OpenedIsFlat(k, q);
    AllCh(q);
  }

  /** An opening brace before text and another opening brace is unmatched. */
  lemma TokensOfOpen(q: string, rest: string)
    requires BraceFree(q) && rest != "" && rest[0] == '{'
    ensures Tokens("{" + (q + rest)) == [Open] + Tokens(q + rest)
  {
    var t := "{" + (q + rest);
    assert t[1..] == q + rest && t[1..|q| + 1] == q && t[|q| + 1] == '{';
    NextBraceIs(t, 1, |q| + 1);
  }

  lemma OpenedIsFlat(k: string, q: string)
    ensures Flat([Open] + (Chars(q) + [Hole(k)]))
  {
    var rest := Chars(q) + [Hole(k)];
    CharsKeepFlat(q, [Hole(k)]);
    CharsKeepNext(q, [Hole(k)]);
    assert [Hole(k)][1..] == [] && ([Open] + rest)[1..] == rest;
  }

  lemma OpenedBeforePrints(k: string, q: string, v: string)
    ensures Print(SubstOne([Open] + (Chars(q) + [Hole(k)]), k, v)) == "{" + (q + v)
  {
    var rest := Chars(q) + [Hole(k)];
    assert ([Open] + rest)[1..] == rest;
    SubstKeepsText(q, Hole(k), k, v);
    SubstHole(k, [], v);
    assert [Hole(k)] + [] == [Hole(k)] && Chars(v) + [] == Chars(v);
    assert SubstOne([Open] + rest, k, v) == [Open] + (Chars(q) + Chars(v));
    PrintKept(Open, Chars(q) + Chars(v));
    PrintAppend(Chars(q), Chars(v));
    PrintChars(v);
    PrintChars(q);
  }

  /** It completes a closing brace of the value. */
  lemma OpenedBeforeDiffers(k: string, q: string, v: string, w: string, u: string)
    requires BraceFree(k) && BraceFree(q) && v == w + "}" + u && BraceFree(w) && k != q + w
    ensures FlatTemplate(OpenedBefore(k, q)) && !Agrees(OpenedBefore(k, q), [(k, v), (q + w, "")])
  {
    OpenedBeforeTokens(k, q);
    OpenedBeforePrints(k, q, v);
    JoinBefore(q, w, u);
    ErasedAgain(OpenedBefore(k, q), k, v, q + w);
  }

  lemma JoinBefore(q: string, w: string, u: string)
    ensures "{" + (q + (w + "}" + u)) == Placeholder(q + w) + u
  {
  }

  /** A template that is a placeholder alone shows a placeholder inside the value. */
  lemma AloneDiffers(k: string, v: string, m: string)
    requires BraceFree(k) && BraceFree(m) && k != m && Occurs(v, Placeholder(m))
    ensures FlatTemplate(Placeholder(k)) && !Agrees(Placeholder(k), [(k, v), (m, "")])
  {
    TokensOfHole(k, "");
    assert Placeholder(k) + "" == Placeholder(k) && [Hole(k)] + [] == [Hole(k)];
    assert [Hole(k)][1..] == [];
    SubstHole(k, [], v);
    PrintChars(v);
    assert Chars(v) + [] == Chars(v);
    ErasedAgain(Placeholder(k), k, v, m);
  }

  /** Position behind the last opening brace, 0 when there is none. */
  function AfterLastOpen(v: string): (i: nat)
    ensures i <= |v|
    ensures i > 0 ==> v[i - 1] == '{'
    ensures forall j :: i <= j < |v| ==> v[j] != '{'
  {
    if v == "" then 0 else if v[|v| - 1] == '{' then |v| else AfterLastOpen(v[..|v| - 1])
  }

  /** A value with a brace is text around an unfinished or a complete placeholder. */
  lemma BraceCases(v: string) returns (p: string, w: string, u: string)
    requires !BraceFree(v)
    ensures BraceFree(w)
    ensures v == p + "{" + w || v == p + (Placeholder(w) + u) || v == w + "}" + u
  {
    var i := AfterLastOpen(v);
    var j := NextBrace(v, i);
    p, w, u := if i > 0 then v[..i - 1] else "", v[i..j], if j < |v| then v[j + 1..] else "";
    assert v[0..|v|] == v;
    if j == |v| {
      assert v == p + "{" + w;
    } else if i > 0 {
      assert v == p + (Placeholder(w) + u);
    } else {
      assert v == w + "}" + u;
    }
  }

  /** For every value with a brace, a flat template and a second variable on which the two differ. */
  lemma BracedValueDiffers(v: string) returns (t: string, k: string, m: string)
    requires !BraceFree(v)
    ensures FlatTemplate(t) && BraceFree(k) && BraceFree(m) && k != m
    ensures !Agrees(t, [(k, v), (m, "")])
  {
    var p, w, u := BraceCases(v);
    if v == p + (Placeholder(w) + u) {
      k, m := if w == "x" then "y" else "x", w;
      t := Placeholder(k);
      OccursInSuffix(p, Placeholder(w) + u, Placeholder(w));
      AloneDiffers(k, v, m);
    } else if v == p + "{" + w {
      k, m := "x", w + "qq";
      t := ClosedBehind(k, "qq");
      ClosedBehindDiffers(k, "qq", v, p, w);
    } else {
      k, m := "x", "qq" + w;
      t := OpenedBefore(k, "qq");
      OpenedBeforeDiffers(k, "qq", v, w, u);
    }
  }

  /** A value is substituted as the dictionary says in every flat template, under every plain key and with
      every plain variables behind it, exactly when it has no brace. */
  lemma ValueIsExact(v: string)
    ensures BraceFree(v) <==>
      forall t, k, rest :: FlatTemplate(t) && BraceFree(k) && BraceFreeVars(rest) && DistinctKeys([(k, v)] + rest)
        ==> Agrees(t, [(k, v)] + rest)
  {
    if BraceFree(v) {
      forall t, k, rest | FlatTemplate(t) && BraceFree(k) && BraceFreeVars(rest) && DistinctKeys([(k, v)] + rest)
        ensures Agrees(t, [(k, v)] + rest)
      {
        SequentialIsSimultaneous(t, [(k, v)] + rest);
      }
    } else {
      var t, k, m := BracedValueDiffers(v);
      assert [(k, v), (m, "")] == [(k, v)] + [(m, "")];
      assert BraceFreeVars([(m, "")]) && DistinctKeys([(k, v)] + [(m, "")]);
    }
  }
}
