/** Boot-file rendering: one textual replacement per variable, in dictionary order. */
module BootChain {
  import opened Wrappers
  import Ordering

  // ---------------------------------------------------------------------
  // Text replacement as the source performs it
  // ---------------------------------------------------------------------

  predicate StartsWith(s: string, p: string) {
    |p| <= |s| && s[..|p|] == p
  }

  /** `s.replace(pat, v)`: leftmost matches, none of them overlapping. */
  function Replace(s: string, pat: string, v: string): string
    requires pat != ""
  {
    if s == "" then ""
    else if StartsWith(s, pat) then v + Replace(s[|pat|..], pat, v)
    else [s[0]] + Replace(s[1..], pat, v)
  }

  predicate Occurs(s: string, pat: string) {
    StartsWith(s, pat) || (s != "" && Occurs(s[1..], pat))
  }

  function Placeholder(key: string): string {
    "{" + key + "}"
  }

  /** One `replace` after the other. */
  function Sequential(content: string, vars: seq<(string, string)>): string
    decreases vars
  {
    if vars == [] then content
    else Sequential(Replace(content, Placeholder(vars[0].0), vars[0].1), vars[1..])
  }

  // ---------------------------------------------------------------------
  // Templates as text, unmatched braces and placeholders
  // ---------------------------------------------------------------------

  datatype Token = Ch(c: char) | Open | Close | Hole(name: string)

  predicate BraceFree(s: string) {
    forall i :: 0 <= i < |s| ==> s[i] != '{' && s[i] != '}'
  }

  predicate WellFormed(ts: seq<Token>) {
    forall i :: 0 <= i < |ts| ==>
      (ts[i].Ch? ==> ts[i].c != '{' && ts[i].c != '}') && (ts[i].Hole? ==> BraceFree(ts[i].name))
  }

  function PrintToken(t: Token): string {
    match t
    case Ch(c) => [c]
    case Open => "{"
    case Close => "}"
    case Hole(n) => Placeholder(n)
  }

  function Print(ts: seq<Token>): string {
    if ts == [] then "" else PrintToken(ts[0]) + Print(ts[1..])
  }

  /** Position of the first brace at or after `i`. */
  function NextBrace(s: string, i: nat): (j: nat)
    requires i <= |s|
    ensures i <= j <= |s|
    ensures BraceFree(s[i..j])
    ensures j < |s| ==> s[j] == '{' || s[j] == '}'
    decreases |s| - i
  {
    if i == |s| || s[i] == '{' || s[i] == '}' then i
    else
      var j := NextBrace(s, i + 1);
      assert s[i..j] == [s[i]] + s[i + 1..j];
      j
  }

  function Tokens(s: string): seq<Token> {
    if s == "" then []
    else if s[0] == '{' then
      var j := NextBrace(s, 1);
      if j < |s| && s[j] == '}' then [Hole(s[1..j])] + Tokens(s[j + 1..])
      else [Open] + Tokens(s[1..])
    else [if s[0] == '}' then Close else Ch(s[0])] + Tokens(s[1..])
  }

  /** The next brace outside placeholders is an unmatched closing one. */
  predicate NextIsClose(ts: seq<Token>) {
    ts != [] && (ts[0].Close? || ((ts[0].Ch? || ts[0].Hole?) && NextIsClose(ts[1..])))
  }

  /** No unmatched opening brace is followed by an unmatched closing brace with only text and
      placeholders in between: braces never nest. */
  predicate Flat(ts: seq<Token>) {
    ts == [] || ((ts[0].Open? ==> !NextIsClose(ts[1..])) && Flat(ts[1..]))
  }

  predicate FlatTemplate(s: string) {
    Flat(Tokens(s))
  }

  /** All placeholders replaced at the same time; a name outside `m` stays. */
  function Simultaneous(ts: seq<Token>, m: map<string, string>): string {
    if ts == [] then ""
    else (if ts[0].Hole? && ts[0].name in m then m[ts[0].name] else PrintToken(ts[0])) + Simultaneous(ts[1..], m)
  }

  /** The dictionary behind the list of variables. */
  function MapOf(vars: seq<(string, string)>): map<string, string> {
    if vars == [] then map[] else MapOf(vars[1..])[vars[0].0 := vars[0].1]
  }

  predicate BraceFreeVars(vars: seq<(string, string)>) {
    forall i :: 0 <= i < |vars| ==> BraceFree(vars[i].0) && BraceFree(vars[i].1)
  }

  // ---------------------------------------------------------------------
  // Tokens are a faithful reading of the template
  // ---------------------------------------------------------------------

  lemma {:induction false} TokensWellFormed(s: string)
    ensures WellFormed(Tokens(s))
  {
    if s != "" {
      TokensWellFormed(s[1..]);
      var j := NextBrace(s, 1);
      if s[0] == '{' && j < |s| && s[j] == '}' {
        TokensWellFormed(s[j + 1..]);
      }
    }
  }

  lemma PrintHoleFirst(s: string, j: nat, ts: seq<Token>)
    requires 1 <= j < |s| && s[0] == '{' && s[j] == '}'
    requires Print(ts) == s[j + 1..]
    ensures Print([Hole(s[1..j])] + ts) == s
  {
    PrintKept(Hole(s[1..j]), ts);
    PlaceholderAt(s, j);
    SplitAt(s, j + 1);
  }

  lemma PlaceholderAt(s: string, j: nat)
    requires 1 <= j < |s| && s[0] == '{' && s[j] == '}'
    ensures Placeholder(s[1..j]) == s[..j + 1]
  {
  }

  lemma SplitAt(s: string, j: nat)
    requires j <= |s|
    ensures s == s[..j] + s[j..]
  {
  }

  /** The token of a first character that opens no placeholder. */
  function CharToken(c: char): Token {
    if c == '{' then Open else if c == '}' then Close else Ch(c)
  }

  lemma PrintCharFirst(s: string, ts: seq<Token>)
    requires s != "" && Print(ts) == s[1..]
    ensures Print([CharToken(s[0])] + ts) == s
  {
    PrintKept(CharToken(s[0]), ts);
    assert PrintToken(CharToken(s[0])) == s[..1];
    SplitAt(s, 1);
  }

  /** Splitting a template into tokens loses nothing. */
  lemma {:induction false} PrintTokens(s: string)
    ensures Print(Tokens(s)) == s && WellFormed(Tokens(s))
  {
    TokensWellFormed(s);
    if s != "" {
      var j := NextBrace(s, 1);
      if s[0] == '{' && j < |s| && s[j] == '}' {
        PrintTokens(s[j + 1..]);
        PrintHoleFirst(s, j, Tokens(s[j + 1..]));
      } else {
        PrintTokens(s[1..]);
        PrintCharFirst(s, Tokens(s[1..]));
      }
    }
  }

  /** The text up to an unmatched closing brace, when only text comes before it. */
  function Inner(ts: seq<Token>): Option<string> {
    if ts == [] then None
    else match ts[0]
      case Close => Some("")
      case Ch(c) => var r := Inner(ts[1..]); if r.Some? then Some([c] + r.value) else None
      case Open => None
      case Hole(_) => None
  }

  lemma {:induction false} InnerMeansClose(ts: seq<Token>)
    ensures Inner(ts).Some? ==> NextIsClose(ts)
  {
    if ts != [] {
      InnerMeansClose(ts[1..]);
    }
  }

  /** Some unmatched brace pair encloses exactly the text `k`. */
  predicate Stray(ts: seq<Token>, k: string) {
    ts != [] && ((ts[0].Open? && Inner(ts[1..]) == Some(k)) || Stray(ts[1..], k))
  }

  lemma {:induction false} FlatHasNoStray(ts: seq<Token>, k: string)
    requires Flat(ts)
    ensures !Stray(ts, k)
  {
    if ts != [] {
      FlatHasNoStray(ts[1..], k);
      InnerMeansClose(ts[1..]);
    }
  }

  lemma WellFormedTail(ts: seq<Token>)
    requires WellFormed(ts) && ts != []
    ensures WellFormed(ts[1..])
  {
  }

  lemma StartsCons(c: char, s: string, d: char, p: string)
    ensures StartsWith([c] + s, [d] + p) <==> c == d && StartsWith(s, p)
  {
    if |p| <= |s| {
      assert ([c] + s)[..|p| + 1] == [c] + s[..|p|];
      assert ([c] + s[..|p|])[1..] == s[..|p|] && ([d] + p)[1..] == p;
    }
  }

  /** Where the printed tokens can continue with `k}`. */
  lemma {:induction false} StartsInner(ts: seq<Token>, k: string)
    requires WellFormed(ts) && BraceFree(k)
    ensures StartsWith(Print(ts), k + "}") <==> Inner(ts) == Some(k)
    decreases ts
  {
    var pat := k + "}";
    if ts != [] {
      WellFormedTail(ts);
      var rest := Print(ts[1..]);
      match ts[0]
      case Ch(c) =>
        if k == "" {
          StartsCons(c, rest, '}', "");
        } else {
          StartsInner(ts[1..], k[1..]);
          assert pat == [k[0]] + (k[1..] + "}");
          StartsCons(c, rest, k[0], k[1..] + "}");
          assert k == [k[0]] + k[1..];
        }
      case Close =>
        if k != "" {
          assert pat[0] == k[0];
        }
      case Open =>
        assert pat[0] != '{';
      case Hole(n) =>
        assert pat[0] != '{';
    }
  }

  lemma {:induction false} ReplaceSkips(p: string, s: string, pat: string, v: string)
    requires pat != "" && pat[0] == '{'
    requires forall i :: 0 <= i < |p| ==> p[i] != '{'
    ensures Replace(p + s, pat, v) == p + Replace(s, pat, v)
  {
    if p == "" {
      assert p + s == s;
    } else {
      assert (p + s)[0] == p[0] && (p + s)[1..] == p[1..] + s;
      ReplaceSkips(p[1..], s, pat, v);
    }
  }

  // ---------------------------------------------------------------------
  // One replacement, on tokens
  // ---------------------------------------------------------------------

  function Chars(s: string): seq<Token> {
    if s == "" then [] else [Ch(s[0])] + Chars(s[1..])
  }

  function SubstOne(ts: seq<Token>, k: string, v: string): seq<Token> {
    if ts == [] then []
    else (if ts[0] == Hole(k) then Chars(v) else [ts[0]]) + SubstOne(ts[1..], k, v)
  }

  lemma {:induction false} PrintAppend(a: seq<Token>, b: seq<Token>)
    ensures Print(a + b) == Print(a) + Print(b)
  {
    if a == [] {
      assert a + b == b;
    } else {
      assert (a + b)[0] == a[0] && (a + b)[1..] == a[1..] + b;
      PrintAppend(a[1..], b);
    }
  }

  lemma {:induction false} PrintChars(s: string)
    ensures Print(Chars(s)) == s
  {
    if s != "" {
      PrintChars(s[1..]);
      assert Chars(s)[1..] == Chars(s[1..]);
    }
  }

  lemma {:induction false} InnerOfChars(s: string, ts: seq<Token>)
    ensures Inner(Chars(s) + [Close] + ts) == Some(s)
  {
    var all := Chars(s) + [Close] + ts;
    if s == "" {
      assert all[0] == Close;
    } else {
      CharsTail(s, ts);
      InnerOfChars(s[1..], ts);
      assert Inner(all[1..]) == Some(s[1..]);
      assert [s[0]] + s[1..] == s;
    }
  }

  lemma CharsTail(s: string, ts: seq<Token>)
    requires s != ""
    ensures var all := Chars(s) + [Close] + ts; all[0] == Ch(s[0]) && all[1..] == Chars(s[1..]) + [Close] + ts
  {
    var rest := Chars(s[1..]);
    assert Chars(s) == [Ch(s[0])] + rest;
    assert [Ch(s[0])] + rest + [Close] + ts == [Ch(s[0])] + (rest + [Close] + ts);
  }

  lemma {:induction false} CharsWellFormed(s: string)
    requires BraceFree(s)
    ensures WellFormed(Chars(s)) && forall i :: 0 <= i < |Chars(s)| ==> Chars(s)[i].Ch?
  {
    if s != "" {
      CharsWellFormed(s[1..]);
    }
  }

  /** A placeholder token prints as an opening brace followed by its name as plain text. */
  lemma PrintHole(n: string, rest: seq<Token>)
    ensures Print([Hole(n)] + rest) == "{" + Print(Chars(n) + [Close] + rest)
    ensures Print([Hole(n)] + rest) == "{" + (n + "}" + Print(rest))
  {
    PrintChars(n);
    PrintKept(Close, []);
    assert [Close] + [] == [Close];
    PrintAppend(Chars(n), [Close]);
    PrintAppend(Chars(n) + [Close], rest);
    assert Print(Chars(n) + [Close] + rest) == n + "}" + Print(rest);
    PrintKept(Hole(n), rest);
    BraceOut(n, Print(rest));
  }

  lemma BraceOut(n: string, s: string)
    ensures Placeholder(n) + s == "{" + (n + "}" + s)
  {
  }

  /** A printed placeholder for another name does not match. */
  lemma OtherHole(n: string, k: string, rest: seq<Token>)
    requires BraceFree(n) && BraceFree(k) && WellFormed(rest)
    ensures StartsWith("{" + (n + "}" + Print(rest)), Placeholder(k)) <==> n == k
  {
    var body := Chars(n) + [Close] + rest;
    CharsWellFormed(n);
    assert WellFormed(body);
    InnerOfChars(n, rest);
    StartsInner(body, k);
    PrintHole(n, rest);
    StartsAfterBrace(Print(body), k);
  }

  lemma StartsAfterBrace(s: string, k: string)
    ensures StartsWith("{" + s, Placeholder(k)) <==> StartsWith(s, k + "}")
  {
    assert Placeholder(k) == ['{'] + (k + "}");
    StartsCons('{', s, '{', k + "}");
  }

  lemma ReplaceMatch(k: string, s: string, v: string)
    ensures Replace(Placeholder(k) + s, Placeholder(k), v) == v + Replace(s, Placeholder(k), v)
  {
    var all := Placeholder(k) + s;
    assert all[..|Placeholder(k)|] == Placeholder(k) && all[|Placeholder(k)|..] == s;
  }

  lemma TextDoesNotMatch(c: char, s: string, k: string)
    requires c != '{'
    ensures !StartsWith([c] + s, Placeholder(k))
  {
    assert Placeholder(k) == ['{'] + (k + "}");
    StartsCons(c, s, '{', k + "}");
  }

  lemma OccursCons(c: char, s: string, k: string)
    ensures Occurs([c] + s, Placeholder(k)) <==> StartsWith([c] + s, Placeholder(k)) || Occurs(s, Placeholder(k))
    ensures c != '{' ==> !StartsWith([c] + s, Placeholder(k))
  {
    assert ([c] + s)[1..] == s;
    if c != '{' {
      TextDoesNotMatch(c, s, k);
    }
  }

  lemma ReplaceNoMatch(c: char, s: string, pat: string, v: string)
    requires pat != "" && !StartsWith([c] + s, pat)
    ensures Replace([c] + s, pat, v) == [c] + Replace(s, pat, v)
  {
    assert ([c] + s)[1..] == s;
  }

  lemma ReplaceHole(n: string, k: string, v: string, rest: seq<Token>)
    requires BraceFree(n) && BraceFree(k) && WellFormed(rest)
    ensures Replace(Placeholder(n) + Print(rest), Placeholder(k), v)
         == (if n == k then v else Placeholder(n)) + Replace(Print(rest), Placeholder(k), v)
  {
    if n == k {
      ReplaceMatch(k, Print(rest), v);
    } else {
      OtherHole(n, k, rest);
      SkipHole(n, Print(rest), Placeholder(k), v);
    }
  }

  lemma SkipHole(n: string, s: string, pat: string, v: string)
    requires BraceFree(n) && pat != "" && pat[0] == '{'
    requires !StartsWith("{" + (n + "}" + s), pat)
    ensures Replace(Placeholder(n) + s, pat, v) == Placeholder(n) + Replace(s, pat, v)
  {
    BraceOut(n, s);
    BraceOut(n, Replace(s, pat, v));
    ReplaceNoMatch('{', n + "}" + s, pat, v);
    ReplaceSkips(n + "}", s, pat, v);
  }

  /** Replacing the text of a placeholder replaces exactly the placeholder tokens of that name. */
  lemma {:induction false} ReplaceTokens(ts: seq<Token>, k: string, v: string)
    requires WellFormed(ts) && !Stray(ts, k) && BraceFree(k)
    ensures Replace(Print(ts), Placeholder(k), v) == Print(SubstOne(ts, k, v))
  {
    if ts != [] {
      var pat, rest := Placeholder(k), Print(ts[1..]);
      WellFormedTail(ts);
      ReplaceTokens(ts[1..], k, v);
      var tail := SubstOne(ts[1..], k, v);
      match ts[0]
      case Hole(n) =>
        ReplaceHole(n, k, v, ts[1..]);
        PrintAppend(Chars(v), tail);
        PrintChars(v);
        PrintKept(ts[0], tail);
      case Open =>
        StartsInner(ts[1..], k);
        StartsAfterBrace(rest, k);
        ReplaceNoMatch('{', rest, pat, v);
        PrintKept(Open, tail);
      case Close =>
        TextDoesNotMatch('}', rest, k);
        ReplaceNoMatch('}', rest, pat, v);
        PrintKept(Close, tail);
      case Ch(c) =>
        TextDoesNotMatch(c, rest, k);
        ReplaceNoMatch(c, rest, pat, v);
        PrintKept(ts[0], tail);
    }
  }

  lemma PrintKept(t: Token, tail: seq<Token>)
    ensures Print([t] + tail) == PrintToken(t) + Print(tail)
  {
    assert ([t] + tail)[1..] == tail;
  }

  lemma {:induction false} CharsKeepNext(s: string, ts: seq<Token>)
    ensures NextIsClose(Chars(s) + ts) == NextIsClose(ts)
  {
    if s == "" {
      assert Chars(s) + ts == ts;
    } else {
      assert (Chars(s) + ts)[1..] == Chars(s[1..]) + ts;
      CharsKeepNext(s[1..], ts);
    }
  }

  lemma {:induction false} CharsKeepFlat(s: string, ts: seq<Token>)
    ensures Flat(Chars(s) + ts) == Flat(ts)
  {
    if s == "" {
      assert Chars(s) + ts == ts;
    } else {
      assert (Chars(s) + ts)[1..] == Chars(s[1..]) + ts;
      CharsKeepFlat(s[1..], ts);
    }
  }

  /** Replacing keeps templates flat. */
  lemma {:induction false} SubstOneKeepsFlat(ts: seq<Token>, k: string, v: string)
    requires WellFormed(ts) && BraceFree(v)
    ensures WellFormed(SubstOne(ts, k, v))
    ensures NextIsClose(SubstOne(ts, k, v)) == NextIsClose(ts)
    ensures Flat(SubstOne(ts, k, v)) == Flat(ts)
  {
    if ts != [] {
      WellFormedTail(ts);
      SubstOneKeepsFlat(ts[1..], k, v);
      var tail := SubstOne(ts[1..], k, v);
      if ts[0] == Hole(k) {
        CharsWellFormed(v);
        CharsKeepNext(v, tail);
        CharsKeepFlat(v, tail);
      } else {
        assert ([ts[0]] + tail)[1..] == tail;
      }
    }
  }

  lemma SimultaneousCons(t: Token, ts: seq<Token>, m: map<string, string>)
    ensures Simultaneous([t] + ts, m)
         == (if t.Hole? && t.name in m then m[t.name] else PrintToken(t)) + Simultaneous(ts, m)
  {
    assert ([t] + ts)[1..] == ts;
  }

  lemma SplitFirst(s: string, x: string)
    requires s != ""
    ensures s + x == [s[0]] + (s[1..] + x)
  {
  }

  lemma {:induction false} SimultaneousOfChars(s: string, ts: seq<Token>, m: map<string, string>)
    ensures Simultaneous(Chars(s) + ts, m) == s + Simultaneous(ts, m)
  {
    if s == "" {
      assert Chars(s) + ts == ts;
    } else {
      var rest := Chars(s[1..]) + ts;
      assert Chars(s) + ts == [Ch(s[0])] + rest;
      assert Simultaneous(Chars(s) + ts, m) == [s[0]] + Simultaneous(rest, m) by {
        SimultaneousCons(Ch(s[0]), rest, m);
      }
      SimultaneousOfChars(s[1..], ts, m);
      SplitFirst(s, Simultaneous(ts, m));
    }
  }

  /** One replacement first, the others at once: all at once. */
  lemma {:induction false} SimultaneousAbsorbs(ts: seq<Token>, k: string, v: string, m: map<string, string>)
    ensures Simultaneous(SubstOne(ts, k, v), m) == Simultaneous(ts, m[k := v])
  {
    if ts != [] {
      SimultaneousAbsorbs(ts[1..], k, v, m);
      var tail := SubstOne(ts[1..], k, v);
      if ts[0] == Hole(k) {
        SimultaneousOfChars(v, tail, m);
      } else {
        assert ([ts[0]] + tail)[1..] == tail;
      }
    }
  }

  lemma {:induction false} SimultaneousOfNothing(ts: seq<Token>)
    ensures Simultaneous(ts, map[]) == Print(ts)
  {
    if ts != [] {
      SimultaneousOfNothing(ts[1..]);
    }
  }

  lemma {:induction false} SequentialOnTokens(ts: seq<Token>, vars: seq<(string, string)>)
    requires WellFormed(ts) && Flat(ts) && BraceFreeVars(vars)
    ensures Sequential(Print(ts), vars) == Simultaneous(ts, MapOf(vars))
    decreases vars
  {
    if vars == [] {
      SimultaneousOfNothing(ts);
    } else {
      var k, v := vars[0].0, vars[0].1;
      FlatHasNoStray(ts, k);
      ReplaceTokens(ts, k, v);
      SubstOneKeepsFlat(ts, k, v);
      SequentialOnTokens(SubstOne(ts, k, v), vars[1..]);
      SimultaneousAbsorbs(ts, k, v, MapOf(vars[1..]));
    }
  }

  // ---------------------------------------------------------------------
  // Results
  // ---------------------------------------------------------------------

  /** For flat templates the loop of replacements is one simultaneous substitution. */
  lemma SequentialIsSimultaneous(t: string, vars: seq<(string, string)>)
    requires FlatTemplate(t) && BraceFreeVars(vars)
    ensures Sequential(t, vars) == Simultaneous(Tokens(t), MapOf(vars))
  {
    PrintTokens(t);
    SequentialOnTokens(Tokens(t), vars);
  }

  /** Only the content of the dictionary matters, not its order. */
  lemma OrderIrrelevant(t: string, vars: seq<(string, string)>, vars': seq<(string, string)>)
    requires FlatTemplate(t) && BraceFreeVars(vars) && BraceFreeVars(vars')
    requires MapOf(vars) == MapOf(vars')
    ensures Sequential(t, vars) == Sequential(t, vars')
  {
    SequentialIsSimultaneous(t, vars);
    SequentialIsSimultaneous(t, vars');
  }

  lemma {:induction false} SequentialAppend(t: string, a: seq<(string, string)>, b: seq<(string, string)>)
    ensures Sequential(t, a + b) == Sequential(Sequential(t, a), b)
    decreases a
  {
    if a == [] {
      assert a + b == b;
    } else {
      assert (a + b)[0] == a[0] && (a + b)[1..] == a[1..] + b;
      SequentialAppend(Replace(t, Placeholder(a[0].0), a[0].1), a[1..], b);
    }
  }

  lemma {:induction false} MapOfAppend(a: seq<(string, string)>, b: seq<(string, string)>)
    ensures MapOf(a + b) == MapOf(b) + MapOf(a)
  {
    if a == [] {
      assert a + b == b;
    } else {
      assert (a + b)[0] == a[0] && (a + b)[1..] == a[1..] + b;
      MapOfAppend(a[1..], b);
    }
  }

  /** Rendering in two stages with disjoint dictionaries is rendering with their union, in either order. */
  lemma StagesMerge(t: string, a: seq<(string, string)>, b: seq<(string, string)>)
    requires FlatTemplate(t) && BraceFreeVars(a) && BraceFreeVars(b)
    requires MapOf(a).Keys !! MapOf(b).Keys
    ensures Sequential(Sequential(t, a), b) == Simultaneous(Tokens(t), MapOf(a) + MapOf(b))
    ensures Sequential(Sequential(t, a), b) == Sequential(Sequential(t, b), a)
  {
    SequentialAppend(t, a, b);
    SequentialAppend(t, b, a);
    MapOfAppend(a, b);
    MapOfAppend(b, a);
    assert MapOf(a) + MapOf(b) == MapOf(b) + MapOf(a);
    SequentialIsSimultaneous(t, a + b);
    SequentialIsSimultaneous(t, b + a);
  }

  /** A placeholder occurs in the printed text only as a token or between unmatched braces. */
  lemma {:induction false} OccursAsHole(ts: seq<Token>, k: string)
    requires WellFormed(ts) && BraceFree(k)
    requires Occurs(Print(ts), Placeholder(k))
    ensures Hole(k) in ts || Stray(ts, k)
  {
    if ts != [] {
      var rest := Print(ts[1..]);
      WellFormedTail(ts);
      if Occurs(rest, Placeholder(k)) {
        OccursAsHole(ts[1..], k);
      } else {
        match ts[0]
        case Hole(n) =>
          OtherHole(n, k, ts[1..]);
          BraceOut(n, rest);
          if n != k {
            OccursCons('{', n + "}" + rest, k);
            OccursBehind(n + "}", rest, Placeholder(k));
          }
        case Open =>
          StartsInner(ts[1..], k);
          StartsAfterBrace(rest, k);
          OccursCons('{', rest, k);
        case Close =>
          OccursCons('}', rest, k);
        case Ch(c) =>
          OccursCons(c, rest, k);
      }
    }
  }

  lemma {:induction false} OccursBehind(p: string, s: string, pat: string)
    requires pat != "" && pat[0] == '{'
    requires forall i :: 0 <= i < |p| ==> p[i] != '{'
    requires Occurs(p + s, pat)
    ensures Occurs(s, pat)
  {
    if p == "" {
      assert p + s == s;
    } else {
      assert (p + s)[0] == p[0] && (p + s)[1..] == p[1..] + s;
      OccursBehind(p[1..], s, pat);
    }
  }

  /** Substituting at once, on tokens. */
  function SubstAll(ts: seq<Token>, m: map<string, string>): seq<Token> {
    if ts == [] then []
    else (if ts[0].Hole? && ts[0].name in m then Chars(m[ts[0].name]) else [ts[0]]) + SubstAll(ts[1..], m)
  }

  lemma {:induction false} SubstAllFacts(ts: seq<Token>, m: map<string, string>)
    requires WellFormed(ts) && forall k :: k in m ==> BraceFree(m[k])
    ensures Print(SubstAll(ts, m)) == Simultaneous(ts, m)
    ensures WellFormed(SubstAll(ts, m))
    ensures NextIsClose(SubstAll(ts, m)) == NextIsClose(ts)
    ensures Flat(SubstAll(ts, m)) == Flat(ts)
    ensures forall k :: k in m ==> Hole(k) !in SubstAll(ts, m)
  {
    if ts != [] {
      WellFormedTail(ts);
      SubstAllFacts(ts[1..], m);
      var tail := SubstAll(ts[1..], m);
      if ts[0].Hole? && ts[0].name in m {
        var v := m[ts[0].name];
        CharsWellFormed(v);
        CharsKeepNext(v, tail);
        CharsKeepFlat(v, tail);
        PrintAppend(Chars(v), tail);
        PrintChars(v);
      } else {
        PrintKept(ts[0], tail);
        assert ([ts[0]] + tail)[1..] == tail;
      }
    }
  }

  lemma {:induction false} MapOfBraceFree(vars: seq<(string, string)>)
    requires BraceFreeVars(vars)
    ensures forall k :: k in MapOf(vars) ==> BraceFree(k) && BraceFree(MapOf(vars)[k])
  {
    if vars != [] {
      MapOfBraceFree(vars[1..]);
    }
  }

  /** No supplied placeholder remains in the rendered text. */
  lemma NoPlaceholderLeft(t: string, vars: seq<(string, string)>, k: string)
    requires FlatTemplate(t) && BraceFreeVars(vars) && k in MapOf(vars)
    ensures !Occurs(Sequential(t, vars), Placeholder(k))
  {
    PrintTokens(t);
    SequentialIsSimultaneous(t, vars);
    MapOfBraceFree(vars);
    SubstAllFacts(Tokens(t), MapOf(vars));
    var out := SubstAll(Tokens(t), MapOf(vars));
    FlatHasNoStray(out, k);
    if Occurs(Print(out), Placeholder(k)) {
      OccursAsHole(out, k);
    }
  }

  // ---------------------------------------------------------------------
  // Rendering a boot chain
  // ---------------------------------------------------------------------

  datatype FileRow = FileRow(chain: string, filename: string, template: Option<string>, contentTemplate: Option<string>,
                             placement: string, permissions: Option<string>, required: bool)
  datatype RenderedFile = RenderedFile(filename: string, placement: string, content: string,
                                       permissions: Option<string>, required: bool)

  /** A referenced template that exists wins over the file's own text. */
  function SourceText(f: FileRow, templates: map<string, string>): string {
    if f.template.Some? && f.template.value != "" && f.template.value in templates then templates[f.template.value]
    else if f.contentTemplate.Some? then f.contentTemplate.value
    else ""
  }

  function FilesOf(files: seq<FileRow>, chain: string): seq<FileRow> {
    Ordering.Filter(files, OfChain(chain))
  }

  function OfChain(chain: string): FileRow -> bool { (f: FileRow) => f.chain == chain }

  /** The rendered file keeps the row's columns. Its text starts from the template that the row names, if there
      is one of that name, else from the row's own text, else from nothing. */
  ghost predicate Renders(f: FileRow, templates: map<string, string>, vars: seq<(string, string)>, r: RenderedFile) {
    && r.filename == f.filename && r.placement == f.placement && r.permissions == f.permissions && r.required == f.required
    && (Truthy(f.template) && f.template.value in templates ==> r.content == Sequential(templates[f.template.value], vars))
    && (!Truthy(f.template) || f.template.value !in templates ==>
          && (f.contentTemplate.Some? ==> r.content == Sequential(f.contentTemplate.value, vars))
          && (f.contentTemplate.None? ==> r.content == Sequential("", vars)))
  }

  /** The replacement loop of one file. */
  method Substitute(template: string, vars: seq<(string, string)>) returns (content: string)
    ensures content == Sequential(template, vars)
  {
    content := template;
    var v := 0;
    while v < |vars|
      invariant 0 <= v <= |vars|
      invariant Sequential(content, vars[v..]) == Sequential(template, vars)
    {
      assert vars[v..][1..] == vars[v + 1..];
      content := Replace(content, Placeholder(vars[v].0), vars[v].1);
      v := v + 1;
    }
  }

  /** Every file of the chain, in row order, with its placeholders substituted; an unknown chain is an error. */
  method RenderBootChain(chain: string, chains: set<string>, rows: seq<FileRow>, templates: map<string, string>,
                         vars: seq<(string, string)>)
    returns (r: Option<seq<RenderedFile>>)
    ensures r.Some? <==> chain in chains
    ensures r.Some? ==>
      var files := FilesOf(rows, chain);
      && |r.value| == |files|
      && forall i :: 0 <= i < |files| ==>
           var t := SourceText(files[i], templates);
           && r.value[i] == RenderedFile(files[i].filename, files[i].placement, Sequential(t, vars),
                                         files[i].permissions, files[i].required)
           && (FlatTemplate(t) && BraceFreeVars(vars) ==> r.value[i].content == Simultaneous(Tokens(t), MapOf(vars)))
    ensures r.Some? ==> forall i :: 0 <= i < |r.value| ==> Renders(FilesOf(rows, chain)[i], templates, vars, r.value[i])
  {
    if chain !in chains {
      return None;
    }
    var files := FilesOf(rows, chain);
    var rendered := [];
    var i := 0;
    while i < |files|
      invariant 0 <= i == |rendered| <= |files|
      invariant forall j :: 0 <= j < i ==>
        rendered[j] == RenderedFile(files[j].filename, files[j].placement, Sequential(SourceText(files[j], templates), vars),
                                    files[j].permissions, files[j].required)
    {
      var f := files[i];
      var content := if f.contentTemplate.Some? then f.contentTemplate.value else "";
      if f.template.Some? && f.template.value != "" {
        if f.template.value in templates {
          content := templates[f.template.value];
        }
      }
      content := Substitute(content, vars);
      rendered := rendered + [RenderedFile(f.filename, f.placement, content, f.permissions, f.required)];
      i := i + 1;
    }
    forall j | 0 <= j < |files| && FlatTemplate(SourceText(files[j], templates)) && BraceFreeVars(vars)
      ensures rendered[j].content == Simultaneous(Tokens(SourceText(files[j], templates)), MapOf(vars))
    {
      SequentialIsSimultaneous(SourceText(files[j], templates), vars);
    }
    return Some(rendered);
  }

  /** The files of a chain are its rows, in row order. */
  lemma FilesOfAppend(a: seq<FileRow>, b: seq<FileRow>, chain: string)
    ensures FilesOf(a + b, chain) == FilesOf(a, chain) + FilesOf(b, chain)
  {
    Ordering.FilterAppend(a, b, OfChain(chain));
  }

  lemma OneFile(f: FileRow, chain: string)
    ensures FilesOf([f], chain) == if f.chain == chain then [f] else []
  {
    Ordering.FilterSnoc([], f, OfChain(chain));
    assert [] + [f] == [f];
  }

  /** Text replacement: the first occurrence goes, and so on behind it. */
  lemma {:induction false} ReplaceFirst(p: string, s: string, pat: string, v: string)
    requires pat != "" && forall i :: 0 <= i < |p| ==> !StartsWith((p + pat + s)[i..], pat)
    ensures Replace(p + pat + s, pat, v) == p + v + Replace(s, pat, v)
  {
    var t := p + pat + s;
    if p == "" {
      assert t == pat + s && t[..|pat|] == pat && t[|pat|..] == s;
    } else {
      assert t[0..] == t && t[1..] == p[1..] + pat + s;
      forall i | 0 <= i < |p| - 1 ensures !StartsWith((p[1..] + pat + s)[i..], pat) {
        assert (p[1..] + pat + s)[i..] == t[i + 1..];
      }
      ReplaceFirst(p[1..], s, pat, v);
      assert p == [p[0]] + p[1..];
    }
  }

  /** Text without an occurrence stays. */
  lemma {:induction false} ReplaceNothing(s: string, pat: string, v: string)
    requires pat != "" && !Occurs(s, pat)
    ensures Replace(s, pat, v) == s
  {
    if s != "" {
      ReplaceNothing(s[1..], pat, v);
      assert s == [s[0]] + s[1..];
    }
  }
}
