/** Laws of mimeapps.list: conservation, parse-back, and exact independence from row order. */
module MimeAppsLaws {
  import opened Wrappers
  import opened Ordering
  import opened MimeApps

  // ---------------------------------------------------------------------
  // Conservation
  // ---------------------------------------------------------------------

  function IsKind(kind: string): Assoc -> bool {
    (r: Assoc) => r.kind == kind
  }

  function Matches(kind: string, m: string): Assoc -> bool {
    (r: Assoc) => r.kind == kind && r.mime == m
  }

  function Files(rows: seq<Assoc>): seq<string> {
    seq(|rows|, i requires 0 <= i < |rows| => rows[i].desktop)
  }

  lemma OrderIsTotal()
    ensures TotalPreorder(ByMimePriority) && TotalPreorder(ByKey)
  {
    forall x: Assoc, y: Assoc ensures ByMimePriority(x, y) || ByMimePriority(y, x) {
      StrLeqTotal(x.mime, y.mime);
    }
    forall x: Assoc, y: Assoc, z: Assoc | ByMimePriority(x, y) && ByMimePriority(y, z) ensures ByMimePriority(x, z) {
      StrLeqReflexive(x.mime);
      StrLeqReflexive(y.mime);
      StrLeqTransitive(x.mime, y.mime, z.mime);
      if x.mime == z.mime && x.mime != y.mime {
        StrLeqAntisymmetric(x.mime, y.mime);
      }
    }
    forall x: (string, seq<string>), y: (string, seq<string>) ensures ByKey(x, y) || ByKey(y, x) {
      StrLeqTotal(x.0, y.0);
    }
    forall x: (string, seq<string>), y: (string, seq<string>), z: (string, seq<string>) | ByKey(x, y) && ByKey(y, z)
      ensures ByKey(x, z)
    {
      StrLeqTransitive(x.0, y.0, z.0);
    }
  }

  lemma {:induction false} AddToLookup(g: Groups, m: string, f: string, n: string)
    ensures Lookup(AddTo(g, m, f), n) == if n == m then Lookup(g, m) + [f] else Lookup(g, n)
  {
    if g == [] {
      assert [(m, [f])][1..] == [];
      assert [] + [f] == [f];
    } else if g[0].0 != m {
      AddToLookup(g[1..], m, f, n);
      assert ([g[0]] + AddTo(g[1..], m, f))[1..] == AddTo(g[1..], m, f);
    } else {
      assert ([(m, g[0].1 + [f])] + g[1..])[1..] == g[1..];
    }
  }

  lemma {:induction false} CollectLookup(rows: seq<Assoc>, kind: string, m: string)
    ensures Lookup(Collect(rows, kind), m) == Files(Filter(rows, Matches(kind, m)))
    decreases rows
  {
    if rows != [] {
      var r := rows[|rows| - 1];
      var init := rows[..|rows| - 1];
      CollectLookup(init, kind, m);
      FilterNext(rows, |rows| - 1, Matches(kind, m));
      assert rows[..|rows|] == rows;
      if r.kind == kind {
        AddToLookup(Collect(init, kind), r.mime, r.desktop, m);
        var kept := Filter(init, Matches(kind, m));
        assert Files(kept + [r]) == Files(kept) + [r.desktop];
      }
    }
  }

  /** Keys are pairwise different and no list is empty. */
  ghost predicate ProperGroups(g: Groups) {
    && (forall i, j :: 0 <= i < j < |g| ==> g[i].0 != g[j].0)
    && (forall i :: 0 <= i < |g| ==> g[i].1 != [])
  }

  /** Adding a file keeps all keys in place and appends the key only if it is new. */
  lemma {:induction false} AddToKeys(g: Groups, m: string, f: string)
    ensures var h := AddTo(g, m, f);
      && |g| <= |h| <= |g| + 1
      && (forall j :: 0 <= j < |g| ==> h[j].0 == g[j].0 && (g[j].1 != [] ==> h[j].1 != []))
      && (|h| > |g| ==> h[|g|] == (m, [f]) && forall j :: 0 <= j < |g| ==> g[j].0 != m)
  {
    if g != [] && g[0].0 != m {
      AddToKeys(g[1..], m, f);
    }
  }

  lemma AddToProper(g: Groups, m: string, f: string)
    requires ProperGroups(g)
    ensures ProperGroups(AddTo(g, m, f))
  {
    AddToKeys(g, m, f);
  }

  lemma {:induction false} CollectProper(rows: seq<Assoc>, kind: string)
    ensures ProperGroups(Collect(rows, kind))
    decreases rows
  {
    if rows != [] {
      var r := rows[|rows| - 1];
      CollectProper(rows[..|rows| - 1], kind);
      if r.kind == kind {
        AddToProper(Collect(rows[..|rows| - 1], kind), r.mime, r.desktop);
      }
    }
  }

  lemma {:induction false} LookupIs(g: Groups, e: (string, seq<string>))
    requires ProperGroups(g) && e in g
    ensures Lookup(g, e.0) == e.1
  {
    if g[0] != e {
      assert e in g[1..];
      LookupIs(g[1..], e);
      var j :| 0 <= j < |g[1..]| && g[1..][j] == e;
      assert g[j + 1] == e;
    }
  }

  lemma {:induction false} LookupMissing(g: Groups, m: string)
    requires forall e :: e in g ==> e.0 != m
    ensures Lookup(g, m) == []
  {
    if g != [] {
      assert g[0] in g;
      LookupMissing(g[1..], m);
    }
  }

  /** Keys of a proper dictionary tie with nothing. */
  lemma ProperTieFree(g: Groups)
    requires ProperGroups(g)
    ensures TieFree(g, ByKey)
  {
    forall i, j | 0 <= i < j < |g| ensures !(ByKey(g[i], g[j]) && ByKey(g[j], g[i])) {
      if ByKey(g[i], g[j]) && ByKey(g[j], g[i]) {
        StrLeqAntisymmetric(g[i].0, g[j].0);
      }
    }
  }

  lemma SortKeepsGroups(g: Groups)
    requires ProperGroups(g)
    ensures var s := SortBy(g, ByKey);
      && ProperGroups(s) && Sorted(s, ByKey)
      && (forall m :: Lookup(s, m) == Lookup(g, m))
  {
    var s := SortBy(g, ByKey);
    OrderIsTotal();
    SortPermutes(g, ByKey);
    SortSorts(g, ByKey);
    ProperTieFree(g);
    TieFreePermutation(g, s, ByKey);
    forall e ensures e in s <==> e in g {
      MemberOfPermutation(s, g, e);
    }
    forall i, j | 0 <= i < j < |s| ensures s[i].0 != s[j].0 {
      StrLeqReflexive(s[i].0);
    }
    forall i | 0 <= i < |s| ensures s[i].1 != [] {
      assert s[i] in g;
    }
    forall m ensures Lookup(s, m) == Lookup(g, m) {
      if e :| e in g && e.0 == m {
        LookupIs(g, e);
        LookupIs(s, e);
      } else {
        LookupMissing(g, m);
        LookupMissing(s, m);
      }
    }
  }

  /** The list printed for a MIME type in a section holds the desktop files of exactly the rows of that
      type and section, each once, in priority order. */
  lemma SectionConserves(rows: seq<Assoc>, kind: string, m: string)
    ensures Lookup(SectionOf(rows, kind), m) == Files(SortBy(Filter(rows, Matches(kind, m)), ByMimePriority))
    ensures ProperGroups(SectionOf(rows, kind)) && Sorted(SectionOf(rows, kind), ByKey)
  {
    OrderIsTotal();
    var sorted := SortBy(rows, ByMimePriority);
    CollectProper(sorted, kind);
    SortKeepsGroups(Collect(sorted, kind));
    CollectLookup(sorted, kind, m);
    SortFilter(rows, ByMimePriority, Matches(kind, m));
  }

  /** The list of a MIME type holds the files of its rows in some order of rising priority number. */
  lemma SectionInPriorityOrder(rows: seq<Assoc>, kind: string, m: string) returns (rs: seq<Assoc>)
    ensures Lookup(SectionOf(rows, kind), m) == Files(rs)
    ensures forall r :: r in rs <==> r in rows && r.kind == kind && r.mime == m
    ensures forall i, j :: 0 <= i < j < |rs| ==> rs[i].priority <= rs[j].priority
  {
    var matching := Filter(rows, Matches(kind, m));
    rs := SortBy(matching, ByMimePriority);
    OrderIsTotal();
    SectionConserves(rows, kind, m);
    FilterMembers(rows, Matches(kind, m));
    SortPermutes(matching, ByMimePriority);
    SortSorts(matching, ByMimePriority);
    forall r ensures r in rs <==> r in matching {
      MemberOfPermutation(rs, matching, r);
    }
    forall i, j | 0 <= i < j < |rs| ensures rs[i].priority <= rs[j].priority {
      assert rs[i] in rs && rs[j] in rs;
    }
  }

  // ---------------------------------------------------------------------
  // Parsing the text back
  // ---------------------------------------------------------------------

  datatype Section = Outside | InDefault | InAdded | InRemoved

  datatype Parsed = Parsed(defaults: Groups, added: Groups, removed: Groups)

  function IndexOf(s: string, c: char): (i: nat)
    ensures i <= |s|
    ensures forall j :: 0 <= j < i ==> s[j] != c
    ensures i < |s| ==> s[i] == c
  {
    if s == "" then 0 else if s[0] == c then 0 else 1 + IndexOf(s[1..], c)
  }

  /** The pieces of `s` that end in `c`; an unterminated rest is dropped. */
  function Terminated(s: string, c: char): seq<string>
    decreases |s|
  {
    var i := IndexOf(s, c);
    if i == |s| then [] else [s[..i]] + Terminated(s[i + 1..], c)
  }

  function SectionTitle(line: string): Section {
    if line == DEFAULT_TITLE then InDefault
    else if line == ADDED_TITLE then InAdded
    else if line == REMOVED_TITLE then InRemoved
    else Outside
  }

  function ParseEntry(line: string): (string, seq<string>) {
    var i := IndexOf(line, '=');
    (line[..i], if i < |line| then Terminated(line[i + 1..], ';') else [])
  }

  function Prepend(sec: Section, e: Groups, p: Parsed): Parsed {
    match sec
    case Outside => p
    case InDefault => p.(defaults := e + p.defaults)
    case InAdded => p.(added := e + p.added)
    case InRemoved => p.(removed := e + p.removed)
  }

  /** Blank lines and comments are skipped, a bracketed line opens a section, any other line is an entry. */
  function ParseLines(lines: seq<string>, sec: Section): Parsed {
    if lines == [] then Parsed([], [], [])
    else
      var line := lines[0];
      if line == "" || line[0] == '#' then ParseLines(lines[1..], sec)
      else if line[0] == '[' then ParseLines(lines[1..], SectionTitle(line))
      else Prepend(sec, [ParseEntry(line)], ParseLines(lines[1..], sec))
  }

  function Parse(text: string): Parsed {
    ParseLines(Terminated(text, '\n'), Outside)
  }

  predicate Without(s: string, c: char) {
    forall i :: 0 <= i < |s| ==> s[i] != c
  }

  /** Names that the file format can carry. */
  predicate CleanMime(m: string) {
    m != "" && Without(m, '=') && Without(m, '\n') && m[0] != '#' && m[0] != '['
  }

  predicate CleanFile(f: string) {
    Without(f, ';') && Without(f, '\n')
  }

  predicate CleanGroups(g: Groups) {
    forall i :: 0 <= i < |g| ==>
      CleanMime(g[i].0) && g[i].1 != [] && forall j :: 0 <= j < |g[i].1| ==> CleanFile(g[i].1[j])
  }

  lemma TerminatedStep(a: string, c: char, rest: string)
    requires Without(a, c)
    ensures Terminated(a + [c] + rest, c) == [a] + Terminated(rest, c)
  {
    var s := a + [c] + rest;
    assert s[|a|] == c;
    assert forall j :: 0 <= j < |a| ==> s[j] == a[j];
    assert IndexOf(s, c) == |a|;
    assert s[..|a|] == a && s[|a| + 1..] == rest;
  }

  lemma {:induction false} LinesOfUnlines(ls: seq<string>)
    requires forall i :: 0 <= i < |ls| ==> Without(ls[i], '\n')
    ensures Terminated(Unlines(ls), '\n') == ls
  {
    if ls != [] {
      LinesOfUnlines(ls[1..]);
      TerminatedStep(ls[0], '\n', Unlines(ls[1..]));
    }
  }

  lemma {:induction false} FilesOfJoin(fs: seq<string>)
    requires fs != [] && forall j :: 0 <= j < |fs| ==> CleanFile(fs[j])
    ensures Terminated(Join(fs) + ";", ';') == fs
  {
    if |fs| == 1 {
      TerminatedStep(fs[0], ';', "");
      assert fs[0] + ";" + "" == fs[0] + ";";
    } else {
      FilesOfJoin(fs[1..]);
      TerminatedStep(fs[0], ';', Join(fs[1..]) + ";");
      JoinSplit(fs);
    }
  }

  lemma JoinSplit(fs: seq<string>)
    requires |fs| > 1
    ensures Join(fs) + ";" == fs[0] + [';'] + (Join(fs[1..]) + ";")
  {
  }

  lemma {:induction false} JoinHasNoNewline(fs: seq<string>)
    requires forall j :: 0 <= j < |fs| ==> CleanFile(fs[j])
    ensures Without(Join(fs), '\n')
  {
    if |fs| > 1 {
      JoinHasNoNewline(fs[1..]);
    }
  }

  lemma EntryLineSplits(e: (string, seq<string>))
    ensures EntryLine(e) == e.0 + ['='] + (Join(e.1) + ";")
  {
  }

  /** The first '=' of an entry ends its MIME type. */
  lemma FirstEquals(m: string, tail: string)
    requires Without(m, '=')
    ensures var line := m + ['='] + tail;
      IndexOf(line, '=') == |m| && line[..|m|] == m && line[|m| + 1..] == tail
  {
    var line := m + ['='] + tail;
    assert line[|m|] == '=';
    assert forall j :: 0 <= j < |m| ==> line[j] == m[j];
  }

  lemma EntryWithoutNewline(m: string, files: string)
    requires Without(m, '\n') && Without(files, '\n')
    ensures Without(m + ['='] + (files + ";"), '\n')
  {
  }

  lemma ParseEntryLine(e: (string, seq<string>))
    requires CleanMime(e.0) && e.1 != [] && forall j :: 0 <= j < |e.1| ==> CleanFile(e.1[j])
    ensures var line := EntryLine(e);
      line != "" && line[0] != '#' && line[0] != '[' && Without(line, '\n') && ParseEntry(line) == e
  {
    FilesOfJoin(e.1);
    JoinHasNoNewline(e.1);
    EntryLineSplits(e);
    FirstEquals(e.0, Join(e.1) + ";");
    EntryWithoutNewline(e.0, Join(e.1));
  }

  lemma ParseOneEntry(e: (string, seq<string>), rest: seq<string>, sec: Section)
    requires CleanMime(e.0) && e.1 != [] && forall j :: 0 <= j < |e.1| ==> CleanFile(e.1[j])
    ensures ParseLines([EntryLine(e)] + rest, sec) == Prepend(sec, [e], ParseLines(rest, sec))
  {
    ParseEntryLine(e);
    assert ([EntryLine(e)] + rest)[1..] == rest;
  }

  lemma {:induction false} ParseEntries(g: Groups, rest: seq<string>, sec: Section)
    requires CleanGroups(g)
    ensures ParseLines(EntryLines(g) + rest, sec) == Prepend(sec, g, ParseLines(rest, sec))
  {
    if g == [] {
      assert EntryLines(g) + rest == rest;
      PrependNothing(sec, ParseLines(rest, sec));
    } else {
      ParseEntries(g[1..], rest, sec);
      ParseOneEntry(g[0], EntryLines(g[1..]) + rest, sec);
      assert EntryLines(g) + rest == [EntryLine(g[0])] + (EntryLines(g[1..]) + rest);
      PrependOne(sec, g, ParseLines(rest, sec));
    }
  }

  lemma {:induction false} EntryLinesAreLines(g: Groups)
    requires CleanGroups(g)
    ensures forall i :: 0 <= i < |EntryLines(g)| ==> Without(EntryLines(g)[i], '\n')
  {
    if g != [] {
      EntryLinesAreLines(g[1..]);
      ParseEntryLine(g[0]);
    }
  }

  lemma PrependOne(sec: Section, g: Groups, p: Parsed)
    requires g != []
    ensures Prepend(sec, [g[0]], Prepend(sec, g[1..], p)) == Prepend(sec, g, p)
  {
    assert [g[0]] + (g[1..] + p.defaults) == g + p.defaults;
    assert [g[0]] + (g[1..] + p.added) == g + p.added;
    assert [g[0]] + (g[1..] + p.removed) == g + p.removed;
  }

  lemma TitlesAreSections()
    ensures SectionTitle(DEFAULT_TITLE) == InDefault && SectionTitle(ADDED_TITLE) == InAdded
    ensures SectionTitle(REMOVED_TITLE) == InRemoved
    ensures DEFAULT_TITLE[0] == '[' && ADDED_TITLE[0] == '[' && REMOVED_TITLE[0] == '['
    ensures HEADER != "" && HEADER[0] == '#' && Without(HEADER, '\n')
  {
    assert DEFAULT_TITLE[1] == 'D' && ADDED_TITLE[1] == 'A' && REMOVED_TITLE[1] == 'R';
  }

  lemma ParseTitle(title: string, rest: seq<string>, before: Section)
    requires title != "" && title[0] == '['
    ensures ParseLines([title] + rest, before) == ParseLines(rest, SectionTitle(title))
  {
    assert ([title] + rest)[1..] == rest;
  }

  lemma ParseBlank(rest: seq<string>, sec: Section)
    ensures ParseLines([""] + rest, sec) == ParseLines(rest, sec)
  {
    assert ([""] + rest)[1..] == rest;
  }

  /** The section before a title line does not matter. */
  lemma SectionResets(rest: seq<string>, a: Section, b: Section)
    requires rest == [] || (rest[0] != "" && rest[0][0] == '[')
    ensures ParseLines(rest, a) == ParseLines(rest, b)
  {
  }

  lemma PrependNothing(sec: Section, p: Parsed)
    ensures Prepend(sec, [], p) == p
  {
    assert [] + p.defaults == p.defaults && [] + p.added == p.added && [] + p.removed == p.removed;
  }

  /** A printed section parses to its groups, whatever comes before and after it. */
  lemma ParseSection(title: string, g: Groups, blank: bool, rest: seq<string>, before: Section)
    requires CleanGroups(g) && title != "" && title[0] == '['
    requires rest == [] || (rest[0] != "" && rest[0][0] == '[')
    ensures ParseLines(SectionLines(title, g, blank) + rest, before)
         == Prepend(SectionTitle(title), g, ParseLines(rest, before))
  {
    var sec := SectionTitle(title);
    if g == [] {
      assert SectionLines(title, g, blank) + rest == rest;
      PrependNothing(sec, ParseLines(rest, before));
    } else {
      var tail := if blank then [""] + rest else rest;
      assert SectionLines(title, g, blank) + rest == [title] + (EntryLines(g) + tail);
      ParseTitle(title, EntryLines(g) + tail, before);
      ParseEntries(g, tail, sec);
      ParseBlank(rest, sec);
      SectionResets(rest, before, sec);
    }
  }

  lemma SectionHasNoNewline(title: string, g: Groups, blank: bool)
    requires Without(title, '\n') && CleanGroups(g)
    ensures forall i :: 0 <= i < |SectionLines(title, g, blank)| ==> Without(SectionLines(title, g, blank)[i], '\n')
  {
    EntryLinesAreLines(g);
  }

  lemma FirstOfSection(title: string, g: Groups, blank: bool, rest: seq<string>)
    requires title != "" && title[0] == '['
    requires rest == [] || (rest[0] != "" && rest[0][0] == '[')
    ensures var lines := SectionLines(title, g, blank) + rest;
      lines == [] || (lines[0] != "" && lines[0][0] == '[')
  {
    if g == [] {
      assert SectionLines(title, g, blank) + rest == rest;
    }
  }

  lemma ParseRemoved(r: Groups)
    requires CleanGroups(r)
    ensures var lines := SectionLines(REMOVED_TITLE, r, false);
      && ParseLines(lines, Outside) == Parsed([], [], r)
      && (lines == [] || (lines[0] != "" && lines[0][0] == '['))
  {
    TitlesAreSections();
    FirstOfSection(REMOVED_TITLE, r, false, []);
    ParseSection(REMOVED_TITLE, r, false, [], Outside);
    assert SectionLines(REMOVED_TITLE, r, false) + [] == SectionLines(REMOVED_TITLE, r, false);
    assert r + [] == r;
  }

  lemma ParseAdded(a: Groups, r: Groups)
    requires CleanGroups(a) && CleanGroups(r)
    ensures var lines := SectionLines(ADDED_TITLE, a, true) + SectionLines(REMOVED_TITLE, r, false);
      && ParseLines(lines, Outside) == Parsed([], a, r)
      && (lines == [] || (lines[0] != "" && lines[0][0] == '['))
  {
    TitlesAreSections();
    ParseRemoved(r);
    FirstOfSection(ADDED_TITLE, a, true, SectionLines(REMOVED_TITLE, r, false));
    ParseSection(ADDED_TITLE, a, true, SectionLines(REMOVED_TITLE, r, false), Outside);
    assert a + [] == a;
  }

  lemma ParseDefault(d: Groups, a: Groups, r: Groups)
    requires CleanGroups(d) && CleanGroups(a) && CleanGroups(r)
    ensures var rest := SectionLines(ADDED_TITLE, a, true) + SectionLines(REMOVED_TITLE, r, false);
      ParseLines(SectionLines(DEFAULT_TITLE, d, true) + rest, Outside) == Parsed(d, a, r)
  {
    var rest := SectionLines(ADDED_TITLE, a, true) + SectionLines(REMOVED_TITLE, r, false);
    TitlesAreSections();
    ParseAdded(a, r);
    ParseSection(DEFAULT_TITLE, d, true, rest, Outside);
    assert d + [] == d;
  }

  lemma TextShape(x: seq<string>, a: seq<string>, b: seq<string>, c: seq<string>)
    ensures x + a + b + c == x + (a + (b + c))
  {
  }

  /** Parsing the lines of the printed sections gives back the three dictionaries. */
  lemma ParsePrintedLines(d: Groups, a: Groups, r: Groups)
    requires CleanGroups(d) && CleanGroups(a) && CleanGroups(r)
    ensures ParseLines(TextLines(d, a, r), Outside) == Parsed(d, a, r)
  {
    var dl, al, rl := SectionLines(DEFAULT_TITLE, d, true), SectionLines(ADDED_TITLE, a, true),
                      SectionLines(REMOVED_TITLE, r, false);
    TitlesAreSections();
    TextShape([HEADER], dl, al, rl);
    ParseComment(HEADER, dl + (al + rl), Outside);
    ParseDefault(d, a, r);
  }

  lemma ParseComment(line: string, rest: seq<string>, sec: Section)
    requires line != "" && line[0] == '#'
    ensures ParseLines([line] + rest, sec) == ParseLines(rest, sec)
  {
    assert ([line] + rest)[1..] == rest;
  }

  lemma ParsePrinted(d: Groups, a: Groups, r: Groups)
    requires CleanGroups(d) && CleanGroups(a) && CleanGroups(r)
    ensures Parse(Unlines(TextLines(d, a, r))) == Parsed(d, a, r)
  {
    SectionHasNoNewline(DEFAULT_TITLE, d, true);
    SectionHasNoNewline(ADDED_TITLE, a, true);
    SectionHasNoNewline(REMOVED_TITLE, r, false);
    TitlesAreSections();
    LinesOfUnlines(TextLines(d, a, r));
    ParsePrintedLines(d, a, r);
  }

  predicate CleanRows(rows: seq<Assoc>) {
    forall i :: 0 <= i < |rows| ==> CleanMime(rows[i].mime) && CleanFile(rows[i].desktop)
  }

  lemma {:induction false} AddToClean(g: Groups, m: string, f: string)
    requires CleanGroups(g) && CleanMime(m) && CleanFile(f)
    ensures CleanGroups(AddTo(g, m, f))
  {
    if g != [] && g[0].0 != m {
      AddToClean(g[1..], m, f);
    }
  }

  lemma {:induction false} CollectClean(rows: seq<Assoc>, kind: string)
    requires CleanRows(rows)
    ensures CleanGroups(Collect(rows, kind))
    decreases rows
  {
    if rows != [] {
      var r := rows[|rows| - 1];
      CollectClean(rows[..|rows| - 1], kind);
      if r.kind == kind {
        AddToClean(Collect(rows[..|rows| - 1], kind), r.mime, r.desktop);
      }
    }
  }

  lemma SectionClean(rows: seq<Assoc>, kind: string)
    requires CleanRows(rows)
    ensures CleanGroups(SectionOf(rows, kind))
  {
    var sorted := SortBy(rows, ByMimePriority);
    SortPermutes(rows, ByMimePriority);
    forall i | 0 <= i < |sorted| ensures CleanMime(sorted[i].mime) && CleanFile(sorted[i].desktop) {
      MemberOfPermutation(sorted, rows, sorted[i]);
    }
    CollectClean(sorted, kind);
    var g := Collect(sorted, kind);
    SortPermutes(g, ByKey);
    var s := SortBy(g, ByKey);
    forall i | 0 <= i < |s|
      ensures CleanMime(s[i].0) && s[i].1 != [] && forall j :: 0 <= j < |s[i].1| ==> CleanFile(s[i].1[j])
    {
      MemberOfPermutation(s, g, s[i]);
    }
  }

  /** Parsing the generated file recovers the three sections. */
  lemma ParseBack(rows: seq<Assoc>)
    requires CleanRows(rows)
    ensures Parse(Render(rows))
         == Parsed(SectionOf(rows, DEFAULT_KIND), SectionOf(rows, ADDED_KIND), SectionOf(rows, REMOVED_KIND))
  {
    SectionClean(rows, DEFAULT_KIND);
    SectionClean(rows, ADDED_KIND);
    SectionClean(rows, REMOVED_KIND);
    ParsePrinted(SectionOf(rows, DEFAULT_KIND), SectionOf(rows, ADDED_KIND), SectionOf(rows, REMOVED_KIND));
  }

  // ---------------------------------------------------------------------
  // Independence from row order
  // ---------------------------------------------------------------------

  lemma {:induction false} CollectOfKind(rows: seq<Assoc>, kind: string)
    ensures Collect(rows, kind) == Collect(Filter(rows, IsKind(kind)), kind)
    decreases rows
  {
    if rows != [] {
      var r := rows[|rows| - 1];
      var init := rows[..|rows| - 1];
      CollectOfKind(init, kind);
      FilterNext(rows, |rows| - 1, IsKind(kind));
      assert rows[..|rows|] == rows;
      if r.kind == kind {
        var kept := Filter(init, IsKind(kind));
        assert (kept + [r])[..|kept|] == kept;
      }
    }
  }

  /** Rows of one section that share type and priority are the same row. */
  ghost predicate NoTies(rows: seq<Assoc>, kind: string) {
    forall x, y :: x in rows && y in rows && x.kind == kind && y.kind == kind && x.mime == y.mime && x.priority == y.priority
      ==> x == y
  }

  lemma SectionIgnoresOrder(rows: seq<Assoc>, rows': seq<Assoc>, kind: string)
    requires multiset(rows) == multiset(rows') && NoTies(rows, kind)
    ensures SectionOf(rows, kind) == SectionOf(rows', kind)
  {
    OrderIsTotal();
    var p := IsKind(kind);
    CollectOfKind(SortBy(rows, ByMimePriority), kind);
    CollectOfKind(SortBy(rows', ByMimePriority), kind);
    SortFilter(rows, ByMimePriority, p);
    SortFilter(rows', ByMimePriority, p);
    forall x ensures multiset(Filter(rows, p))[x] == multiset(Filter(rows', p))[x] {
      FilterPermutes(rows, p, x);
      FilterPermutes(rows', p, x);
    }
    FilterMembers(rows, p);
    forall x, y | x in Filter(rows, p) && y in Filter(rows, p) && ByMimePriority(x, y) && ByMimePriority(y, x)
      ensures x == y
    {
      if x.mime != y.mime {
        StrLeqAntisymmetric(x.mime, y.mime);
      }
    }
    SortIgnoresArrivalOrder(Filter(rows, p), Filter(rows', p), ByMimePriority);
  }

  ghost predicate NoTiesPrinted(rows: seq<Assoc>) {
    NoTies(rows, DEFAULT_KIND) && NoTies(rows, ADDED_KIND) && NoTies(rows, REMOVED_KIND)
  }

  /** Without ties the file does not depend on the order in which the database returns the rows. */
  lemma OrderIndependent(rows: seq<Assoc>, rows': seq<Assoc>)
    requires multiset(rows) == multiset(rows') && NoTiesPrinted(rows)
    ensures Render(rows) == Render(rows')
  {
    SectionIgnoresOrder(rows, rows', DEFAULT_KIND);
    SectionIgnoresOrder(rows, rows', ADDED_KIND);
    SectionIgnoresOrder(rows, rows', REMOVED_KIND);
  }

  /** Two tied elements come out of a stable sort in the order they went in. */
  lemma {:induction false} TiedPairStaysOrdered<T(!new)>(a: T, b: T, s: seq<T>, leq: (T, T) -> bool) returns (n: nat)
    requires TotalPreorder(leq) && leq(a, b) && leq(b, a)
    ensures var s1, s2 := Insert(a, Insert(b, s, leq), leq), Insert(b, Insert(a, s, leq), leq);
      n < |s1| && n < |s2| && s1[n] == a && s2[n] == b
  {
    if s == [] || leq(b, s[0]) {
      n := 0;
      assert s != [] ==> leq(a, s[0]);
    } else {
      var m := TiedPairStaysOrdered(a, b, s[1..], leq);
      n := m + 1;
      assert !leq(a, s[0]);
    }
  }

  lemma SortPair<T>(a: T, b: T, s: seq<T>, leq: (T, T) -> bool)
    ensures SortBy([a, b] + s, leq) == Insert(a, Insert(b, SortBy(s, leq), leq), leq)
  {
    assert ([a, b] + s)[1..] == [b] + s && ([b] + s)[1..] == s;
  }

  /** Swapping two tied rows of one section changes that section. */
  lemma TiesChangeSection(a: Assoc, b: Assoc, rest: seq<Assoc>)
    requires a.kind == b.kind && a.mime == b.mime && a.priority == b.priority && a.desktop != b.desktop
    ensures SectionOf([a, b] + rest, a.kind) != SectionOf([b, a] + rest, a.kind)
  {
    OrderIsTotal();
    var p := Matches(a.kind, a.mime);
    SectionConserves([a, b] + rest, a.kind, a.mime);
    SectionConserves([b, a] + rest, a.kind, a.mime);
    FilterPair(a, b, rest, p);
    FilterPair(b, a, rest, p);
    var kept := Filter(rest, p);
    SortPair(a, b, kept, ByMimePriority);
    SortPair(b, a, kept, ByMimePriority);
    var n := TiedPairStaysOrdered(a, b, SortBy(kept, ByMimePriority), ByMimePriority);
    var s1, s2 := SortBy([a, b] + kept, ByMimePriority), SortBy([b, a] + kept, ByMimePriority);
    assert Files(s1)[n] == a.desktop && Files(s2)[n] == b.desktop;
  }

  lemma FilterPair(a: Assoc, b: Assoc, rest: seq<Assoc>, p: Assoc -> bool)
    requires p(a) && p(b)
    ensures Filter([a, b] + rest, p) == [a, b] + Filter(rest, p)
  {
    assert [a, b] + rest == [a] + ([b] + rest);
    FilterCons(b, rest, p);
    FilterCons(a, [b] + rest, p);
  }

  lemma OneRowFirst<T>(rows: seq<T>, x: T) returns (rest: seq<T>)
    requires x in rows
    ensures multiset(rows) == multiset{x} + multiset(rest)
    ensures forall y :: y in rows && y != x ==> y in rest
  {
    var i :| 0 <= i < |rows| && rows[i] == x;
    rest := rows[..i] + rows[i + 1..];
    assert rows == rows[..i] + [rows[i]] + rows[i + 1..];
  }

  lemma TwoRowsFirst(rows: seq<Assoc>, x: Assoc, y: Assoc) returns (rest: seq<Assoc>)
    requires x in rows && y in rows && x != y
    ensures multiset([x, y] + rest) == multiset(rows)
  {
    var r := OneRowFirst(rows, x);
    rest := OneRowFirst(r, y);
  }

  /** With a tie between different rows, two arrival orders of the same rows print differently. */
  lemma TiesChangeFile(rows: seq<Assoc>) returns (one: seq<Assoc>, two: seq<Assoc>)
    requires CleanRows(rows) && !NoTiesPrinted(rows)
    ensures multiset(one) == multiset(rows) && multiset(two) == multiset(rows)
    ensures Render(one) != Render(two)
  {
    var kind := if !NoTies(rows, DEFAULT_KIND) then DEFAULT_KIND
                else if !NoTies(rows, ADDED_KIND) then ADDED_KIND else REMOVED_KIND;
    var x, y :| x in rows && y in rows && x.kind == kind && y.kind == kind && x.mime == y.mime && x.priority == y.priority && x != y;
    var rest := TwoRowsFirst(rows, x, y);
    one, two := [x, y] + rest, [y, x] + rest;
    assert two == [y] + [x] + rest && one == [x] + [y] + rest;
    TiesChangeSection(x, y, rest);
    CleanPermutation(rows, one);
    CleanPermutation(rows, two);
    ParseBack(one);
    ParseBack(two);
  }

  lemma CleanPermutation(rows: seq<Assoc>, other: seq<Assoc>)
    requires CleanRows(rows) && multiset(other) == multiset(rows)
    ensures CleanRows(other)
  {
    forall i | 0 <= i < |other| ensures CleanMime(other[i].mime) && CleanFile(other[i].desktop) {
      MemberOfPermutation(other, rows, other[i]);
    }
  }

  /** The file is independent of row order exactly when no two different rows of a section share type and priority. */
  lemma OrderIndependentExactly(rows: seq<Assoc>)
    requires CleanRows(rows)
    ensures NoTiesPrinted(rows) <==>
      forall other :: multiset(other) == multiset(rows) ==> Render(other) == Render(rows)
  {
    if NoTiesPrinted(rows) {
      forall other | multiset(other) == multiset(rows) ensures Render(other) == Render(rows) {
        OrderIndependent(rows, other);
      }
    } else {
      var one, two := TiesChangeFile(rows);
    }
  }

  // ---------------------------------------------------------------------
  // The text for one association, and the directory of one user
  // ---------------------------------------------------------------------

  lemma OneGroup(m: string, f: string, kind: string, priority: int, k: string)
    ensures SectionOf([Assoc(m, f, kind, priority)], k) == if k == kind then [(m, [f])] else []
  {
    var rows := [Assoc(m, f, kind, priority)];
    assert rows[1..] == [] && rows[..0] == [];
    assert SortBy([], ByMimePriority) == [];
    assert SortBy(rows, ByMimePriority) == rows;
    assert Collect([], k) == [];
    assert Collect(rows, k) == if k == kind then AddTo([], m, f) else [];
    var g := [(m, [f])];
    assert g[1..] == [];
    assert SortBy(g, ByKey) == g;
  }

  lemma OneEntry(m: string, f: string, title: string, blank: bool)
    ensures Unlines(SectionLines(title, [(m, [f])], blank)) == title + "\n" + (m + "=" + f + ";\n") + (if blank then "\n" else "")
  {
    var g := [(m, [f])];
    assert g[1..] == [];
    assert EntryLines(g) == [m + "=" + f + ";"];
    assert [m + "=" + f + ";"][1..] == [];
    assert Unlines(EntryLines(g)) == m + "=" + f + ";" + "\n" + "";
    SectionText(title, g, blank);
  }

  /** The whole file for a single association of each kind. */
  lemma OneRowFile(m: string, f: string, priority: int)
    ensures Render([Assoc(m, f, "default", priority)])
         == "# Generated by OSFabricum M42 " + [EM_DASH] + " do not edit manually" + "\n"
            + ("[Default Applications]" + "\n" + (m + "=" + f + ";\n") + "\n")
    ensures Render([Assoc(m, f, "added", priority)])
         == "# Generated by OSFabricum M42 " + [EM_DASH] + " do not edit manually" + "\n"
            + ("[Added Associations]" + "\n" + (m + "=" + f + ";\n") + "\n")
    ensures Render([Assoc(m, f, "removed", priority)])
         == "# Generated by OSFabricum M42 " + [EM_DASH] + " do not edit manually" + "\n"
            + ("[Removed Associations]" + "\n" + (m + "=" + f + ";\n") + "")
  {
    KindsDiffer();
    OneKindFile(m, f, priority, DEFAULT_KIND);
    OneKindFile(m, f, priority, ADDED_KIND);
    OneKindFile(m, f, priority, REMOVED_KIND);
    OneEntry(m, f, DEFAULT_TITLE, true);
    OneEntry(m, f, ADDED_TITLE, true);
    OneEntry(m, f, REMOVED_TITLE, false);
  }

  lemma OneKindFile(m: string, f: string, priority: int, kind: string)
    requires kind == DEFAULT_KIND || kind == ADDED_KIND || kind == REMOVED_KIND
    ensures Render([Assoc(m, f, kind, priority)]) == HEADER + "\n" +
      (if kind == DEFAULT_KIND then Unlines(SectionLines(DEFAULT_TITLE, [(m, [f])], true))
       else if kind == ADDED_KIND then Unlines(SectionLines(ADDED_TITLE, [(m, [f])], true))
       else Unlines(SectionLines(REMOVED_TITLE, [(m, [f])], false)))
  {
    var rows := [Assoc(m, f, kind, priority)];
    KindsDiffer();
    OneGroup(m, f, kind, priority, DEFAULT_KIND);
    OneGroup(m, f, kind, priority, ADDED_KIND);
    OneGroup(m, f, kind, priority, REMOVED_KIND);
    ThreeSections(SectionLines(DEFAULT_TITLE, SectionOf(rows, DEFAULT_KIND), true),
                  SectionLines(ADDED_TITLE, SectionOf(rows, ADDED_KIND), true),
                  SectionLines(REMOVED_TITLE, SectionOf(rows, REMOVED_KIND), false));
  }

  /** A directory has the path of its last row. */
  lemma {:induction false} PathIsLast(dirs: seq<(string, string)>, i: nat, default: string)
    requires i < |dirs| && forall j :: i < j < |dirs| ==> dirs[j].0 != dirs[i].0
    ensures PathOf(dirs, dirs[i].0, default) == dirs[i].1
    decreases |dirs|
  {
    if i < |dirs| - 1 {
      var init := dirs[..|dirs| - 1];
      assert init[i] == dirs[i];
      PathIsLast(init, i, default);
    }
  }

  /** A directory without a row has its default. */
  lemma {:induction false} PathIsDefault(dirs: seq<(string, string)>, name: string, default: string)
    requires forall i :: 0 <= i < |dirs| ==> dirs[i].0 != name
    ensures PathOf(dirs, name, default) == default
    decreases |dirs|
  {
    if dirs != [] {
      PathIsDefault(dirs[..|dirs| - 1], name, default);
    }
  }
}
