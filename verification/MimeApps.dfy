/** Desktop-integration files: the mimeapps list (sort, group by type, print) and the user directories. */
module MimeApps {
  import opened Wrappers
  import opened Ordering

  datatype Assoc = Assoc(mime: string, desktop: string, kind: string, priority: int)

  /** Insertion-ordered dictionary from a MIME type to its desktop files. */
  type Groups = seq<(string, seq<string>)>

  const DEFAULT_KIND := "default"
  const ADDED_KIND := "added"
  const REMOVED_KIND := "removed"
  const EM_DASH := '\U{2014}'
  const HEADER := "# Generated by OSFabricum M42 " + [EM_DASH] + " do not edit manually"
  const DEFAULT_TITLE := "[Default Applications]"
  const ADDED_TITLE := "[Added Associations]"
  const REMOVED_TITLE := "[Removed Associations]"

  // ---------------------------------------------------------------------
  // Sorting and grouping
  // ---------------------------------------------------------------------

  predicate ByMimePriority(a: Assoc, b: Assoc) {
    if a.mime == b.mime then a.priority <= b.priority else StrLeq(a.mime, b.mime)
  }

  predicate ByKey(a: (string, seq<string>), b: (string, seq<string>)) {
    StrLeq(a.0, b.0)
  }

  /** `g.setdefault(m, []).append(f)` */
  function AddTo(g: Groups, m: string, f: string): Groups {
    if g == [] then [(m, [f])]
    else if g[0].0 == m then [(m, g[0].1 + [f])] + g[1..]
    else [g[0]] + AddTo(g[1..], m, f)
  }

  function Lookup(g: Groups, m: string): seq<string> {
    if g == [] then [] else if g[0].0 == m then g[0].1 else Lookup(g[1..], m)
  }

  /** The dictionary that the rows of one association type fill, row by row. */
  function Collect(rows: seq<Assoc>, kind: string): Groups {
    if rows == [] then []
    else
      var r := rows[|rows| - 1];
      var g := Collect(rows[..|rows| - 1], kind);
      if r.kind == kind then AddTo(g, r.mime, r.desktop) else g
  }

  /** One section: the rows of that type grouped after sorting, keys in order. */
  function SectionOf(rows: seq<Assoc>, kind: string): Groups {
    SortBy(Collect(SortBy(rows, ByMimePriority), kind), ByKey)
  }

  // ---------------------------------------------------------------------
  // Printing
  // ---------------------------------------------------------------------

  /** `";".join(fs)` */
  function Join(fs: seq<string>): string {
    if fs == [] then "" else if |fs| == 1 then fs[0] else fs[0] + ";" + Join(fs[1..])
  }

  function EntryLine(e: (string, seq<string>)): string {
    e.0 + "=" + Join(e.1) + ";"
  }

  function EntryLines(g: Groups): seq<string> {
    if g == [] then [] else [EntryLine(g[0])] + EntryLines(g[1..])
  }

  function SectionLines(title: string, g: Groups, blank: bool): seq<string> {
    if g == [] then [] else [title] + EntryLines(g) + (if blank then [""] else [])
  }

  function TextLines(d: Groups, a: Groups, r: Groups): seq<string> {
    [HEADER] + SectionLines(DEFAULT_TITLE, d, true) + SectionLines(ADDED_TITLE, a, true)
      + SectionLines(REMOVED_TITLE, r, false)
  }

  function Unlines(ls: seq<string>): string {
    if ls == [] then "" else ls[0] + "\n" + Unlines(ls[1..])
  }

  /** The text of mimeapps.list. */
  function Render(rows: seq<Assoc>): string {
    Unlines(TextLines(SectionOf(rows, DEFAULT_KIND), SectionOf(rows, ADDED_KIND), SectionOf(rows, REMOVED_KIND)))
  }

  lemma {:induction false} UnlinesAppend(a: seq<string>, b: seq<string>)
    ensures Unlines(a + b) == Unlines(a) + Unlines(b)
  {
    if a == [] {
      assert a + b == b;
    } else {
      assert (a + b)[0] == a[0] && (a + b)[1..] == a[1..] + b;
      UnlinesAppend(a[1..], b);
    }
  }

  lemma {:induction false} EntryLinesAppend(a: Groups, b: Groups)
    ensures EntryLines(a + b) == EntryLines(a) + EntryLines(b)
  {
    if a == [] {
      assert a + b == b;
    } else {
      assert (a + b)[0] == a[0] && (a + b)[1..] == a[1..] + b;
      EntryLinesAppend(a[1..], b);
    }
  }

  lemma UnlinesSnoc(ls: seq<string>, l: string)
    ensures Unlines(ls + [l]) == Unlines(ls) + l + "\n"
  {
    UnlinesAppend(ls, [l]);
    assert [l][1..] == [];
  }

  lemma EntryLinesNext(head: string, g: Groups, i: nat)
    requires i < |g|
    ensures head + Unlines(EntryLines(g[..i + 1])) == head + Unlines(EntryLines(g[..i])) + EntryLine(g[i]) + "\n"
  {
    assert g[..i + 1] == g[..i] + [g[i]];
    EntryLinesAppend(g[..i], [g[i]]);
    assert [g[i]][1..] == [];
    assert EntryLines([g[i]]) == [EntryLine(g[i])];
    UnlinesSnoc(EntryLines(g[..i]), EntryLine(g[i]));
    Reassociate(head, Unlines(EntryLines(g[..i])), EntryLine(g[i]), "\n");
  }

  lemma Reassociate(a: string, b: string, c: string, d: string)
    ensures a + (b + c + d) == a + b + c + d
  {
  }

  lemma SectionText(title: string, g: Groups, blank: bool)
    requires g != []
    ensures Unlines(SectionLines(title, g, blank))
         == (var body := title + "\n" + Unlines(EntryLines(g)); if blank then body + "\n" else body)
  {
    var lines := [title] + EntryLines(g);
    assert [title][1..] == [];
    UnlinesAppend([title], EntryLines(g));
    if blank {
      UnlinesSnoc(lines, "");
      assert Unlines(lines) + "" + "\n" == Unlines(lines) + "\n";
    } else {
      assert lines + [] == lines;
    }
  }

  /** One section of the text, absent when there is nothing to list. */
  method PrintSection(title: string, g: Groups, blank: bool) returns (text: string)
    ensures text == Unlines(SectionLines(title, SortBy(g, ByKey), blank))
  {
    SortPermutes(g, ByKey);
    text := "";
    if g == [] {
      return;
    }
    var sorted := SortBy(g, ByKey);
    text := PrintEntries(title + "\n", sorted);
    if blank {
      text := text + "\n";
    }
    SectionText(title, sorted, blank);
  }

  method PrintEntries(head: string, g: Groups) returns (text: string)
    ensures text == head + Unlines(EntryLines(g))
  {
    text := head;
    var i := 0;
    while i < |g|
      invariant 0 <= i <= |g|
      invariant text == head + Unlines(EntryLines(g[..i]))
    {
      EntryLinesNext(head, g, i);
      text := text + EntryLine(g[i]) + "\n";
      i := i + 1;
    }
    assert g[..|g|] == g;
  }

  /** Fills the three dictionaries in sorted row order, then prints the sections. */
  method BuildMimeapps(rows: seq<Assoc>) returns (text: string)
    ensures text == Render(rows)
  {
    var sorted := SortBy(rows, ByMimePriority);
    var default, added, removed := FillDictionaries(sorted);
    var d := PrintSection(DEFAULT_TITLE, default, true);
    var a := PrintSection(ADDED_TITLE, added, true);
    var r := PrintSection(REMOVED_TITLE, removed, false);
    text := HEADER + "\n" + d + a + r;
    ThreeSections(SectionLines(DEFAULT_TITLE, SortBy(default, ByKey), true),
                  SectionLines(ADDED_TITLE, SortBy(added, ByKey), true),
                  SectionLines(REMOVED_TITLE, SortBy(removed, ByKey), false));
  }

  method FillDictionaries(sorted: seq<Assoc>) returns (default: Groups, added: Groups, removed: Groups)
    ensures default == Collect(sorted, DEFAULT_KIND)
    ensures added == Collect(sorted, ADDED_KIND)
    ensures removed == Collect(sorted, REMOVED_KIND)
  {
    default, added, removed := [], [], [];
    KindsDiffer();
    var i := 0;
    while i < |sorted|
      invariant 0 <= i <= |sorted|
      invariant default == Collect(sorted[..i], DEFAULT_KIND)
      invariant added == Collect(sorted[..i], ADDED_KIND)
      invariant removed == Collect(sorted[..i], REMOVED_KIND)
    {
      var a := sorted[i];
      assert sorted[..i + 1][..i] == sorted[..i];
      if a.kind == DEFAULT_KIND {
        default := AddTo(default, a.mime, a.desktop);
      } else if a.kind == ADDED_KIND {
        added := AddTo(added, a.mime, a.desktop);
      } else if a.kind == REMOVED_KIND {
        removed := AddTo(removed, a.mime, a.desktop);
      }
      i := i + 1;
    }
    assert sorted[..|sorted|] == sorted;
  }

  lemma KindsDiffer()
    ensures DEFAULT_KIND != ADDED_KIND && DEFAULT_KIND != REMOVED_KIND && ADDED_KIND != REMOVED_KIND
  {
    assert DEFAULT_KIND[0] == 'd' && ADDED_KIND[0] == 'a' && REMOVED_KIND[0] == 'r';
  }

  lemma ThreeSections(d: seq<string>, a: seq<string>, r: seq<string>)
    ensures Unlines([HEADER] + d + a + r) == HEADER + "\n" + Unlines(d) + Unlines(a) + Unlines(r)
  {
    UnlinesSnoc([], HEADER);
    assert [] + [HEADER] == [HEADER];
    UnlinesAppend([HEADER], d);
    UnlinesAppend([HEADER] + d, a);
    UnlinesAppend([HEADER] + d + a, r);
  }

  // ---------------------------------------------------------------------
  // User directories
  // ---------------------------------------------------------------------

  function UserDirDefaults(): seq<(string, string)> {
    [("DESKTOP", "Desktop"), ("DOWNLOAD", "Downloads"), ("DOCUMENTS", "Documents"), ("MUSIC", "Music"),
     ("PICTURES", "Pictures"), ("VIDEOS", "Videos"), ("TEMPLATES", "Templates"), ("PUBLICSHARE", "Public")]
  }

  /** The last override of a directory, else its default. */
  function PathOf(dirs: seq<(string, string)>, name: string, default: string): string {
    if dirs == [] then default
    else if dirs[|dirs| - 1].0 == name then dirs[|dirs| - 1].1
    else PathOf(dirs[..|dirs| - 1], name, default)
  }

  /** One line per known directory, in the fixed order; unknown names are not printed. */
  method BuildUserDirs(dirs: seq<(string, string)>) returns (lines: seq<string>)
    ensures var d := UserDirDefaults();
      |lines| == |d| + 1 && lines[0] == HEADER &&
      forall i :: 0 <= i < |d| ==> lines[i + 1] == d[i].0 + "=" + PathOf(dirs, d[i].0, d[i].1)
  {
    var defaults := UserDirDefaults();
    var dirMap: map<string, string> := map[];
    var i := 0;
    while i < |defaults|
      invariant 0 <= i <= |defaults|
      invariant forall j :: 0 <= j < i ==> defaults[j].0 in dirMap && dirMap[defaults[j].0] == defaults[j].1
    {
      DefaultsDistinct(i);
      dirMap := dirMap[defaults[i].0 := defaults[i].1];
      i := i + 1;
    }
    i := 0;
    while i < |dirs|
      invariant 0 <= i <= |dirs|
      invariant forall j :: 0 <= j < |defaults| ==>
        defaults[j].0 in dirMap && dirMap[defaults[j].0] == PathOf(dirs[..i], defaults[j].0, defaults[j].1)
    {
      assert dirs[..i + 1][..i] == dirs[..i];
      dirMap := dirMap[dirs[i].0 := dirs[i].1];
      i := i + 1;
    }
    assert dirs[..|dirs|] == dirs;
    lines := [HEADER];
    i := 0;
    while i < |defaults|
      invariant 0 <= i <= |defaults| && |lines| == i + 1 && lines[0] == HEADER
      invariant forall j :: 0 <= j < i ==> lines[j + 1] == defaults[j].0 + "=" + PathOf(dirs, defaults[j].0, defaults[j].1)
    {
      lines := lines + [defaults[i].0 + "=" + dirMap[defaults[i].0]];
      i := i + 1;
    }
  }

  lemma DefaultsDistinct(i: nat)
    requires i < |UserDirDefaults()|
    ensures forall j :: 0 <= j < i ==> UserDirDefaults()[j].0 != UserDirDefaults()[i].0
  {
    var d := UserDirDefaults();
    assert d[0].0[..3] == "DES" && d[1].0[..3] == "DOW" && d[2].0[..3] == "DOC" && d[3].0[..3] == "MUS";
    assert d[4].0[..3] == "PIC" && d[5].0[..3] == "VID" && d[6].0[..3] == "TEM" && d[7].0[..3] == "PUB";
  }
}
