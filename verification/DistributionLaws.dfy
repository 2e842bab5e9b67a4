/** Laws of the distribution store: round trip, clone isomorphism, frame and undo. */
module DistributionLaws {
  import opened Wrappers
  import opened Ordering
  import opened DocSchema
  import opened Distribution

  // ---------------------------------------------------------------------
  // Sorted profiles of one distribution
  // ---------------------------------------------------------------------

  lemma NameOrderIsTotal()
    ensures TotalPreorder(NameOrder)
  {
    forall x: ProfileRow, y: ProfileRow ensures NameOrder(x, y) || NameOrder(y, x) {
      StrLeqTotal(x.name, y.name);
    }
    forall x: ProfileRow, y: ProfileRow, z: ProfileRow | NameOrder(x, y) && NameOrder(y, z) ensures NameOrder(x, z) {
      StrLeqTransitive(x.name, y.name, z.name);
    }
  }

  lemma DistinctIsTieFree(rows: seq<ProfileRow>)
    requires DistinctNamesOf(rows)
    ensures TieFree(rows, NameOrder)
  {
    forall i, j | 0 <= i < j < |rows| ensures !(NameOrder(rows[i], rows[j]) && NameOrder(rows[j], rows[i])) {
      if NameOrder(rows[i], rows[j]) && NameOrder(rows[j], rows[i]) {
        StrLeqAntisymmetric(rows[i].name, rows[j].name);
      }
    }
  }

  /** The sorted profiles are the rows of the distribution, each once, in strict name order. */
  lemma SortedProfilesFacts(db: Db, dist: Id)
    requires DistinctRows(db.profiles)
    ensures var rows := SortedProfiles(db, dist);
      && (forall p :: p in rows <==> p in db.profiles && p.dist == dist)
      && DistinctNamesOf(rows) && DistinctIds(rows) && Sorted(rows, NameOrder)
      && |rows| == |ProfilesOf(db.profiles, dist)|
  {
    var own := ProfilesOf(db.profiles, dist);
    var rows := SortedProfiles(db, dist);
    NameOrderIsTotal();
    ProfilesOfMembers(db.profiles, dist);
    ProfilesOfDistinct(db.profiles, dist);
    SortPermutes(own, NameOrder);
    SortSorts(own, NameOrder);
    forall p ensures p in rows <==> p in own {
      MemberOfPermutation(rows, own, p);
    }
    DistinctIsTieFree(own);
    TieFreePermutation(own, rows, NameOrder);
    SortedOfDistinct(own);
    forall i, j | 0 <= i < j < |rows| ensures rows[i].name != rows[j].name {
      StrLeqReflexive(rows[i].name);
    }
  }

  lemma NameOfIdIs(rows: seq<ProfileRow>, p: ProfileRow)
    requires DistinctIds(rows) && p in rows
    ensures NameOfId(rows, p.id) == Some(p.name)
  {
    var i :| 0 <= i < |rows| && rows[i] == p;
  }

  lemma NameOfIdMissing(rows: seq<ProfileRow>, id: Id)
    requires forall p :: p in rows ==> p.id != id
    ensures NameOfId(rows, id) == None
  {
    assert forall i :: 0 <= i < |rows| ==> rows[i] in rows;
  }

  // ---------------------------------------------------------------------
  // Importing normalises a document; exporting yields normal documents
  // ---------------------------------------------------------------------

  function Kept(s: Option<string>): Option<string> {
    if Truthy(s) then s else None
  }

  function NormalProfile(p: ProfileDoc): ProfileDoc {
    if p.NotMapping? then p
    else ProfileDoc(p.name, Kept(p.inherits), Kept(p.cls),
                    InputsObject(if p.inputs.InputsObject? then p.inputs.fields else map[]))
  }

  function NameText(p: ProfileDoc): string {
    if p.ProfileDoc? && p.name.Some? then p.name.value else ""
  }

  predicate DocOrder(p: ProfileDoc, q: ProfileDoc) {
    StrLeq(NameText(p), NameText(q))
  }

  /** Profiles sorted by name, empty references dropped, absent inputs turned into an empty object,
      a missing channel into "dev", and free-form metadata not carried. */
  function Normal(doc: Doc): Doc
    requires WellFormed(doc)
  {
    var m := doc.metadata.value;
    doc.(metadata := Some(Metadata(m.name, m.description, Text(if m.channel.Text? then m.channel.text else "dev"),
                                   Kept(m.cls), None)),
         profiles := ProfileList(SortBy(Map(NormalProfile, ProfileDocs(doc)), DocOrder)))
  }

  lemma ClassRoundTrip(classes: seq<ClassRow>, name: Option<string>)
    requires ValidClasses(classes) && ClassKnown(classes, name)
    ensures var c := ClassRef(classes, name).value;
      (if c.None? then None else ClassName(classes, c.value)) == Kept(name)
  {
  }

  lemma FreshProfiles(kept: seq<ProfileRow>, added: seq<ProfileRow>, dist: Id)
    requires BelowCounter(kept, dist)
    requires forall i :: 0 <= i < |added| ==> added[i].dist == dist
    ensures ProfilesOf(kept + added, dist) == added
  {
    FilterAppend(kept, added, OwnedBy(dist));
    FilterNone(kept, OwnedBy(dist));
    FilterAll(added, OwnedBy(dist));
    assert [] + added == added;
  }

  /** One imported profile exports as its normalised document entry. */
  lemma ImportedProfileExports(db: Db, rows: seq<ProfileRow>, ps: seq<ProfileDoc>, i: nat, dist: Id)
    requires ValidClasses(db.classes)
    requires i < |ps| && NamedProfiles(ps) && ClassesKnown(db.classes, ps, |ps|) && ParentsKnown(ps, |ps|)
    requires DistinctIds(rows)
    requires forall p :: p in rows <==> p in ImportedRows(db.classes, ps, dist)
    ensures ExportProfile(db, rows, ImportedRow(db.classes, ps, i, dist)) == NormalProfile(ps[i])
  {
    var row := ImportedRow(db.classes, ps, i, dist);
    ClassRoundTrip(db.classes, ps[i].cls);
    if Truthy(ps[i].inherits) {
      var j := IndexOfName(ps, ps[i].inherits.value);
      assert ParentKnown(ps, ps[i]);
      var parent := ImportedRows(db.classes, ps, dist)[j];
      assert parent in ImportedRows(db.classes, ps, dist);
      NameOfIdIs(rows, parent);
    }
  }

  /** The store has a distribution with key `id`, and it exports as `doc`. */
  ghost predicate Exports(db: Db, id: Id, doc: Doc) {
    exists e :: e in db.dists && e.id == id && ExportRow(db, e) == doc
  }

  /** The row with the key of an import is the imported one. */
  lemma ImportedOnly(db: Db, doc: Doc, overwrite: bool, e: DistRow)
    requires Valid(db) && Importable(db, doc, overwrite)
    requires e in Imported(db, doc, overwrite).dists && e.id == db.next
    ensures e == ImportedDist(db.classes, doc.metadata.value, db.next)
  {
    ImportKeepsValid(db, doc, overwrite);
    var end, base := Imported(db, doc, overwrite), WithoutName(db, doc.metadata.value.name.value);
    var i :| 0 <= i < |end.dists| && end.dists[i] == e;
    assert end.dists[|base.dists|].id == db.next;
    assert i == |base.dists|;
  }

  /** After a successful import, exporting the new distribution yields the normal form of the document. */
  lemma ExportAfterImport(db: Db, doc: Doc, overwrite: bool)
    requires Valid(db) && Importable(db, doc, overwrite)
    ensures Exports(Imported(db, doc, overwrite), db.next, Normal(doc))
  {
    var end := Imported(db, doc, overwrite);
    var meta, ps, dist := doc.metadata.value, ProfileDocs(doc), db.next;
    var base := WithoutName(db, meta.name.value);
    var added := ImportedRows(db.classes, ps, dist);
    BaseBelowCounter(db, meta.name.value);
    FreshProfiles(base.profiles, added, dist);
    var rows := SortedProfiles(end, dist);
    ImportedRowsDistinct(db.classes, ps, dist);
    SortedOfDistinct(added);
    var f := (p: ProfileRow) => ExportProfile(end, rows, p);
    assert Map(f, added) == Map(NormalProfile, ps) by {
      forall i | 0 <= i < |ps| ensures f(added[i]) == NormalProfile(ps[i]) {
        ImportedProfileExports(end, rows, ps, i, dist);
      }
    }
    SortMap(f, added, NameOrder, DocOrder);
    assert ExportProfiles(end, dist) == Map(f, rows);
    ClassRoundTrip(db.classes, meta.cls);
    assert end.dists[|base.dists|] in end.dists;
  }

  /** The row holds the entry of a document: its inputs if it has any, its class by name, no other selections,
      and as parent the profile of that name in the same distribution. */
  ghost predicate RecordsEntry(db: Db, dist: Id, p: ProfileRow, entry: ProfileDoc)
    requires entry.ProfileDoc?
  {
    && p.dist == dist && Some(p.name) == entry.name && p.columns == map[]
    && p.inputs == (if entry.inputs.InputsObject? then Some(entry.inputs.fields) else None)
    && Refers(db.classes, p.cls, entry.cls)
    && (if Truthy(entry.inherits) then IsParent(db, dist, p.inherits, entry.inherits.value) else p.inherits.None?)
  }

  ghost predicate IsParent(db: Db, dist: Id, parent: Option<Id>, name: string) {
    exists q :: q in db.profiles && q.dist == dist && q.name == name && parent == Some(q.id)
  }

  /** An import stores each entry of its document. */
  lemma ImportStoresEntry(db: Db, doc: Doc, overwrite: bool, i: nat)
    requires Valid(db) && Importable(db, doc, overwrite) && i < |ProfileDocs(doc)|
    ensures var end := Imported(db, doc, overwrite);
      exists p :: p in end.profiles && RecordsEntry(end, db.next, p, ProfileDocs(doc)[i])
  {
    var ps, end := ProfileDocs(doc), Imported(db, doc, overwrite);
    var p := ImportedRow(db.classes, ps, i, db.next);
    EntryIsStored(db, doc, overwrite, i);
    assert end.classes == db.classes;
    if Truthy(ps[i].inherits) {
      ParentIsStored(db, doc, overwrite, i);
    }
    RowOfEntry(end, ps, i, db.next);
    assert p in end.profiles;
  }

  lemma RowOfEntry(end: Db, ps: seq<ProfileDoc>, i: nat, dist: Id)
    requires i < |ps| && NamedProfiles(ps) && ClassKnown(end.classes, ps[i].cls) && ParentKnown(ps, ps[i])
    requires var p := ImportedRow(end.classes, ps, i, dist);
      Truthy(ps[i].inherits) ==> IsParent(end, dist, p.inherits, ps[i].inherits.value)
    ensures RecordsEntry(end, dist, ImportedRow(end.classes, ps, i, dist), ps[i])
  {
    ReferenceIsRight(end.classes, ps[i].cls);
  }

  lemma ParentIsStored(db: Db, doc: Doc, overwrite: bool, i: nat)
    requires Importable(db, doc, overwrite) && i < |ProfileDocs(doc)| && Truthy(ProfileDocs(doc)[i].inherits)
    ensures var ps := ProfileDocs(doc);
      IsParent(Imported(db, doc, overwrite), db.next, ImportedRow(db.classes, ps, i, db.next).inherits, ps[i].inherits.value)
  {
    var ps, end := ProfileDocs(doc), Imported(db, doc, overwrite);
    assert ParentKnown(ps, ps[i]);
    var j := IndexOfName(ps, ps[i].inherits.value);
    EntryIsStored(db, doc, overwrite, j);
    var q := ImportedRow(db.classes, ps, j, db.next);
    assert q in end.profiles && q.name == ps[i].inherits.value;
  }

  lemma EntryIsStored(db: Db, doc: Doc, overwrite: bool, i: nat)
    requires Importable(db, doc, overwrite) && i < |ProfileDocs(doc)|
    ensures ImportedRows(db.classes, ProfileDocs(doc), db.next)[i] in Imported(db, doc, overwrite).profiles
  {
    var added := ImportedRows(db.classes, ProfileDocs(doc), db.next);
    assert added[i] in added;
  }

  /** A removal takes exactly the distribution and its profiles. */
  lemma DeletedExactly(db: Db, gone: Id)
    ensures forall d :: d in Deleted(db, gone).dists <==> d in db.dists && d.id != gone
    ensures forall p :: p in Deleted(db, gone).profiles <==> p in db.profiles && p.dist != gone
    ensures Deleted(db, gone).classes == db.classes && Deleted(db, gone).builds == db.builds
  {
    FilterMembers(db.dists, OtherThan(gone));
    FilterMembers(db.profiles, OwnedByOther(gone));
  }

  lemma SortedOfDistinct(rows: seq<ProfileRow>)
    requires DistinctIds(rows)
    ensures var s := SortBy(rows, NameOrder);
      (forall p :: p in s <==> p in rows) && DistinctIds(s) && |s| == |rows|
  {
    var s := SortBy(rows, NameOrder);
    SortPermutes(rows, NameOrder);
    forall p ensures p in s <==> p in rows {
      MemberOfPermutation(s, rows, p);
    }
    forall i, j | 0 <= i < j < |s| ensures s[i].id != s[j].id {
      if s[i].id == s[j].id {
        assert s[i] in rows && s[j] in rows;
        var a :| 0 <= a < |rows| && rows[a] == s[i];
        var b :| 0 <= b < |rows| && rows[b] == s[j];
        assert a == b;
        TwiceInSeq(s, i, j);
        OnceInDistinct(rows, a);
      }
    }
  }

  lemma OnceInDistinct(rows: seq<ProfileRow>, a: nat)
    requires DistinctIds(rows) && a < |rows|
    ensures multiset(rows)[rows[a]] == 1
  {
    assert rows == rows[..a] + [rows[a]] + rows[a + 1..];
    assert rows[a] !in rows[..a];
    assert rows[a] !in rows[a + 1..];
    assert rows[a] !in multiset(rows[..a]) && rows[a] !in multiset(rows[a + 1..]);
  }

  // ---------------------------------------------------------------------
  // Exports are accepted and come back unchanged
  // ---------------------------------------------------------------------

  ghost predicate NonEmptyNames(db: Db, d: DistRow) {
    d.name != "" && forall p :: p in db.profiles && p.dist == d.id ==> p.name != ""
  }

  /** Every export passes the document check. */
  lemma ExportWellFormed(db: Db, d: DistRow)
    requires Valid(db) && NonEmptyNames(db, d)
    ensures WellFormed(ExportRow(db, d))
  {
    var rows := SortedProfiles(db, d.id);
    SortedProfilesFacts(db, d.id);
    var ps := ProfileDocs(ExportRow(db, d));
    forall i | 0 <= i < |ps| ensures ps[i].ProfileDoc? && Truthy(ps[i].name) && !ps[i].inputs.InputsNotMapping? {
      assert rows[i] in rows;
    }
    forall i, j | 0 <= i < j < |ps| ensures ps[i].name != ps[j].name {
      assert rows[i].name != rows[j].name;
    }
  }

  /** Parents named by an export are profiles of the same export. */
  lemma ExportParentsKnown(db: Db, d: DistRow)
    requires Valid(db) && NonEmptyNames(db, d)
    ensures WellFormed(ExportRow(db, d)) && ParentsKnown(ProfileDocs(ExportRow(db, d)), |ProfileDocs(ExportRow(db, d))|)
  {
    ExportWellFormed(db, d);
    var rows := SortedProfiles(db, d.id);
    var ps := ProfileDocs(ExportRow(db, d));
    forall i | 0 <= i < |ps| ensures ParentKnown(ps, ps[i]) {
      var p := rows[i];
      if Truthy(ps[i].inherits) {
        var j := IndexOfId(rows, p.inherits.value);
        assert ps[j].name == Some(rows[j].name);
      }
    }
  }

  predicate NoEmptyClass(doc: Doc)
    requires WellFormed(doc)
  {
    && doc.metadata.value.cls != Some("")
    && forall i :: 0 <= i < |ProfileDocs(doc)| ==> ProfileDocs(doc)[i].cls != Some("")
  }

  lemma ExportEntriesNormal(db: Db, d: DistRow, i: nat)
    requires Valid(db) && NonEmptyNames(db, d)
    requires i < |ProfileDocs(ExportRow(db, d))|
    ensures var p := ProfileDocs(ExportRow(db, d))[i];
      p.ProfileDoc? && (NormalProfile(p) == p <==> p.cls != Some(""))
  {
    var rows := SortedProfiles(db, d.id);
    SortedProfilesFacts(db, d.id);
    var p := rows[i];
    if p.inherits.Some? {
      var j := IndexOfId(rows, p.inherits.value);
      if j < |rows| {
        assert rows[j] in rows;
      }
    }
  }

  /** An export is in normal form exactly when no class it names is the empty string. */
  lemma ExportIsNormal(db: Db, d: DistRow)
    requires Valid(db) && NonEmptyNames(db, d)
    ensures WellFormed(ExportRow(db, d))
    ensures Normal(ExportRow(db, d)) == ExportRow(db, d) <==> NoEmptyClass(ExportRow(db, d))
  {
    ExportWellFormed(db, d);
    var doc := ExportRow(db, d);
    var ps := ProfileDocs(doc);
    var rows := SortedProfiles(db, d.id);
    SortedProfilesFacts(db, d.id);
    var normal := Map(NormalProfile, ps);
    assert Sorted(normal, DocOrder) by {
      forall i, j | 0 <= i < j < |normal| ensures DocOrder(normal[i], normal[j]) {
        assert NameOrder(rows[i], rows[j]);
        ExportEntriesNormal(db, d, i);
        ExportEntriesNormal(db, d, j);
      }
    }
    SortOfSorted(normal, DocOrder);
    forall i | 0 <= i < |ps| ensures normal[i] == ps[i] <==> ps[i].cls != Some("") {
      ExportEntriesNormal(db, d, i);
    }
    assert normal == ps <==> forall i :: 0 <= i < |ps| ==> normal[i] == ps[i];
  }

  /** The other store knows every class that the export names. */
  ghost predicate KnowsClasses(other: Db, db: Db) {
    forall c :: c in db.classes ==> ClassKnown(other.classes, Some(c.name))
  }

  lemma ExportClassesKnown(db: Db, d: DistRow, other: Db)
    requires Valid(db) && NonEmptyNames(db, d) && KnowsClasses(other, db)
    ensures WellFormed(ExportRow(db, d))
    ensures var doc := ExportRow(db, d); var ps := ProfileDocs(doc);
      ClassKnown(other.classes, doc.metadata.value.cls) && ClassesKnown(other.classes, ps, |ps|)
  {
    ExportWellFormed(db, d);
    var rows := SortedProfiles(db, d.id);
    var ps := ProfileDocs(ExportRow(db, d));
    forall i | 0 <= i < |ps| ensures ClassKnown(other.classes, ps[i].cls) {
    }
  }

  /** Export from one store and import into another that knows the same class names: the import
      succeeds, and exporting there yields the identical document unless it names an empty class. */
  lemma RoundTrip(db: Db, d: DistRow, other: Db, overwrite: bool)
    requires Valid(db) && NonEmptyNames(db, d)
    requires Valid(other) && KnowsClasses(other, db)
    requires overwrite || DistByName(other.dists, d.name).None?
    ensures var doc := ExportRow(db, d);
      && Importable(other, doc, overwrite)
      && (Exports(Imported(other, doc, overwrite), other.next, doc) <==> NoEmptyClass(doc))
  {
    ExportClassesKnown(db, d, other);
    ExportParentsKnown(db, d);
    ExportIsNormal(db, d);
    var doc := ExportRow(db, d);
    ExportAfterImport(other, doc, overwrite);
    OneExport(other, doc, overwrite, doc, Normal(doc));
  }

  /** An imported distribution has one export. */
  lemma OneExport(db: Db, doc: Doc, overwrite: bool, a: Doc, b: Doc)
    requires Valid(db) && Importable(db, doc, overwrite)
    ensures Exports(Imported(db, doc, overwrite), db.next, a) && Exports(Imported(db, doc, overwrite), db.next, b) ==> a == b
  {
    var end := Imported(db, doc, overwrite);
    if Exports(end, db.next, a) && Exports(end, db.next, b) {
      var e :| e in end.dists && e.id == db.next && ExportRow(end, e) == a;
      var f :| f in end.dists && f.id == db.next && ExportRow(end, f) == b;
      ImportedOnly(db, doc, overwrite, e);
      ImportedOnly(db, doc, overwrite, f);
    }
  }

  /** The failing side is inhabited: a distribution in a class whose name is empty loses its class. */
  lemma EmptyClassIsLost() returns (db: Db, d: DistRow, other: Db)
    ensures Valid(db) && NonEmptyNames(db, d) && d in db.dists
    ensures Valid(other) && KnowsClasses(other, db) && DistByName(other.dists, d.name).None?
    ensures var doc := ExportRow(db, d);
      && Importable(other, doc, false)
      && !Exports(Imported(other, doc, false), other.next, doc)
  {
    db, d, other := LoneDist("d", "");
    EmptyClassChangesExport(db, d, other);
  }

  /** One distribution without profiles in a class, and a store that has only the class. */
  lemma LoneDist(name: string, class_: string) returns (db: Db, d: DistRow, other: Db)
    requires name != ""
    ensures Valid(db) && NonEmptyNames(db, d) && d in db.dists && ClassOf(db, d.cls) == Some(class_)
    ensures Valid(other) && KnowsClasses(other, db) && DistByName(other.dists, d.name).None?
  {
    d := DistRow(1, name, None, "dev", Some(0), None);
    db := Db(2, [ClassRow(0, class_)], [d], [], []);
    other := Db(1, [ClassRow(0, class_)], [], [], []);
  }

  lemma EmptyClassChangesExport(db: Db, d: DistRow, other: Db)
    requires Valid(db) && NonEmptyNames(db, d) && ClassOf(db, d.cls) == Some("")
    requires Valid(other) && KnowsClasses(other, db) && DistByName(other.dists, d.name).None?
    ensures var doc := ExportRow(db, d);
      && Importable(other, doc, false)
      && !Exports(Imported(other, doc, false), other.next, doc)
  {
    RoundTrip(db, d, other, false);
    assert !NoEmptyClass(ExportRow(db, d));
  }

  // ---------------------------------------------------------------------
  // What a round trip through a document loses
  // ---------------------------------------------------------------------

  datatype StoredProfile = StoredProfile(name: string, parent: Option<string>, cls: Option<string>,
                                         inputs: Option<JsonObject>, columns: map<string, Id>)

  /** All that a store holds about a distribution except its keys, with parents and classes by name. */
  datatype StoredDist = StoredDist(name: string, description: Option<string>, channel: string, cls: Option<string>,
                                   metadata: Option<JsonObject>, profiles: seq<StoredProfile>)

  function StoredRow(db: Db, rows: seq<ProfileRow>, p: ProfileRow): StoredProfile {
    StoredProfile(p.name, ParentName(rows, p), ClassOf(db, p.cls), p.inputs, p.columns)
  }

  function StoredRows(db: Db, dist: Id): seq<StoredProfile> {
    var rows := SortedProfiles(db, dist);
    seq(|rows|, i requires 0 <= i < |rows| => StoredRow(db, rows, rows[i]))
  }

  function StoredOf(db: Db, d: DistRow): StoredDist {
    StoredDist(d.name, d.description, d.channel, ClassOf(db, d.cls), d.metadata, StoredRows(db, d.id))
  }

  /** The store has a distribution with key `id` and this content. */
  ghost predicate Stores(db: Db, id: Id, content: StoredDist) {
    exists e :: e in db.dists && e.id == id && StoredOf(db, e) == content
  }

  /** The document carries everything: no metadata, no selections besides class and inputs, no missing inputs. */
  ghost predicate FullyExported(db: Db, d: DistRow) {
    && d.metadata.None?
    && forall p :: p in db.profiles && p.dist == d.id ==> p.columns == map[] && p.inputs.Some?
  }

  /** The export depends on what is stored only. */
  lemma SameStoredSameExport(db: Db, d: DistRow, end: Db, e: DistRow)
    requires StoredOf(db, d) == StoredOf(end, e)
    ensures ExportRow(db, d) == ExportRow(end, e)
  {
    var a, b := ExportProfiles(db, d.id), ExportProfiles(end, e.id);
    assert |a| == |StoredRows(db, d.id)| == |StoredRows(end, e.id)| == |b|;
    forall i | 0 <= i < |a| ensures a[i] == b[i] {
      assert StoredRows(db, d.id)[i] == StoredRows(end, e.id)[i];
    }
    assert a == b;
  }

  /** Distributions that the document carries in full are told apart by it. */
  lemma SameExportSameStored(db: Db, d: DistRow, end: Db, e: DistRow)
    requires DistinctRows(db.profiles) && DistinctRows(end.profiles)
    requires FullyExported(db, d) && FullyExported(end, e) && ExportRow(db, d) == ExportRow(end, e)
    ensures StoredOf(db, d) == StoredOf(end, e)
  {
    SortedProfilesFacts(db, d.id);
    SortedProfilesFacts(end, e.id);
    var rows, rows' := SortedProfiles(db, d.id), SortedProfiles(end, e.id);
    var a, b := StoredRows(db, d.id), StoredRows(end, e.id);
    assert |ExportProfiles(db, d.id)| == |ExportProfiles(end, e.id)|;
    forall i | 0 <= i < |a| ensures a[i] == b[i] {
      assert ExportProfiles(db, d.id)[i] == ExportProfiles(end, e.id)[i];
      assert rows[i] in rows && rows'[i] in rows';
    }
    assert a == b;
  }

  /** What an import of an export stores is what the document carries. */
  lemma ImportedIsFullyExported(db: Db, d: DistRow, other: Db, overwrite: bool)
    requires Valid(db) && Valid(other)
    requires WellFormed(ExportRow(db, d)) && Importable(other, ExportRow(db, d), overwrite)
    ensures var doc := ExportRow(db, d);
      FullyExported(Imported(other, doc, overwrite), ImportedDist(other.classes, doc.metadata.value, other.next))
  {
    var doc := ExportRow(db, d);
    var ps := ProfileDocs(doc);
    var base := WithoutName(other, d.name);
    var added := ImportedRows(other.classes, ps, other.next);
    BaseBelowCounter(other, d.name);
    forall p | p in base.profiles + added && p.dist == other.next ensures p.columns == map[] && p.inputs.Some? {
      assert p in added;
      var i :| 0 <= i < |ps| && added[i] == p;
      assert ps[i].inputs.InputsObject?;
    }
  }

  lemma StoredAreFullyExported(db: Db, d: DistRow, end: Db, e: DistRow)
    requires DistinctRows(db.profiles) && DistinctRows(end.profiles)
    requires FullyExported(end, e) && StoredOf(db, d) == StoredOf(end, e)
    ensures FullyExported(db, d)
  {
    SortedProfilesFacts(db, d.id);
    SortedProfilesFacts(end, e.id);
    var rows, rows' := SortedProfiles(db, d.id), SortedProfiles(end, e.id);
    assert |rows| == |StoredRows(db, d.id)| == |StoredRows(end, e.id)| == |rows'|;
    forall p | p in db.profiles && p.dist == d.id ensures p.columns == map[] && p.inputs.Some? {
      var i :| 0 <= i < |rows| && rows[i] == p;
      assert StoredRows(db, d.id)[i] == StoredRows(end, e.id)[i];
      assert rows'[i] in rows';
    }
  }

  /** Importing an export elsewhere stores the same distribution exactly when it has no free-form metadata,
      no selections besides class and inputs, no missing inputs and no class with an empty name. */
  lemma RoundTripOfRows(db: Db, d: DistRow, other: Db, overwrite: bool)
    requires Valid(db) && NonEmptyNames(db, d)
    requires Valid(other) && KnowsClasses(other, db)
    requires overwrite || DistByName(other.dists, d.name).None?
    ensures var doc := ExportRow(db, d);
      && Importable(other, doc, overwrite)
      && (Stores(Imported(other, doc, overwrite), other.next, StoredOf(db, d))
          <==> FullyExported(db, d) && NoEmptyClass(doc))
  {
    var doc := ExportRow(db, d);
    RoundTrip(db, d, other, overwrite);
    var end, e := Imported(other, doc, overwrite), ImportedDist(other.classes, doc.metadata.value, other.next);
    ImportKeepsValid(other, doc, overwrite);
    ImportedIsFullyExported(db, d, other, overwrite);
    assert end.dists[|end.dists| - 1] == e && e in end.dists;
    forall f | f in end.dists && f.id == other.next ensures f == e {
      ImportedOnly(other, doc, overwrite, f);
    }
    if Stores(end, other.next, StoredOf(db, d)) {
      SameStoredSameExport(end, e, db, d);
      StoredAreFullyExported(db, d, end, e);
    }
    if FullyExported(db, d) && NoEmptyClass(doc) {
      assert ExportRow(end, e) == doc;
      SameExportSameStored(end, e, db, d);
    }
  }

  /** An export lists each profile of the distribution once, in strict name order, under its own name,
      with the name of its parent if that belongs to the distribution, and with its inputs. */
  lemma ExportLists(db: Db, d: DistRow, p: ProfileRow)
    requires Valid(db)
    ensures var ps := ProfileDocs(ExportRow(db, d));
      && |ps| == |ProfilesOf(db.profiles, d.id)|
      && (forall i, j :: 0 <= i < j < |ps| ==> ps[i].name != ps[j].name && DocOrder(ps[i], ps[j]))
      && (p in db.profiles && p.dist == d.id ==> exists e :: e in ps && Shows(db, p, e))
  {
    SortedProfilesFacts(db, d.id);
    var rows := SortedProfiles(db, d.id);
    var ps := ProfileDocs(ExportRow(db, d));
    forall i, j | 0 <= i < j < |ps| ensures ps[i].name != ps[j].name && DocOrder(ps[i], ps[j]) {
      assert NameOrder(rows[i], rows[j]);
    }
    if p in db.profiles && p.dist == d.id {
      var i :| 0 <= i < |rows| && rows[i] == p;
      EntryShows(db, rows, p);
      assert ps[i] == ExportProfile(db, rows, p) && ps[i] in ps;
    }
  }

  lemma EntryShows(db: Db, rows: seq<ProfileRow>, p: ProfileRow)
    requires ValidClasses(db.classes) && DistinctIds(rows)
    requires forall q :: q in rows <==> q in db.profiles && q.dist == p.dist
    ensures Shows(db, p, ExportProfile(db, rows, p))
  {
    if p.inherits.Some? {
      if q :| q in rows && p.inherits == Some(q.id) {
        NameOfIdIs(rows, q);
      } else {
        NameOfIdMissing(rows, p.inherits.value);
      }
    }
  }

  /** The entry `e` describes the profile `p`. */
  ghost predicate Shows(db: Db, p: ProfileRow, e: ProfileDoc) {
    && e.ProfileDoc? && e.name == Some(p.name)
    && (forall q :: q in db.profiles && q.dist == p.dist && p.inherits == Some(q.id) ==> e.inherits == Some(q.name))
    && ((forall q :: q in db.profiles && q.dist == p.dist ==> p.inherits != Some(q.id)) ==> e.inherits == None)
    && e.inputs == InputsObject(if p.inputs.Some? then p.inputs.value else map[])
    && (forall c :: c in db.classes && p.cls == Some(c.id) ==> e.cls == Some(c.name))
    && ((forall c :: c in db.classes ==> p.cls != Some(c.id)) ==> e.cls == None)
  }

  // ---------------------------------------------------------------------
  // A clone is isomorphic to its source
  // ---------------------------------------------------------------------

  /** Everything about a profile except its keys, with the parent by name. */
  datatype ProfileView = ProfileView(name: string, parent: Option<string>, inputs: Option<JsonObject>,
                                     cls: Option<Id>, columns: map<string, Id>)

  function ViewOf(rows: seq<ProfileRow>, p: ProfileRow): ProfileView {
    ProfileView(p.name, ParentName(rows, p), p.inputs, p.cls, p.columns)
  }

  function View(db: Db, dist: Id): seq<ProfileView> {
    var rows := SortedProfiles(db, dist);
    Map((p: ProfileRow) => ViewOf(rows, p), rows)
  }

  function ExportView(db: Db, v: ProfileView): ProfileDoc {
    ProfileDoc(Some(v.name), v.parent, ClassOf(db, v.cls), InputsObject(if v.inputs.None? then map[] else v.inputs.value))
  }

  lemma ExportThroughView(db: Db, dist: Id)
    ensures ExportProfiles(db, dist) == Map((v: ProfileView) => ExportView(db, v), View(db, dist))
  {
  }

  /** Copies are found under shifted positions. */
  lemma ClonedViewOf(rows: seq<ProfileRow>, sorted: seq<ProfileRow>, sorted': seq<ProfileRow>, i: nat, dist: Id)
    requires i < |rows| && DistinctIds(rows) && DistinctIds(sorted) && DistinctIds(sorted')
    requires forall p :: p in sorted <==> p in rows
    requires forall p :: p in sorted' <==> p in ClonedRows(rows, dist)
    ensures ViewOf(sorted', ClonedRow(rows, i, dist)) == ViewOf(sorted, rows[i])
  {
    if rows[i].inherits.Some? {
      var q := rows[i].inherits.value;
      var j := IndexOfId(rows, q);
      if j < |rows| {
        NameOfIdIs(sorted, rows[j]);
        assert ClonedRows(rows, dist)[j] in ClonedRows(rows, dist);
        NameOfIdIs(sorted', ClonedRows(rows, dist)[j]);
      } else {
        NameOfIdMissing(sorted, q);
      }
    }
  }

  /** The clone shows the same profiles with the same parents as its source: a parent inside the source
      becomes its copy, a parent elsewhere is no parent in either view. */
  lemma CloneIsomorphic(db: Db, src: DistRow, name: string)
    requires Valid(db)
    ensures View(Cloned(db, src, name), db.next) == View(db, src.id)
  {
    var end, dist := Cloned(db, src, name), db.next;
    var rows := ProfilesOf(db.profiles, src.id);
    var copies := ClonedRows(rows, dist);
    FreshProfiles(db.profiles, copies, dist);
    ProfilesOfDistinct(db.profiles, src.id);
    SortedOfDistinct(rows);
    SortedOfDistinct(copies);
    var sorted, sorted' := SortBy(rows, NameOrder), SortBy(copies, NameOrder);
    SortedCopies(rows, dist);
    forall k | 0 <= k < |sorted| ensures ViewOf(sorted', sorted'[k]) == ViewOf(sorted, sorted[k]) {
      assert sorted[k] in rows;
      var i := IndexOfId(rows, sorted[k].id);
      ClonedViewOf(rows, sorted, sorted', i, dist);
    }
    assert View(end, dist) == View(db, src.id);
  }

  /** Sorting the copies copies the sorted rows. */
  lemma SortedCopies(rows: seq<ProfileRow>, dist: Id)
    requires DistinctIds(rows)
    ensures var sorted, sorted' := SortBy(rows, NameOrder), SortBy(ClonedRows(rows, dist), NameOrder);
      && |sorted'| == |sorted| == |rows|
      && forall k :: 0 <= k < |sorted| ==>
           var i := IndexOfId(rows, sorted[k].id);
           i < |rows| && rows[i] == sorted[k] && sorted'[k] == ClonedRow(rows, i, dist)
  {
    var sorted := SortBy(rows, NameOrder);
    var g := (p: ProfileRow) => var i := IndexOfId(rows, p.id); if i < |rows| then ClonedRow(rows, i, dist) else p;
    forall i | 0 <= i < |rows| ensures IndexOfId(rows, rows[i].id) == i {
    }
    assert Map(g, rows) == ClonedRows(rows, dist);
    SortMap(g, rows, NameOrder, NameOrder);
    SortedOfDistinct(rows);
    forall k | 0 <= k < |sorted|
      ensures var i := IndexOfId(rows, sorted[k].id);
        i < |rows| && rows[i] == sorted[k] && Map(g, sorted)[k] == ClonedRow(rows, i, dist)
    {
      assert sorted[k] in rows;
      var i :| 0 <= i < |rows| && rows[i] == sorted[k];
    }
  }

  /** The clone exports as its source, except for the name. */
  lemma CloneExports(db: Db, src: DistRow, name: string)
    requires Valid(db)
    ensures var doc := ExportRow(db, src);
      Exports(Cloned(db, src, name), db.next, doc.(metadata := Some(doc.metadata.value.(name := Some(name)))))
  {
    CloneIsomorphic(db, src, name);
    var end := Cloned(db, src, name);
    ExportThroughView(db, src.id);
    ExportThroughView(end, db.next);
    assert forall v: ProfileView :: ExportView(end, v) == ExportView(db, v);
    assert Map((v: ProfileView) => ExportView(end, v), View(db, src.id))
        == Map((v: ProfileView) => ExportView(db, v), View(db, src.id));
    assert end.dists[|db.dists|] in end.dists;
  }

  /** Every parent link of a copy leads to a copy. */
  lemma CloneParentsStayInside(db: Db, src: DistRow, name: string, p: ProfileRow)
    requires Valid(db)
    requires p in ProfilesOf(Cloned(db, src, name).profiles, db.next) && p.inherits.Some?
    ensures exists q :: q in ProfilesOf(Cloned(db, src, name).profiles, db.next) && q.id == p.inherits.value
  {
    var rows := ProfilesOf(db.profiles, src.id);
    var copies := ClonedRows(rows, db.next);
    FreshProfiles(db.profiles, copies, db.next);
    var i :| 0 <= i < |copies| && copies[i] == p;
    var j := IndexOfId(rows, rows[i].inherits.value);
    assert copies[j] in copies && copies[j].id == p.inherits.value;
  }

  /** `rank` strictly decreases towards parents within `rows`. */
  ghost predicate Ranked(rows: seq<ProfileRow>, rank: map<Id, nat>) {
    && (forall i :: 0 <= i < |rows| ==> rows[i].id in rank)
    && (forall i, j :: 0 <= i < |rows| && 0 <= j < |rows| && rows[i].inherits == Some(rows[j].id)
         ==> rank[rows[j].id] < rank[rows[i].id])
  }

  /** The inheritance links among `rows` contain no cycle. */
  ghost predicate Acyclic(rows: seq<ProfileRow>) {
    exists rank :: Ranked(rows, rank)
  }

  /** Two lists of rows have the same links between positions. */
  ghost predicate SameLinks(a: seq<ProfileRow>, b: seq<ProfileRow>) {
    && |a| == |b|
    && forall i, j :: 0 <= i < |a| && 0 <= j < |a| ==>
         (a[i].inherits == Some(a[j].id) <==> b[i].inherits == Some(b[j].id))
  }

  lemma SameLinksAcyclic(a: seq<ProfileRow>, b: seq<ProfileRow>)
    requires SameLinks(a, b) && DistinctIds(b) && Acyclic(a)
    ensures Acyclic(b)
  {
    var rank :| Ranked(a, rank);
    var rank' := MovedRank(a, b, rank);
    forall i | 0 <= i < |b| ensures b[i].id in rank' && rank'[b[i].id] == rank[a[i].id] {
      MovedRankIs(a, b, rank, i);
    }
    assert Ranked(b, rank');
  }

  /** The ranks of `a` for the rows of `b` at the same positions. */
  function MovedRank(a: seq<ProfileRow>, b: seq<ProfileRow>, rank: map<Id, nat>): map<Id, nat> {
    var ids := set p | p in b :: p.id;
    map k | k in ids :: RankAt(a, rank, IndexOfId(b, k))
  }

  lemma MovedRankIs(a: seq<ProfileRow>, b: seq<ProfileRow>, rank: map<Id, nat>, i: nat)
    requires |a| == |b| && DistinctIds(b) && Ranked(a, rank) && i < |b|
    ensures var r := MovedRank(a, b, rank); b[i].id in r && r[b[i].id] == rank[a[i].id]
  {
    assert b[i] in b;
    assert IndexOfId(b, b[i].id) == i;
  }

  lemma ClonedLinks(rows: seq<ProfileRow>, dist: Id)
    requires DistinctIds(rows)
    ensures SameLinks(rows, ClonedRows(rows, dist)) && DistinctIds(ClonedRows(rows, dist))
  {
    var copies := ClonedRows(rows, dist);
    forall i, j | 0 <= i < |rows| && 0 <= j < |rows|
      ensures rows[i].inherits == Some(rows[j].id) <==> copies[i].inherits == Some(copies[j].id)
    {
      assert IndexOfId(rows, rows[j].id) == j;
    }
  }

  /** A clone inherits in cycles exactly when its source does. */
  lemma CloneAcyclic(db: Db, src: DistRow, name: string)
    requires Valid(db)
    ensures Acyclic(ProfilesOf(Cloned(db, src, name).profiles, db.next)) <==> Acyclic(ProfilesOf(db.profiles, src.id))
  {
    var rows := ProfilesOf(db.profiles, src.id);
    var copies := ClonedRows(rows, db.next);
    FreshProfiles(db.profiles, copies, db.next);
    ProfilesOfDistinct(db.profiles, src.id);
    ClonedLinks(rows, db.next);
    if Acyclic(rows) {
      SameLinksAcyclic(rows, copies);
    }
    if Acyclic(copies) {
      SameLinksAcyclic(copies, rows);
    }
  }

  // ---------------------------------------------------------------------
  // An import is acyclic exactly when its document is
  // ---------------------------------------------------------------------

  /** `rank` strictly decreases from a profile of the document to the parent that it names. */
  ghost predicate RankedDoc(ps: seq<ProfileDoc>, rank: map<string, nat>)
    requires NamedProfiles(ps)
  {
    && (forall i :: 0 <= i < |ps| ==> ps[i].name.value in rank)
    && (forall i, j :: 0 <= i < |ps| && 0 <= j < |ps| && ps[i].inherits == ps[j].name
         ==> rank[ps[j].name.value] < rank[ps[i].name.value])
  }

  ghost predicate AcyclicDoc(ps: seq<ProfileDoc>)
    requires NamedProfiles(ps)
  {
    exists rank :: RankedDoc(ps, rank)
  }

  lemma ImportedLink(classes: seq<ClassRow>, ps: seq<ProfileDoc>, dist: Id, i: nat, j: nat)
    requires NamedProfiles(ps) && DistinctNames(ps) && ClassesKnown(classes, ps, |ps|) && ParentsKnown(ps, |ps|)
    requires i < |ps| && j < |ps|
    ensures var rows := ImportedRows(classes, ps, dist);
      rows[i].inherits == Some(rows[j].id) <==> ps[i].inherits == ps[j].name
  {
    assert ParentKnown(ps, ps[i]) && Truthy(ps[j].name);
  }

  /** `rows` has the links of the document. */
  ghost predicate LinkedAs(rows: seq<ProfileRow>, ps: seq<ProfileDoc>)
    requires NamedProfiles(ps)
  {
    && |rows| == |ps|
    && forall i, j :: 0 <= i < |ps| && 0 <= j < |ps| ==> (rows[i].inherits == Some(rows[j].id) <==> ps[i].inherits == ps[j].name)
  }

  lemma ImportedLinks(classes: seq<ClassRow>, ps: seq<ProfileDoc>, dist: Id)
    requires NamedProfiles(ps) && DistinctNames(ps) && ClassesKnown(classes, ps, |ps|) && ParentsKnown(ps, |ps|)
    ensures LinkedAs(ImportedRows(classes, ps, dist), ps)
  {
    forall i, j | 0 <= i < |ps| && 0 <= j < |ps|
      ensures var rows := ImportedRows(classes, ps, dist); rows[i].inherits == Some(rows[j].id) <==> ps[i].inherits == ps[j].name
    {
      ImportedLink(classes, ps, dist, i, j);
    }
  }

  function RankOf(ps: seq<ProfileDoc>, rank: map<string, nat>, i: int): nat {
    if 0 <= i < |ps| && NameText(ps[i]) in rank then rank[NameText(ps[i])] else 0
  }

  lemma RankRows(rows: seq<ProfileRow>, ps: seq<ProfileDoc>, dist: Id)
    requires NamedProfiles(ps) && LinkedAs(rows, ps) && AcyclicDoc(ps)
    requires forall i :: 0 <= i < |rows| ==> rows[i].id == dist + 1 + i
    ensures Acyclic(rows)
  {
    var rank :| RankedDoc(ps, rank);
    var ids := set p | p in rows :: p.id;
    var rank' := map k | k in ids :: RankOf(ps, rank, k - dist - 1);
    forall i | 0 <= i < |rows| ensures rows[i].id in rank' && rank'[rows[i].id] == rank[ps[i].name.value] {
      assert rows[i] in rows;
    }
    forall i, j | 0 <= i < |rows| && 0 <= j < |rows| && rows[i].inherits == Some(rows[j].id)
      ensures rank'[rows[j].id] < rank'[rows[i].id]
    {
      assert ps[i].inherits == ps[j].name;
    }
    assert Ranked(rows, rank');
  }

  function RankAt(rows: seq<ProfileRow>, rank: map<Id, nat>, i: nat): nat {
    if i < |rows| && rows[i].id in rank then rank[rows[i].id] else 0
  }

  function DocRank(rows: seq<ProfileRow>, ps: seq<ProfileDoc>, rank: map<Id, nat>): map<string, nat> {
    var names := set p | p in ps :: NameText(p);
    map n | n in names :: RankAt(rows, rank, IndexOfName(ps, n))
  }

  lemma DocRankIs(rows: seq<ProfileRow>, ps: seq<ProfileDoc>, rank: map<Id, nat>, i: nat)
    requires NamedProfiles(ps) && DistinctNames(ps) && |rows| == |ps| && Ranked(rows, rank) && i < |ps|
    ensures var r := DocRank(rows, ps, rank); ps[i].name.value in r && r[ps[i].name.value] == rank[rows[i].id]
  {
    assert ps[i] in ps && NameText(ps[i]) == ps[i].name.value;
    assert IndexOfName(ps, ps[i].name.value) == i;
  }

  lemma RankDoc(rows: seq<ProfileRow>, ps: seq<ProfileDoc>)
    requires NamedProfiles(ps) && DistinctNames(ps) && LinkedAs(rows, ps) && Acyclic(rows)
    ensures AcyclicDoc(ps)
  {
    var rank :| Ranked(rows, rank);
    forall i | 0 <= i < |ps| ensures ps[i].name.value in DocRank(rows, ps, rank) {
      DocRankIs(rows, ps, rank, i);
    }
    forall i, j | 0 <= i < |ps| && 0 <= j < |ps| && ps[i].inherits == ps[j].name
      ensures DocRank(rows, ps, rank)[ps[j].name.value] < DocRank(rows, ps, rank)[ps[i].name.value]
    {
      DocRankIs(rows, ps, rank, i);
      DocRankIs(rows, ps, rank, j);
      assert rows[i].inherits == Some(rows[j].id);
    }
    assert RankedDoc(ps, DocRank(rows, ps, rank));
  }

  /** The imported profiles inherit without a cycle exactly when the document does; nothing else about the
      import checks it. */
  lemma ImportAcyclicExactly(db: Db, doc: Doc, overwrite: bool)
    requires Valid(db) && Importable(db, doc, overwrite)
    ensures Acyclic(ProfilesOf(Imported(db, doc, overwrite).profiles, db.next)) <==> AcyclicDoc(ProfileDocs(doc))
  {
    var ps := ProfileDocs(doc);
    var added := ImportedRows(db.classes, ps, db.next);
    BaseBelowCounter(db, doc.metadata.value.name.value);
    FreshProfiles(WithoutName(db, doc.metadata.value.name.value).profiles, added, db.next);
    ImportedLinks(db.classes, ps, db.next);
    if AcyclicDoc(ps) {
      RankRows(added, ps, db.next);
    }
    if Acyclic(added) {
      RankDoc(added, ps);
    }
  }

  lemma OwnParentIsCycle(ps: seq<ProfileDoc>, i: nat)
    requires NamedProfiles(ps) && i < |ps| && ps[i].inherits == ps[i].name
    ensures !AcyclicDoc(ps)
  {
    forall rank ensures !RankedDoc(ps, rank) {
    }
  }

  /** A one-profile document that inherits from itself imports into the empty store. */
  lemma CyclicDocumentImports() returns (db: Db, doc: Doc)
    ensures Valid(db) && Importable(db, doc, false)
    ensures !Acyclic(ProfilesOf(Imported(db, doc, false).profiles, db.next))
  {
    var p := ProfileDoc(Some("p"), Some("p"), None, NoInputs);
    db := Db(0, [], [], [], []);
    doc := Doc(Some(API_VERSION), Some(KIND), Some(Metadata(Some("d"), None, Absent, None, None)), ProfileList([p]));
    var ps := ProfileDocs(doc);
    assert ps == [p] && IndexOfName(ps, "p") == 0;
    ImportAcyclicExactly(db, doc, false);
    OwnParentIsCycle(ps, 0);
  }

  // ---------------------------------------------------------------------
  // Frame: other distributions export as before
  // ---------------------------------------------------------------------

  lemma OthersKeepsProfiles(rows: seq<ProfileRow>, gone: Id, dist: Id)
    requires gone != dist
    ensures ProfilesOf(Filter(rows, OwnedByOther(gone)), dist) == ProfilesOf(rows, dist)
  {
    FilterWithin(rows, OwnedByOther(gone), OwnedBy(dist));
  }

  lemma SameProfilesSameExport(db: Db, end: Db, d: DistRow)
    requires end.classes == db.classes
    requires ProfilesOf(end.profiles, d.id) == ProfilesOf(db.profiles, d.id)
    ensures ExportRow(end, d) == ExportRow(db, d)
  {
    var rows := SortedProfiles(db, d.id);
    assert forall i :: 0 <= i < |rows| ==> ExportProfile(end, rows, rows[i]) == ExportProfile(db, rows, rows[i]);
    assert ExportProfiles(end, d.id) == ExportProfiles(db, d.id);
  }

  lemma NewRowsKeepProfiles(kept: seq<ProfileRow>, added: seq<ProfileRow>, fresh_: Id, dist: Id)
    requires dist != fresh_
    requires forall i :: 0 <= i < |added| ==> added[i].dist == fresh_
    ensures ProfilesOf(kept + added, dist) == ProfilesOf(kept, dist)
  {
    FilterAppend(kept, added, OwnedBy(dist));
    FilterNone(added, OwnedBy(dist));
    assert ProfilesOf(kept, dist) + [] == ProfilesOf(kept, dist);
  }

  /** An import, overwriting or not, leaves the export of every other distribution unchanged. */
  lemma ImportLeavesOthers(db: Db, doc: Doc, overwrite: bool, d: DistRow)
    requires Valid(db) && Importable(db, doc, overwrite)
    requires d in db.dists && d.name != doc.metadata.value.name.value
    ensures d in Imported(db, doc, overwrite).dists
    ensures ExportRow(Imported(db, doc, overwrite), d) == ExportRow(db, d)
  {
    var end := Imported(db, doc, overwrite);
    var name := doc.metadata.value.name.value;
    var base := WithoutName(db, name);
    var gone := DistByName(db.dists, name);
    if gone.Some? {
      var i :| 0 <= i < |db.dists| && db.dists[i] == d;
      var j :| 0 <= j < |db.dists| && db.dists[j] == gone.value;
      assert d.id != gone.value.id;
      OthersKeepsProfiles(db.profiles, gone.value.id, d.id);
      FilterMembers(db.dists, OtherThan(gone.value.id));
    }
    NewRowsKeepProfiles(base.profiles, ImportedRows(db.classes, ProfileDocs(doc), db.next), db.next, d.id);
    SameProfilesSameExport(db, end, d);
  }

  lemma CloneLeavesOthers(db: Db, src: DistRow, name: string, d: DistRow)
    requires Valid(db) && d in db.dists
    ensures d in Cloned(db, src, name).dists
    ensures ExportRow(Cloned(db, src, name), d) == ExportRow(db, d)
  {
    NewRowsKeepProfiles(db.profiles, ClonedRows(ProfilesOf(db.profiles, src.id), db.next), db.next, d.id);
    SameProfilesSameExport(db, Cloned(db, src, name), d);
  }

  lemma DeleteLeavesOthers(db: Db, gone: Id, d: DistRow)
    requires d in db.dists && d.id != gone
    ensures d in Deleted(db, gone).dists
    ensures ExportRow(Deleted(db, gone), d) == ExportRow(db, d)
  {
    FilterMembers(db.dists, OtherThan(gone));
    OthersKeepsProfiles(db.profiles, gone, d.id);
    SameProfilesSameExport(db, Deleted(db, gone), d);
  }

  // ---------------------------------------------------------------------
  // Deleting a clone undoes the clone
  // ---------------------------------------------------------------------

  /** Selecting everything but what was just appended. */
  lemma FilterUndoesAppend<T(!new)>(kept: seq<T>, added: seq<T>, p: T -> bool)
    requires (forall x :: x in kept ==> p(x)) && (forall x :: x in added ==> !p(x))
    ensures Filter(kept + added, p) == kept
  {
    FilterAppend(kept, added, p);
    FilterAll(kept, p);
    FilterNone(added, p);
    assert kept + [] == kept;
  }

  /** Deleting a fresh clone is allowed and restores every row of every table. */
  lemma DeleteUndoesClone(db: Db, src: DistRow, name: string)
    requires Valid(db)
    ensures db.next !in Cloned(db, src, name).builds
    ensures Deleted(Cloned(db, src, name), db.next) == db.(next := Cloned(db, src, name).next)
  {
    FilterUndoesAppend(db.profiles, ClonedRows(ProfilesOf(db.profiles, src.id), db.next), OwnedByOther(db.next));
    FilterUndoesAppend(db.dists, [src.(id := db.next, name := name)], OtherThan(db.next));
  }

  // ---------------------------------------------------------------------
  // Builds and their distributions
  // ---------------------------------------------------------------------

  /** Removing a distribution leaves a build without its distribution exactly when it has builds. */
  lemma DeletedBuildsExactly(db: Db, gone: Id)
    requires BuildsKnown(db)
    ensures BuildsKnown(Deleted(db, gone)) <==> gone !in db.builds
  {
    FilterMembers(db.dists, OtherThan(gone));
    if gone !in db.builds {
      forall b | b in db.builds ensures exists d :: d in Deleted(db, gone).dists && d.id == b {
        var d :| d in db.dists && d.id == b;
        assert d in Deleted(db, gone).dists;
      }
    }
  }

  /** A delete refuses what has builds; an overwriting import removes it all the same, and then, and only
      then, builds are left without their distribution. */
  lemma ImportKeepsBuildsExactly(db: Db, doc: Doc, overwrite: bool)
    requires Valid(db) && Importable(db, doc, overwrite) && BuildsKnown(db)
    ensures var old_ := DistByName(db.dists, doc.metadata.value.name.value);
      BuildsKnown(Imported(db, doc, overwrite)) <==> old_.None? || old_.value.id !in db.builds
  {
    var name := doc.metadata.value.name.value;
    var base, end, old_ := WithoutName(db, name), Imported(db, doc, overwrite), DistByName(db.dists, name);
    if old_.Some? {
      DeletedBuildsExactly(db, old_.value.id);
    }
    assert BuildsKnown(end) <==> BuildsKnown(base) by {
      AddedDistHasNoBuilds(base, end, end.dists[|base.dists|]);
    }
  }

  lemma AddedDistHasNoBuilds(base: Db, end: Db, added: DistRow)
    requires end.builds == base.builds && end.dists == base.dists + [added] && added.id !in base.builds
    ensures BuildsKnown(end) <==> BuildsKnown(base)
  {
    if BuildsKnown(base) {
      forall b | b in end.builds ensures exists d :: d in end.dists && d.id == b {
        var d :| d in base.dists && d.id == b;
        assert d in end.dists;
      }
    }
    if BuildsKnown(end) {
      forall b | b in base.builds ensures exists d :: d in base.dists && d.id == b {
        var d :| d in end.dists && d.id == b;
        assert d != added && d in base.dists;
      }
    }
  }
}
