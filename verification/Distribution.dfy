/** Distributions with their profile forests: export, import, clone and delete over committed tables.
    Each operation works on a session copy and publishes it only by committing. */
module Distribution {
  import opened Wrappers
  import opened Ordering
  import opened DocSchema

  type Id = nat

  datatype ClassRow = ClassRow(id: Id, name: string)
  datatype DistRow = DistRow(id: Id, name: string, description: Option<string>, channel: string,
                             cls: Option<Id>, metadata: Option<JsonObject>)

  /** `columns` holds the remaining selections of a profile (board, kernel, toolchain, ...). */
  datatype ProfileRow = ProfileRow(id: Id, dist: Id, name: string, inherits: Option<Id>,
                                   inputs: Option<JsonObject>, cls: Option<Id>, columns: map<string, Id>)

  /** `next` is above every key ever generated or referred to; `builds` lists the distribution of each build. */
  datatype Db = Db(next: Id, classes: seq<ClassRow>, dists: seq<DistRow>, profiles: seq<ProfileRow>, builds: seq<Id>)

  datatype Error = InvalidDocument | NotFound | AlreadyExists | UnknownClass | UnknownParent | NullChannel | HasBuilds

  /** The key-or-name argument of every operation: its text, and the key that the text spells, if any. */
  datatype Ref = Ref(text: string, key: Option<Id>)

  // ---------------------------------------------------------------------
  // Table invariants
  // ---------------------------------------------------------------------

  ghost predicate DistinctRows(rows: seq<ProfileRow>) {
    && (forall i, j :: 0 <= i < j < |rows| ==> rows[i].id != rows[j].id)
    && (forall i, j :: 0 <= i < j < |rows| ==> rows[i].dist != rows[j].dist || rows[i].name != rows[j].name)
  }

  ghost predicate BelowCounter(rows: seq<ProfileRow>, next: Id) {
    forall i :: 0 <= i < |rows| ==>
      rows[i].id < next && rows[i].dist < next && (rows[i].inherits.Some? ==> rows[i].inherits.value < next)
  }

  ghost predicate ValidDists(dists: seq<DistRow>, next: Id) {
    && (forall i, j :: 0 <= i < j < |dists| ==> dists[i].id != dists[j].id && dists[i].name != dists[j].name)
    && (forall i :: 0 <= i < |dists| ==> dists[i].id < next)
  }

  ghost predicate ValidClasses(classes: seq<ClassRow>) {
    forall i, j :: 0 <= i < j < |classes| ==> classes[i].id != classes[j].id && classes[i].name != classes[j].name
  }

  /** Primary keys and unique constraints. */
  ghost predicate Valid(db: Db) {
    && ValidClasses(db.classes)
    && ValidDists(db.dists, db.next)
    && DistinctRows(db.profiles)
    && BelowCounter(db.profiles, db.next)
    && (forall i :: 0 <= i < |db.builds| ==> db.builds[i] < db.next)
  }

  /** Every build belongs to a distribution. */
  ghost predicate BuildsKnown(db: Db) {
    forall b :: b in db.builds ==> exists d :: d in db.dists && d.id == b
  }

  // ---------------------------------------------------------------------
  // Queries
  // ---------------------------------------------------------------------

  function DistById(dists: seq<DistRow>, id: Id): (r: Option<DistRow>)
    ensures r.Some? ==> r.value in dists && r.value.id == id
    ensures r.None? ==> forall i :: 0 <= i < |dists| ==> dists[i].id != id
  {
    if dists == [] then None else if dists[0].id == id then Some(dists[0]) else DistById(dists[1..], id)
  }

  function DistByName(dists: seq<DistRow>, name: string): (r: Option<DistRow>)
    ensures r.Some? ==> r.value in dists && r.value.name == name
    ensures r.None? ==> forall i :: 0 <= i < |dists| ==> dists[i].name != name
  {
    if dists == [] then None else if dists[0].name == name then Some(dists[0]) else DistByName(dists[1..], name)
  }

  /** A row whose key the argument spells wins over a row with the argument as its name. */
  function FindDist(db: Db, ref: Ref): (r: Option<DistRow>)
    ensures r.Some? ==> r.value in db.dists && (Some(r.value.id) == ref.key || r.value.name == ref.text)
    ensures r.Some? && Some(r.value.id) != ref.key ==> forall d :: d in db.dists ==> Some(d.id) != ref.key
    ensures r.None? ==> forall d :: d in db.dists ==> Some(d.id) != ref.key && d.name != ref.text
  {
    var byKey := if ref.key.Some? then DistById(db.dists, ref.key.value) else None;
    if byKey.Some? then byKey else DistByName(db.dists, ref.text)
  }

  function ClassByName(classes: seq<ClassRow>, name: string): (r: Option<Id>)
    ensures r.Some? ==> ClassRow(r.value, name) in classes
    ensures r.None? ==> forall i :: 0 <= i < |classes| ==> classes[i].name != name
  {
    if classes == [] then None else if classes[0].name == name then Some(classes[0].id) else ClassByName(classes[1..], name)
  }

  /** `_class_name_to_id`: no name is no class, an unknown name is an error. */
  function ClassRef(classes: seq<ClassRow>, name: Option<string>): Result<Option<Id>, Error> {
    if !Truthy(name) then Ok(None)
    else
      var c := ClassByName(classes, name.value);
      if c.None? then Err(UnknownClass) else Ok(c)
  }

  function ClassName(classes: seq<ClassRow>, id: Id): (r: Option<string>)
    ensures r.Some? ==> ClassRow(id, r.value) in classes
    ensures r.None? ==> forall i :: 0 <= i < |classes| ==> classes[i].id != id
  {
    if classes == [] then None else if classes[0].id == id then Some(classes[0].name) else ClassName(classes[1..], id)
  }

  function ClassOf(db: Db, cls: Option<Id>): Option<string> {
    if cls.None? then None else ClassName(db.classes, cls.value)
  }

  function OwnedBy(dist: Id): ProfileRow -> bool { (p: ProfileRow) => p.dist == dist }
  function OwnedByOther(dist: Id): ProfileRow -> bool { (p: ProfileRow) => p.dist != dist }
  function OtherThan(id: Id): DistRow -> bool { (d: DistRow) => d.id != id }

  function ProfilesOf(rows: seq<ProfileRow>, dist: Id): seq<ProfileRow> {
    Filter(rows, OwnedBy(dist))
  }

  /** The tables without the distribution `gone` and its profiles. */
  function Deleted(db: Db, gone: Id): Db {
    db.(dists := Filter(db.dists, OtherThan(gone)), profiles := Filter(db.profiles, OwnedByOther(gone)))
  }

  predicate NameOrder(p: ProfileRow, q: ProfileRow) {
    StrLeq(p.name, q.name)
  }

  /** Position of the row with key `id`, `|rows|` when there is none. */
  function IndexOfId(rows: seq<ProfileRow>, id: Id): (i: nat)
    ensures i <= |rows|
    ensures i < |rows| ==> rows[i].id == id
    ensures forall j :: 0 <= j < i ==> rows[j].id != id
  {
    if rows == [] then 0 else if rows[0].id == id then 0 else 1 + IndexOfId(rows[1..], id)
  }

  function NameOfId(rows: seq<ProfileRow>, id: Id): Option<string> {
    var i := IndexOfId(rows, id);
    if i < |rows| then Some(rows[i].name) else None
  }

  // ---------------------------------------------------------------------
  // Export
  // ---------------------------------------------------------------------

  function SortedProfiles(db: Db, dist: Id): seq<ProfileRow> {
    SortBy(ProfilesOf(db.profiles, dist), NameOrder)
  }

  function ParentName(rows: seq<ProfileRow>, p: ProfileRow): Option<string> {
    if p.inherits.None? then None else NameOfId(rows, p.inherits.value)
  }

  function ExportProfile(db: Db, rows: seq<ProfileRow>, p: ProfileRow): ProfileDoc {
    ProfileDoc(Some(p.name), ParentName(rows, p), ClassOf(db, p.cls),
               InputsObject(if p.inputs.None? then map[] else p.inputs.value))
  }

  function ExportProfiles(db: Db, dist: Id): seq<ProfileDoc> {
    var rows := SortedProfiles(db, dist);
    seq(|rows|, i requires 0 <= i < |rows| => ExportProfile(db, rows, rows[i]))
  }

  function ExportRow(db: Db, d: DistRow): Doc {
    Doc(Some(API_VERSION), Some(KIND),
        Some(Metadata(Some(d.name), d.description, Text(d.channel), ClassOf(db, d.cls), None)),
        ProfileList(ExportProfiles(db, d.id)))
  }

  // ---------------------------------------------------------------------
  // What an import stores
  // ---------------------------------------------------------------------

  predicate ClassKnown(classes: seq<ClassRow>, name: Option<string>) {
    ClassRef(classes, name).Ok?
  }

  /** Position of the profile named `name`, `|ps|` when there is none. */
  function IndexOfName(ps: seq<ProfileDoc>, name: string): (i: nat)
    ensures i <= |ps|
    ensures i < |ps| ==> ps[i].ProfileDoc? && ps[i].name == Some(name)
    ensures forall j :: 0 <= j < i ==> !(ps[j].ProfileDoc? && ps[j].name == Some(name))
  {
    if ps == [] then 0 else if ps[0].ProfileDoc? && ps[0].name == Some(name) then 0 else 1 + IndexOfName(ps[1..], name)
  }

  predicate ParentKnown(ps: seq<ProfileDoc>, p: ProfileDoc)
    requires p.ProfileDoc?
  {
    Truthy(p.inherits) ==> IndexOfName(ps, p.inherits.value) < |ps|
  }

  /** The classes of the first `n` profiles resolve. */
  predicate ClassesKnown(classes: seq<ClassRow>, ps: seq<ProfileDoc>, n: nat)
    requires n <= |ps| && NamedProfiles(ps)
  {
    forall i :: 0 <= i < n ==> ClassKnown(classes, ps[i].cls)
  }

  /** The parents of the first `n` profiles are profiles of the same document. */
  predicate ParentsKnown(ps: seq<ProfileDoc>, n: nat)
    requires n <= |ps| && NamedProfiles(ps)
  {
    forall i :: 0 <= i < n ==> ParentKnown(ps, ps[i])
  }

  /** Exactly the documents that import without an error. */
  predicate Importable(db: Db, doc: Doc, overwrite: bool) {
    && WellFormed(doc)
    && var meta := doc.metadata.value;
       var ps := ProfileDocs(doc);
    && (DistByName(db.dists, meta.name.value).None? || overwrite)
    && ClassKnown(db.classes, meta.cls)
    && !meta.channel.Null?
    && ClassesKnown(db.classes, ps, |ps|)
    && ParentsKnown(ps, |ps|)
  }

  /** The tables without the distribution called `name`. */
  function WithoutName(db: Db, name: string): Db {
    var old_ := DistByName(db.dists, name);
    if old_.None? then db
    else Deleted(db, old_.value.id)
  }

  function ImportedRow(classes: seq<ClassRow>, ps: seq<ProfileDoc>, i: nat, dist: Id): ProfileRow
    requires i < |ps| && NamedProfiles(ps)
    requires ClassKnown(classes, ps[i].cls) && ParentKnown(ps, ps[i])
  {
    ProfileRow(dist + 1 + i, dist, ps[i].name.value,
               if Truthy(ps[i].inherits) then Some(dist + 1 + IndexOfName(ps, ps[i].inherits.value)) else None,
               if ps[i].inputs.InputsObject? then Some(ps[i].inputs.fields) else None,
               ClassRef(classes, ps[i].cls).value,
               map[])
  }

  function ImportedDist(classes: seq<ClassRow>, meta: Metadata, id: Id): DistRow
    requires meta.name.Some? && ClassKnown(classes, meta.cls)
  {
    DistRow(id, meta.name.value, meta.description, if meta.channel.Text? then meta.channel.text else "dev",
            ClassRef(classes, meta.cls).value, meta.metadata)
  }

  function ImportedRows(classes: seq<ClassRow>, ps: seq<ProfileDoc>, dist: Id): seq<ProfileRow>
    requires NamedProfiles(ps) && ClassesKnown(classes, ps, |ps|) && ParentsKnown(ps, |ps|)
  {
    seq(|ps|, i requires 0 <= i < |ps| => ImportedRow(classes, ps, i, dist))
  }

  /** The reference is to the class of that name, and to none without a name. */
  ghost predicate Refers(classes: seq<ClassRow>, cls: Option<Id>, name: Option<string>) {
    if Truthy(name) then exists c :: c in classes && c.name == name.value && cls == Some(c.id) else cls.None?
  }

  /** The row holds the header of a document: its texts, its free-form metadata, its class by name, and "dev"
      for a missing channel. */
  ghost predicate Records(classes: seq<ClassRow>, e: DistRow, m: Metadata) {
    && Some(e.name) == m.name && e.description == m.description && e.metadata == m.metadata
    && (m.channel.Text? ==> e.channel == m.channel.text)
    && (m.channel.Absent? ==> e.channel == "dev")
    && Refers(classes, e.cls, m.cls)
  }

  /** The tables after importing `doc`: the new distribution takes key `next`, its profiles the following keys. */
  function Imported(db: Db, doc: Doc, overwrite: bool): Db
    requires Importable(db, doc, overwrite)
  {
    var meta := doc.metadata.value;
    var ps := ProfileDocs(doc);
    var base := WithoutName(db, meta.name.value);
    base.(dists := base.dists + [ImportedDist(db.classes, meta, db.next)],
          profiles := base.profiles + ImportedRows(db.classes, ps, db.next),
          next := db.next + 1 + |ps|)
  }

  // ---------------------------------------------------------------------
  // What a clone stores
  // ---------------------------------------------------------------------

  /** A parent inside the source moves to its copy; a parent elsewhere is dropped. */
  function Remap(rows: seq<ProfileRow>, inherits: Option<Id>, base: Id): Option<Id> {
    if inherits.None? then None
    else
      var j := IndexOfId(rows, inherits.value);
      if j < |rows| then Some(base + j) else None
  }

  function ClonedRow(rows: seq<ProfileRow>, i: nat, dist: Id): ProfileRow
    requires i < |rows|
  {
    rows[i].(id := dist + 1 + i, dist := dist, inherits := Remap(rows, rows[i].inherits, dist + 1))
  }

  function ClonedRows(rows: seq<ProfileRow>, dist: Id): seq<ProfileRow> {
    seq(|rows|, i requires 0 <= i < |rows| => ClonedRow(rows, i, dist))
  }

  function Cloned(db: Db, src: DistRow, name: string): Db {
    var rows := ProfilesOf(db.profiles, src.id);
    db.(dists := db.dists + [src.(id := db.next, name := name)],
        profiles := db.profiles + ClonedRows(rows, db.next),
        next := db.next + 1 + |rows|)
  }

  // ---------------------------------------------------------------------
  // The operations
  // ---------------------------------------------------------------------

  class Store {
    var db: Db

    constructor (db: Db)
      requires Valid(db)
      ensures this.db == db
    {
      this.db := db;
    }

    method Export(ref: Ref) returns (r: Result<Doc, Error>)
      ensures r.Err? ==> r.error == NotFound && forall d :: d in db.dists ==> Some(d.id) != ref.key && d.name != ref.text
      ensures r.Ok? ==> exists d :: d in db.dists && (Some(d.id) == ref.key || d.name == ref.text) && r.value == ExportRow(db, d)
    {
      var d := FindDist(db, ref);
      if d.None? {
        return Err(NotFound);
      }
      return Ok(ExportRow(db, d.value));
    }

    /** Refuses when the distribution has builds; otherwise removes it with all its profiles. */
    method Delete(ref: Ref) returns (r: Result<(), Error>)
      requires Valid(db)
      modifies this
      ensures Valid(db)
      ensures var d := FindDist(old(db), ref);
        if d.None? then r == Err(NotFound) && db == old(db)
        else if d.value.id in old(db).builds then r == Err(HasBuilds) && db == old(db)
        else r == Ok(()) && db == Deleted(old(db), d.value.id)
    {
      var d := FindDist(db, ref);
      if d.None? {
        return Err(NotFound);
      }
      if d.value.id in db.builds {
        return Err(HasBuilds);
      }
      DeleteKeepsValid(db, d.value.id);
      db := db.(profiles := Filter(db.profiles, OwnedByOther(d.value.id)));
      db := db.(dists := Filter(db.dists, OtherThan(d.value.id)));
      return Ok(());
    }

    /** Copies the profiles first, then moves every parent link that stays inside the source. */
    method Clone(ref: Ref, newName: string) returns (r: Result<Id, Error>)
      requires Valid(db)
      modifies this
      ensures Valid(db)
      ensures var src := FindDist(old(db), ref);
        if src.None? then r == Err(NotFound) && db == old(db)
        else if DistByName(old(db).dists, newName).Some? then r == Err(AlreadyExists) && db == old(db)
        else r == Ok(old(db).next) && db == Cloned(old(db), src.value, newName)
      ensures var src := FindDist(old(db), ref); r.Ok? ==>
        exists e :: e in db.dists && e.id == r.value && e.name == newName && e.description == src.value.description
          && e.channel == src.value.channel && e.cls == src.value.cls && e.metadata == src.value.metadata
    {
      var src := FindDist(db, ref);
      if src.None? {
        return Err(NotFound);
      }
      if DistByName(db.dists, newName).Some? {
        return Err(AlreadyExists);
      }
      var s := db;
      var cloneId := s.next;
      s := s.(dists := s.dists + [src.value.(id := cloneId, name := newName)], next := s.next + 1);
      var rows := ProfilesOf(s.profiles, src.value.id);
      ProfilesOfMembers(s.profiles, src.value.id);
      var kept := s.profiles;
      var idMap;
      s, idMap := CopyProfiles(s, rows, cloneId);
      s := LinkCopies(s, kept, rows, idMap, cloneId);
      CloneKeepsValid(db, src.value, newName);
      db := s;
      assert db.dists[|old(db).dists|] in db.dists;
      return Ok(cloneId);
    }

    /** Validates, removes an overwritten distribution, inserts the rows, then links parents by name.
        Any error leaves the committed tables alone. */
    method Import(doc: Doc, overwrite: bool) returns (r: Result<Id, Error>)
      requires Valid(db)
      modifies this
      ensures Valid(db)
      ensures r.Ok? <==> Importable(old(db), doc, overwrite)
      ensures r.Ok? ==> r.value == old(db).next && db == Imported(old(db), doc, overwrite)
      ensures r.Err? ==> db == old(db)
      ensures r.Ok? ==> exists e :: e in db.dists && e.id == r.value && Records(db.classes, e, doc.metadata.value)
    {
      var errors := ValidateDoc(doc);
      if errors != [] {
        return Err(InvalidDocument);
      }
      var meta := doc.metadata.value;
      var name := meta.name.value;
      var ps := ProfileDocs(doc);
      var s := db;
      var existing := DistByName(s.dists, name);
      if existing.Some? {
        if !overwrite {
          return Err(AlreadyExists);
        }
        s := s.(profiles := Filter(s.profiles, OwnedByOther(existing.value.id)));
        s := s.(dists := Filter(s.dists, OtherThan(existing.value.id)));
      }
      BaseBelowCounter(db, name);
      var cls := ClassRef(s.classes, meta.cls);
      if cls.Err? {
        return Err(cls.error);
      }
      if meta.channel.Null? {
        return Err(NullChannel);
      }
      var distId := s.next;
      var row := DistRow(distId, name, meta.description, if meta.channel.Text? then meta.channel.text else "dev",
                         cls.value, meta.metadata);
      s := s.(dists := s.dists + [row], next := s.next + 1);
      var kept := s.profiles;
      var inserted, nameToId := InsertProfiles(s, ps, distId);
      if inserted.Err? {
        return Err(inserted.error);
      }
      var linked := LinkProfiles(inserted.value, kept, ps, nameToId, distId);
      if linked.Err? {
        return Err(linked.error);
      }
      ImportKeepsValid(db, doc, overwrite);
      db := linked.value;
      RowRecords(db.classes, meta, distId);
      assert row in db.dists;
      return Ok(distId);
    }
  }

  lemma RowRecords(classes: seq<ClassRow>, m: Metadata, id: Id)
    requires m.name.Some? && ClassKnown(classes, m.cls)
    ensures Records(classes, ImportedDist(classes, m, id), m)
  {
    ReferenceIsRight(classes, m.cls);
  }

  lemma ReferenceIsRight(classes: seq<ClassRow>, name: Option<string>)
    requires ClassKnown(classes, name)
    ensures Refers(classes, ClassRef(classes, name).value, name)
  {
    if Truthy(name) {
      assert ClassRow(ClassRef(classes, name).value.value, name.value) in classes;
    }
  }

  lemma BaseBelowCounter(db: Db, name: string)
    requires Valid(db)
    ensures BelowCounter(WithoutName(db, name).profiles, db.next)
  {
    var d := DistByName(db.dists, name);
    if d.Some? {
      var rows := Filter(db.profiles, OwnedByOther(d.value.id));
      FilterMembers(db.profiles, OwnedByOther(d.value.id));
      forall i | 0 <= i < |rows|
        ensures rows[i].id < db.next && rows[i].dist < db.next && (rows[i].inherits.Some? ==> rows[i].inherits.value < db.next)
      {
        assert rows[i] in db.profiles;
      }
    }
  }

  // ---------------------------------------------------------------------
  // The two passes of a clone
  // ---------------------------------------------------------------------

  ghost predicate MapsRows(idMap: map<Id, Id>, rows: seq<ProfileRow>, n: nat, dist: Id)
    requires n <= |rows|
  {
    && (forall j :: 0 <= j < n ==> rows[j].id in idMap && idMap[rows[j].id] == dist + 1 + j)
    && (forall q :: q in idMap ==> exists j :: 0 <= j < n && rows[j].id == q)
  }

  /** First pass: a copy of every row without its parent link, and the key map. */
  method CopyProfiles(s: Db, rows: seq<ProfileRow>, dist: Id) returns (copied: Db, idMap: map<Id, Id>)
    requires s.next == dist + 1 && DistinctIds(rows)
    ensures copied == s.(profiles := s.profiles + CopiedRows(rows, |rows|, dist), next := dist + 1 + |rows|)
    ensures MapsRows(idMap, rows, |rows|, dist)
  {
    copied, idMap := s, map[];
    var i := 0;
    while i < |rows|
      invariant 0 <= i <= |rows|
      invariant copied == s.(profiles := s.profiles + CopiedRows(rows, i, dist), next := dist + 1 + i)
      invariant MapsRows(idMap, rows, i, dist)
    {
      var np := rows[i].(id := copied.next, dist := dist, inherits := None);
      copied := copied.(profiles := copied.profiles + [np], next := copied.next + 1);
      idMap := idMap[rows[i].id := np.id];
      assert CopiedRows(rows, i + 1, dist) == CopiedRows(rows, i, dist) + [np];
      i := i + 1;
    }
  }

  /** Second pass: links between copies follow the key map. The copies stand behind the rows `kept` from before. */
  method LinkCopies(s: Db, kept: seq<ProfileRow>, rows: seq<ProfileRow>, idMap: map<Id, Id>, dist: Id)
    returns (linked: Db)
    requires DistinctIds(rows) && MapsRows(idMap, rows, |rows|, dist) && BelowCounter(kept, dist)
    requires s.profiles == kept + CopiedRows(rows, |rows|, dist)
    ensures linked == s.(profiles := kept + ClonedRows(rows, dist))
  {
    linked := s;
    assert LinkedRows(rows, 0, dist) == CopiedRows(rows, |rows|, dist);
    var i := 0;
    while i < |rows|
      invariant 0 <= i <= |rows|
      invariant linked == s.(profiles := kept + LinkedRows(rows, i, dist))
    {
      var inherits := rows[i].inherits;
      LinkCopyStep(kept, rows, i, idMap, dist);
      if inherits.Some? && inherits.value in idMap {
        var at := IndexOfId(linked.profiles, idMap[rows[i].id]);
        if at < |linked.profiles| {
          linked := linked.(profiles := linked.profiles[at := linked.profiles[at].(inherits := Some(idMap[inherits.value]))]);
        }
      }
      i := i + 1;
    }
    assert LinkedRows(rows, |rows|, dist) == ClonedRows(rows, dist);
  }

  ghost function CopiedRows(rows: seq<ProfileRow>, n: nat, dist: Id): seq<ProfileRow>
    requires n <= |rows|
  {
    seq(n, i requires 0 <= i < n => rows[i].(id := dist + 1 + i, dist := dist, inherits := None))
  }

  ghost function LinkedRows(rows: seq<ProfileRow>, n: nat, dist: Id): seq<ProfileRow>
    requires n <= |rows|
  {
    seq(|rows|, i requires 0 <= i < |rows| =>
      if i < n then ClonedRow(rows, i, dist) else rows[i].(id := dist + 1 + i, dist := dist, inherits := None))
  }

  /** Writing one parent link turns the table after `i` links into the table after `i + 1`. */
  lemma LinkCopyStep(kept: seq<ProfileRow>, rows: seq<ProfileRow>, i: nat, idMap: map<Id, Id>, dist: Id)
    requires i < |rows| && BelowCounter(kept, dist)
    requires DistinctIds(rows) && MapsRows(idMap, rows, |rows|, dist)
    ensures rows[i].id in idMap
    ensures var all := kept + LinkedRows(rows, i, dist);
      var at := IndexOfId(all, idMap[rows[i].id]);
      var inherits := rows[i].inherits;
      && at < |all|
      && kept + LinkedRows(rows, i + 1, dist)
         == if inherits.Some? && inherits.value in idMap
            then all[at := all[at].(inherits := Some(idMap[inherits.value]))]
            else all
  {
    MappedCopy(kept, rows, i, idMap, dist);
    MappedLink(rows, rows[i].inherits, idMap, dist);
    LinkedBehind(kept, rows, i, dist);
  }

  lemma MappedCopy(kept: seq<ProfileRow>, rows: seq<ProfileRow>, i: nat, idMap: map<Id, Id>, dist: Id)
    requires i < |rows| && BelowCounter(kept, dist) && MapsRows(idMap, rows, |rows|, dist)
    ensures rows[i].id in idMap && IndexOfId(kept + LinkedRows(rows, i, dist), idMap[rows[i].id]) == |kept| + i
  {
    MappedId(rows, i, idMap, dist);
    LinkedIds(rows, i, dist);
    CopyPosition(kept, LinkedRows(rows, i, dist), dist, i);
  }

  lemma MappedId(rows: seq<ProfileRow>, i: nat, idMap: map<Id, Id>, dist: Id)
    requires i < |rows| && MapsRows(idMap, rows, |rows|, dist)
    ensures rows[i].id in idMap && idMap[rows[i].id] == dist + 1 + i
  {
  }

  lemma LinkedIds(rows: seq<ProfileRow>, n: nat, dist: Id)
    requires n <= |rows|
    ensures |LinkedRows(rows, n, dist)| == |rows|
    ensures forall j :: 0 <= j < |rows| ==> LinkedRows(rows, n, dist)[j].id == dist + 1 + j
  {
  }

  lemma LinkedBehind(kept: seq<ProfileRow>, rows: seq<ProfileRow>, i: nat, dist: Id)
    requires i < |rows|
    ensures var all := kept + LinkedRows(rows, i, dist);
      var link := Remap(rows, rows[i].inherits, dist + 1);
      kept + LinkedRows(rows, i + 1, dist)
        == if link.Some? then all[|kept| + i := all[|kept| + i].(inherits := link)] else all
  {
    LinkedRowsNext(rows, i, dist);
    var before := LinkedRows(rows, i, dist);
    var link := Remap(rows, rows[i].inherits, dist + 1);
    if link.Some? {
      UpdateBehind(kept, before, i, before[i].(inherits := link));
    }
  }

  lemma MappedLink(rows: seq<ProfileRow>, inherits: Option<Id>, idMap: map<Id, Id>, dist: Id)
    requires DistinctIds(rows) && MapsRows(idMap, rows, |rows|, dist)
    ensures Remap(rows, inherits, dist + 1)
         == if inherits.Some? && inherits.value in idMap then Some(idMap[inherits.value]) else None
  {
    if inherits.Some? {
      MappedIndex(rows, inherits.value, idMap, dist);
    }
  }

  lemma LinkedRowsNext(rows: seq<ProfileRow>, i: nat, dist: Id)
    requires i < |rows|
    ensures var before := LinkedRows(rows, i, dist);
      var link := Remap(rows, rows[i].inherits, dist + 1);
      LinkedRows(rows, i + 1, dist) == if link.Some? then before[i := before[i].(inherits := link)] else before
  {
    assert LinkedRows(rows, i + 1, dist) == LinkedRows(rows, i, dist)[i := ClonedRow(rows, i, dist)];
  }

  lemma UpdateBehind<T>(kept: seq<T>, added: seq<T>, i: nat, x: T)
    requires i < |added|
    ensures kept + added[i := x] == (kept + added)[|kept| + i := x]
  {
  }

  lemma MappedIndex(rows: seq<ProfileRow>, q: Id, idMap: map<Id, Id>, dist: Id)
    requires DistinctIds(rows) && MapsRows(idMap, rows, |rows|, dist)
    ensures Remap(rows, Some(q), dist + 1) == if q in idMap then Some(idMap[q]) else None
  {
    if q in idMap {
      var j :| 0 <= j < |rows| && rows[j].id == q;
    }
  }

  /** Freshly added rows are found by key behind all earlier rows. */
  lemma CopyPosition(kept: seq<ProfileRow>, added: seq<ProfileRow>, dist: Id, i: nat)
    requires BelowCounter(kept, dist) && i < |added|
    requires forall j :: 0 <= j < |added| ==> added[j].id == dist + 1 + j
    ensures IndexOfId(kept + added, dist + 1 + i) == |kept| + i
  {
    var all := kept + added;
    assert all[|kept| + i] == added[i];
    assert forall j :: 0 <= j < |kept| ==> all[j] == kept[j];
    assert forall j :: |kept| <= j < |all| ==> all[j] == added[j - |kept|];
    var at := IndexOfId(all, dist + 1 + i);
  }

  // ---------------------------------------------------------------------
  // The two passes of an import
  // ---------------------------------------------------------------------

  ghost predicate MapsNames(nameToId: map<string, Id>, ps: seq<ProfileDoc>, n: nat, dist: Id)
    requires n <= |ps| && NamedProfiles(ps)
  {
    && (forall j :: 0 <= j < n ==> ps[j].name.value in nameToId && nameToId[ps[j].name.value] == dist + 1 + j)
    && (forall m :: m in nameToId ==> exists j :: 0 <= j < n && ps[j].name.value == m)
  }

  /** First pass: one row per profile without its parent link; fails on the first unknown class. */
  method InsertProfiles(s: Db, ps: seq<ProfileDoc>, dist: Id) returns (r: Result<Db, Error>, nameToId: map<string, Id>)
    requires s.next == dist + 1 && NamedProfiles(ps) && DistinctNames(ps)
    ensures r.Ok? <==> ClassesKnown(s.classes, ps, |ps|)
    ensures r.Ok? ==>
      && r.value == s.(profiles := s.profiles + UnlinkedRows(s.classes, ps, |ps|, dist), next := dist + 1 + |ps|)
      && MapsNames(nameToId, ps, |ps|, dist)
  {
    var s' := s;
    nameToId := map[];
    var i := 0;
    while i < |ps|
      invariant 0 <= i <= |ps|
      invariant ClassesKnown(s.classes, ps, i)
      invariant s' == s.(profiles := s.profiles + UnlinkedRows(s.classes, ps, i, dist), next := dist + 1 + i)
      invariant MapsNames(nameToId, ps, i, dist)
    {
      var c := ClassRef(s'.classes, ps[i].cls);
      if c.Err? {
        assert !ClassKnown(s.classes, ps[i].cls);
        return Err(c.error), nameToId;
      }
      var obj := ProfileRow(s'.next, dist, ps[i].name.value, None,
                            if ps[i].inputs.InputsObject? then Some(ps[i].inputs.fields) else None, c.value, map[]);
      s' := s'.(profiles := s'.profiles + [obj], next := s'.next + 1);
      nameToId := nameToId[ps[i].name.value := obj.id];
      assert UnlinkedRows(s.classes, ps, i + 1, dist) == UnlinkedRows(s.classes, ps, i, dist) + [obj];
      i := i + 1;
    }
    return Ok(s'), nameToId;
  }

  /** The row with key `id`, if there is one, takes `parent` as its parent. */
  function WithParent(rows: seq<ProfileRow>, id: Id, parent: Id): seq<ProfileRow> {
    var at := IndexOfId(rows, id);
    if at < |rows| then rows[at := rows[at].(inherits := Some(parent))] else rows
  }

  /** Second pass: parents by name; fails on the first unknown parent. */
  method LinkProfiles(s: Db, kept: seq<ProfileRow>, ps: seq<ProfileDoc>, nameToId: map<string, Id>, dist: Id)
    returns (r: Result<Db, Error>)
    requires NamedProfiles(ps) && DistinctNames(ps) && ClassesKnown(s.classes, ps, |ps|)
    requires MapsNames(nameToId, ps, |ps|, dist) && BelowCounter(kept, dist)
    requires s.profiles == kept + UnlinkedRows(s.classes, ps, |ps|, dist)
    ensures r.Ok? <==> ParentsKnown(ps, |ps|)
    ensures r.Ok? ==> r.value == s.(profiles := kept + ImportedRows(s.classes, ps, dist))
  {
    var rows := s.profiles;
    NothingLinked(s.classes, ps, dist);
    var i := 0;
    while i < |ps|
      invariant 0 <= i <= |ps|
      invariant ParentsKnown(ps, i)
      invariant rows == kept + LinkedDocs(s.classes, ps, i, dist)
    {
      LinkTurn(s.classes, kept, ps, i, nameToId, dist);
      if Truthy(ps[i].inherits) && ps[i].inherits.value !in nameToId {
        return Err(UnknownParent);
      }
      if Truthy(ps[i].inherits) {
        var parent := ps[i].inherits.value;
        rows := WithParent(rows, nameToId[ps[i].name.value], nameToId[parent]);
      }
      i := i + 1;
    }
    AllLinked(s.classes, ps, dist);
    return Ok(s.(profiles := rows));
  }

  /** One turn of the second pass, in terms of the name map. */
  lemma LinkTurn(classes: seq<ClassRow>, kept: seq<ProfileRow>, ps: seq<ProfileDoc>, i: nat, nameToId: map<string, Id>, dist: Id)
    requires i < |ps| && NamedProfiles(ps) && DistinctNames(ps) && ClassesKnown(classes, ps, |ps|)
    requires MapsNames(nameToId, ps, |ps|, dist) && ParentsKnown(ps, i) && BelowCounter(kept, dist)
    ensures ps[i].name.value in nameToId
    ensures Truthy(ps[i].inherits) && ps[i].inherits.value !in nameToId ==> !ParentsKnown(ps, |ps|)
    ensures (Truthy(ps[i].inherits) ==> ps[i].inherits.value in nameToId) ==>
      && ParentsKnown(ps, i + 1)
      && kept + LinkedDocs(classes, ps, i + 1, dist)
         == (var all := kept + LinkedDocs(classes, ps, i, dist);
             if Truthy(ps[i].inherits) then WithParent(all, nameToId[ps[i].name.value], nameToId[ps[i].inherits.value]) else all)
  {
    NextParentKnown(ps, i, nameToId, dist);
    if Truthy(ps[i].inherits) {
      if ps[i].inherits.value in nameToId {
        assert ParentLink(ps, i, dist) == Some(nameToId[ps[i].inherits.value]);
        LinkDocStep(classes, kept, ps, i, dist);
      }
    } else {
      assert ParentLink(ps, i, dist) == None;
      LinkDocStep(classes, kept, ps, i, dist);
    }
  }

  lemma NothingLinked(classes: seq<ClassRow>, ps: seq<ProfileDoc>, dist: Id)
    requires NamedProfiles(ps) && ClassesKnown(classes, ps, |ps|)
    ensures LinkedDocs(classes, ps, 0, dist) == UnlinkedRows(classes, ps, |ps|, dist)
  {
  }

  lemma AllLinked(classes: seq<ClassRow>, ps: seq<ProfileDoc>, dist: Id)
    requires NamedProfiles(ps) && ClassesKnown(classes, ps, |ps|) && ParentsKnown(ps, |ps|)
    ensures LinkedDocs(classes, ps, |ps|, dist) == ImportedRows(classes, ps, dist)
  {
  }

  /** The name map tells where the next profile and its parent are, and whether the parent is known. */
  lemma NextParentKnown(ps: seq<ProfileDoc>, i: nat, nameToId: map<string, Id>, dist: Id)
    requires i < |ps| && NamedProfiles(ps) && DistinctNames(ps) && MapsNames(nameToId, ps, |ps|, dist)
    requires ParentsKnown(ps, i)
    ensures ParentKnown(ps, ps[i]) <==> (Truthy(ps[i].inherits) ==> ps[i].inherits.value in nameToId)
    ensures ParentKnown(ps, ps[i]) ==> ParentsKnown(ps, i + 1)
    ensures !ParentKnown(ps, ps[i]) ==> !ParentsKnown(ps, |ps|)
    ensures ps[i].name.value in nameToId && nameToId[ps[i].name.value] == dist + 1 + i
    ensures Truthy(ps[i].inherits) && ps[i].inherits.value in nameToId ==>
      nameToId[ps[i].inherits.value] == dist + 1 + IndexOfName(ps, ps[i].inherits.value)
  {
    if Truthy(ps[i].inherits) {
      NamedIndex(ps, ps[i].inherits.value, nameToId, dist);
    }
  }

  ghost function UnlinkedRow(classes: seq<ClassRow>, ps: seq<ProfileDoc>, i: nat, dist: Id): ProfileRow
    requires i < |ps| && NamedProfiles(ps) && ClassKnown(classes, ps[i].cls)
  {
    ProfileRow(dist + 1 + i, dist, ps[i].name.value, None,
               if ps[i].inputs.InputsObject? then Some(ps[i].inputs.fields) else None,
               ClassRef(classes, ps[i].cls).value, map[])
  }

  ghost function UnlinkedRows(classes: seq<ClassRow>, ps: seq<ProfileDoc>, n: nat, dist: Id): seq<ProfileRow>
    requires n <= |ps| && NamedProfiles(ps) && ClassesKnown(classes, ps, n)
  {
    seq(n, i requires 0 <= i < n => UnlinkedRow(classes, ps, i, dist))
  }

  ghost function LinkedDocs(classes: seq<ClassRow>, ps: seq<ProfileDoc>, n: nat, dist: Id): seq<ProfileRow>
    requires n <= |ps| && NamedProfiles(ps) && ClassesKnown(classes, ps, |ps|) && ParentsKnown(ps, n)
  {
    seq(|ps|, i requires 0 <= i < |ps| =>
      if i < n then ImportedRow(classes, ps, i, dist) else UnlinkedRow(classes, ps, i, dist))
  }

  /** The key of the parent that the i-th entry names. */
  function ParentLink(ps: seq<ProfileDoc>, i: nat, dist: Id): Option<Id>
    requires i < |ps| && ps[i].ProfileDoc?
  {
    if Truthy(ps[i].inherits) then Some(dist + 1 + IndexOfName(ps, ps[i].inherits.value)) else None
  }

  lemma LinkedDocsNext(classes: seq<ClassRow>, ps: seq<ProfileDoc>, i: nat, dist: Id)
    requires i < |ps| && NamedProfiles(ps) && ClassesKnown(classes, ps, |ps|)
    requires ParentsKnown(ps, i) && ParentKnown(ps, ps[i])
    ensures ParentsKnown(ps, i + 1)
    ensures var before, after := LinkedDocs(classes, ps, i, dist), LinkedDocs(classes, ps, i + 1, dist);
      && (forall j :: 0 <= j < |before| ==> before[j].id == dist + 1 + j)
      && i < |before|
      && after == if ParentLink(ps, i, dist).Some? then before[i := before[i].(inherits := ParentLink(ps, i, dist))] else before
  {
    var before, after := LinkedDocs(classes, ps, i, dist), LinkedDocs(classes, ps, i + 1, dist);
    assert after == before[i := ImportedRow(classes, ps, i, dist)];
  }

  lemma LinkBehind(kept: seq<ProfileRow>, before: seq<ProfileRow>, after: seq<ProfileRow>, dist: Id, i: nat, link: Option<Id>)
    requires BelowCounter(kept, dist) && i < |before|
    requires forall j :: 0 <= j < |before| ==> before[j].id == dist + 1 + j
    requires after == if link.Some? then before[i := before[i].(inherits := link)] else before
    ensures kept + after == if link.Some? then WithParent(kept + before, dist + 1 + i, link.value) else kept + before
  {
    if link.Some? {
      CopyPosition(kept, before, dist, i);
      UpdateBehind(kept, before, i, before[i].(inherits := link));
    }
  }

  /** Writing one parent link turns the table after `i` links into the table after `i + 1`. */
  lemma LinkDocStep(classes: seq<ClassRow>, kept: seq<ProfileRow>, ps: seq<ProfileDoc>, i: nat, dist: Id)
    requires i < |ps| && NamedProfiles(ps) && ClassesKnown(classes, ps, |ps|)
    requires ParentsKnown(ps, i) && ParentKnown(ps, ps[i]) && BelowCounter(kept, dist)
    ensures ParentsKnown(ps, i + 1)
    ensures var all, link := kept + LinkedDocs(classes, ps, i, dist), ParentLink(ps, i, dist);
      kept + LinkedDocs(classes, ps, i + 1, dist) == if link.Some? then WithParent(all, dist + 1 + i, link.value) else all
  {
    LinkedDocsNext(classes, ps, i, dist);
    LinkBehind(kept, LinkedDocs(classes, ps, i, dist), LinkedDocs(classes, ps, i + 1, dist), dist, i, ParentLink(ps, i, dist));
  }

  lemma NamedIndex(ps: seq<ProfileDoc>, name: string, nameToId: map<string, Id>, dist: Id)
    requires NamedProfiles(ps) && DistinctNames(ps) && MapsNames(nameToId, ps, |ps|, dist)
    ensures name in nameToId <==> IndexOfName(ps, name) < |ps|
    ensures name in nameToId ==> nameToId[name] == dist + 1 + IndexOfName(ps, name)
  {
    var i := IndexOfName(ps, name);
    if name in nameToId {
      var j :| 0 <= j < |ps| && ps[j].name.value == name;
      assert ps[j].name == Some(name);
    }
  }

  // ---------------------------------------------------------------------
  // Selecting rows
  // ---------------------------------------------------------------------

  ghost predicate DistinctIds(rows: seq<ProfileRow>) {
    forall i, j :: 0 <= i < j < |rows| ==> rows[i].id != rows[j].id
  }

  function IdsApart(): (ProfileRow, ProfileRow) -> bool { (p: ProfileRow, q: ProfileRow) => p.id != q.id }

  function RowsApart(): (ProfileRow, ProfileRow) -> bool {
    (p: ProfileRow, q: ProfileRow) => p.id != q.id && (p.dist != q.dist || p.name != q.name)
  }

  function DistsApart(): (DistRow, DistRow) -> bool { (d: DistRow, e: DistRow) => d.id != e.id && d.name != e.name }

  lemma ProfilesOfMembers(rows: seq<ProfileRow>, dist: Id)
    ensures forall p :: p in ProfilesOf(rows, dist) <==> p in rows && p.dist == dist
    ensures DistinctIds(rows) ==> DistinctIds(ProfilesOf(rows, dist))
  {
    FilterMembers(rows, OwnedBy(dist));
    if DistinctIds(rows) {
      FilterKeepsPairs(rows, OwnedBy(dist), IdsApart());
      var own, apart := ProfilesOf(rows, dist), IdsApart();
      forall i, j | 0 <= i < j < |own| ensures own[i].id != own[j].id {
        assert apart(own[i], own[j]);
      }
    }
  }

  ghost predicate DistinctNamesOf(rows: seq<ProfileRow>) {
    forall i, j :: 0 <= i < j < |rows| ==> rows[i].name != rows[j].name
  }

  lemma ProfilesOfDistinct(rows: seq<ProfileRow>, dist: Id)
    requires DistinctRows(rows)
    ensures DistinctNamesOf(ProfilesOf(rows, dist)) && DistinctIds(ProfilesOf(rows, dist))
  {
    FilterKeepsPairs(rows, OwnedBy(dist), RowsApart());
    FilterMembers(rows, OwnedBy(dist));
    var own, apart := ProfilesOf(rows, dist), RowsApart();
    forall i, j | 0 <= i < j < |own| ensures own[i].name != own[j].name && own[i].id != own[j].id {
      assert apart(own[i], own[j]) && own[i] in own && own[j] in own;
    }
  }

  lemma ImportedRowsDistinct(classes: seq<ClassRow>, ps: seq<ProfileDoc>, dist: Id)
    requires NamedProfiles(ps) && DistinctNames(ps) && ClassesKnown(classes, ps, |ps|) && ParentsKnown(ps, |ps|)
    ensures DistinctIds(ImportedRows(classes, ps, dist))
    ensures DistinctNamesOf(ImportedRows(classes, ps, dist))
  {
    var rows := ImportedRows(classes, ps, dist);
    forall i, j | 0 <= i < j < |rows| ensures rows[i].name != rows[j].name {
      assert ps[i].name != ps[j].name;
    }
  }

  // ---------------------------------------------------------------------
  // Every operation keeps keys and names unique
  // ---------------------------------------------------------------------

  lemma OthersKeepsInvariant(rows: seq<ProfileRow>, dist: Id, next: Id)
    requires DistinctRows(rows) && BelowCounter(rows, next)
    ensures var kept := Filter(rows, OwnedByOther(dist)); DistinctRows(kept) && BelowCounter(kept, next)
  {
    FilterKeepsPairs(rows, OwnedByOther(dist), RowsApart());
    FilterMembers(rows, OwnedByOther(dist));
    var kept, apart := Filter(rows, OwnedByOther(dist)), RowsApart();
    forall i, j | 0 <= i < j < |kept|
      ensures kept[i].id != kept[j].id && (kept[i].dist != kept[j].dist || kept[i].name != kept[j].name)
    {
      assert apart(kept[i], kept[j]);
    }
    forall i | 0 <= i < |kept|
      ensures kept[i].id < next && kept[i].dist < next && (kept[i].inherits.Some? ==> kept[i].inherits.value < next)
    {
      assert kept[i] in rows;
    }
  }

  lemma OtherDistsKeepsInvariant(dists: seq<DistRow>, id: Id, next: Id)
    requires ValidDists(dists, next)
    ensures ValidDists(Filter(dists, OtherThan(id)), next)
  {
    FilterKeepsPairs(dists, OtherThan(id), DistsApart());
    FilterMembers(dists, OtherThan(id));
    var kept, apart := Filter(dists, OtherThan(id)), DistsApart();
    forall i, j | 0 <= i < j < |kept| ensures kept[i].id != kept[j].id && kept[i].name != kept[j].name {
      assert apart(kept[i], kept[j]);
    }
    forall i | 0 <= i < |kept| ensures kept[i].id < next {
      assert kept[i] in dists;
    }
  }

  lemma AddRowsKeepsInvariant(kept: seq<ProfileRow>, added: seq<ProfileRow>, dist: Id)
    requires DistinctRows(kept) && BelowCounter(kept, dist) && DistinctNamesOf(added)
    requires forall i :: 0 <= i < |added| ==> added[i].id == dist + 1 + i && added[i].dist == dist
    requires forall i :: 0 <= i < |added| && added[i].inherits.Some? ==> added[i].inherits.value < dist + 1 + |added|
    ensures DistinctRows(kept + added) && BelowCounter(kept + added, dist + 1 + |added|)
  {
  }

  lemma AddDistKeepsInvariant(dists: seq<DistRow>, d: DistRow, next: Id)
    requires ValidDists(dists, d.id) && d.id < next
    requires forall i :: 0 <= i < |dists| ==> dists[i].name != d.name
    ensures ValidDists(dists + [d], next)
  {
  }

  lemma DeleteKeepsValid(db: Db, gone: Id)
    requires Valid(db)
    ensures Valid(Deleted(db, gone))
  {
    OthersKeepsInvariant(db.profiles, gone, db.next);
    OtherDistsKeepsInvariant(db.dists, gone, db.next);
  }

  lemma CloneKeepsValid(db: Db, src: DistRow, name: string)
    requires Valid(db) && DistByName(db.dists, name).None?
    ensures Valid(Cloned(db, src, name))
  {
    var rows := ProfilesOf(db.profiles, src.id);
    ProfilesOfDistinct(db.profiles, src.id);
    AddRowsKeepsInvariant(db.profiles, ClonedRows(rows, db.next), db.next);
    AddDistKeepsInvariant(db.dists, src.(id := db.next, name := name), db.next + 1 + |rows|);
  }

  lemma ImportKeepsValid(db: Db, doc: Doc, overwrite: bool)
    requires Valid(db) && Importable(db, doc, overwrite)
    ensures Valid(Imported(db, doc, overwrite))
  {
    var meta, ps := doc.metadata.value, ProfileDocs(doc);
    var base := WithoutName(db, meta.name.value);
    var gone := DistByName(db.dists, meta.name.value);
    if gone.Some? {
      DeleteKeepsValid(db, gone.value.id);
      FilterMembers(db.dists, OtherThan(gone.value.id));
      forall i | 0 <= i < |base.dists| ensures base.dists[i].name != meta.name.value {
        assert base.dists[i] in base.dists;
        var a :| 0 <= a < |db.dists| && db.dists[a] == base.dists[i];
        var b :| 0 <= b < |db.dists| && db.dists[b] == gone.value;
        assert a != b;
      }
    }
    ImportedRowsDistinct(db.classes, ps, db.next);
    AddRowsKeepsInvariant(base.profiles, ImportedRows(db.classes, ps, db.next), db.next);
    AddDistKeepsInvariant(base.dists, ImportedDist(db.classes, meta, db.next), db.next + 1 + |ps|);
  }
}
