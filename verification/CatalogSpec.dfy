/** The catalog seeder as a log of get-or-create steps, with the closed forms of its final state. */
module CatalogSpec {
  import opened Wrappers
  import opened Tables

  datatype DistVal = DistVal(description: Option<string>, channel: string, cls: Option<Id>)
  datatype PkgVal = PkgVal(namespace: Option<string>, kind: Option<string>, layer: Option<string>)

  /** `other` holds the non-null profile columns that the seeder never writes. */
  datatype ProfVal = ProfVal(board: Option<Id>, kernel: Option<Id>, toolchain: Option<Id>,
                             packageSet: Option<Id>, other: map<string, Id>)

  /** The tables the seeder touches; `next` counts the generated keys. */
  datatype Db = Db(
    next: nat,
    dists: Table<string, DistVal>,
    pkgs: Table<string, PkgVal>,
    versions: Table<(Id, string, Id), string>,
    groups: Table<(Id, string), string>,
    members: Table<(Id, Id), ()>,
    sets: Table<(Id, string), string>,
    setMembers: Table<(Id, string, Option<Id>), ()>,
    profiles: Table<(Id, string), ProfVal>)

  /** Reference tables read once before the files are processed. */
  datatype Lookups = Lookups(
    archs: map<string, Id>,
    boards: map<string, Id>,
    kernels: map<(string, string), Id>,
    toolchains: map<string, Id>,
    classes: map<string, Id>)

  datatype PkgDecl = PkgDecl(name: string, kind: Option<string>, layer: Option<string>)
  datatype ProfDecl = ProfDecl(name: string, board: Option<string>, kernel: Option<(string, string)>, toolchain: Option<string>)

  /** A set entry that is not a mapping has no groups and no profiles. */
  datatype SetDecl = SetDecl(name: string, groups: seq<string>, profiles: seq<ProfDecl>)
  datatype GroupDecl = GroupDecl(name: string, members: seq<string>)
  datatype Doc = Doc(
    name: Option<string>,
    description: Option<string>,
    channel: Option<string>,
    cls: Option<string>,
    arch: Option<string>,
    packages: seq<PkgDecl>,
    groups: seq<GroupDecl>,
    sets: seq<SetDecl>)

  /** `m.get(key or "") or None` */
  function Lookup(m: map<string, Id>, key: Option<string>): Option<Id> {
    var k := Or(key, "");
    if k in m && m[k] != Blank then Some(m[k]) else None
  }

  function LookupKernel(m: map<(string, string), Id>, spec: Option<(string, string)>): Option<Id> {
    if spec.Some? && spec.value in m then Some(m[spec.value]) else None
  }

  function LookupArch(m: map<string, Id>, arch: Option<string>): Id {
    var a := Or(arch, "aarch64");
    if a in m then m[a] else Blank
  }

  // ---------------------------------------------------------------------
  // The three update disciplines
  // ---------------------------------------------------------------------

  /** An existing row is left alone. */
  function KeepOld<V>(had: V, got: V): V {
    had
  }

  /** An existing distribution only gains a class that it lacks. */
  function AdoptClass(had: DistVal, got: DistVal): DistVal {
    if had.cls.None? then had.(cls := got.cls) else had
  }

  function Prefer(got: Option<Id>, had: Option<Id>): Option<Id> {
    if got.Some? then got else had
  }

  /** An existing profile takes every attribute the declaration resolves. */
  function Overlay(had: ProfVal, got: ProfVal): ProfVal {
    ProfVal(Prefer(got.board, had.board), Prefer(got.kernel, had.kernel),
            Prefer(got.toolchain, had.toolchain), Prefer(got.packageSet, had.packageSet), had.other)
  }

  lemma DisciplinesAreBands()
    ensures Band(AdoptClass) && Band(Overlay)
    ensures Band(KeepOld<PkgVal>) && Band(KeepOld<string>) && Band(KeepOld<()>)
  {
  }

  // ---------------------------------------------------------------------
  // One step
  // ---------------------------------------------------------------------

  function PutDist(db: Db, name: string, v: DistVal): Db {
    var t := Put(db.dists, Uuid(db.next), name, v, AdoptClass);
    db.(dists := t, next := if Present(db.dists, name) then db.next else db.next + 1)
  }

  function PutPackage(db: Db, name: string, v: PkgVal): Db {
    var t := Put(db.pkgs, Uuid(db.next), name, v, KeepOld);
    db.(pkgs := t, next := if Present(db.pkgs, name) then db.next else db.next + 1)
  }

  function PutVersion(db: Db, pkg: Id, version: string, arch: Id): Db {
    var t := Put(db.versions, Uuid(db.next), (pkg, version, arch), "available", KeepOld);
    db.(versions := t, next := if Present(db.versions, (pkg, version, arch)) then db.next else db.next + 1)
  }

  function PutGroup(db: Db, dist: Id, name: string, description: string): Db {
    var t := Put(db.groups, Uuid(db.next), (dist, name), description, KeepOld);
    db.(groups := t, next := if Present(db.groups, (dist, name)) then db.next else db.next + 1)
  }

  function PutMember(db: Db, group: Id, pkg: Id): Db {
    db.(members := Put(db.members, Blank, (group, pkg), (), KeepOld))
  }

  function PutSet(db: Db, dist: Id, name: string, description: string): Db {
    var t := Put(db.sets, Uuid(db.next), (dist, name), description, KeepOld);
    db.(sets := t, next := if Present(db.sets, (dist, name)) then db.next else db.next + 1)
  }

  function PutSetMember(db: Db, set_: Id, group: Id): Db {
    var k := (set_, "group", Some(group));
    var t := Put(db.setMembers, Uuid(db.next), k, (), KeepOld);
    db.(setMembers := t, next := if Present(db.setMembers, k) then db.next else db.next + 1)
  }

  function PutProfile(db: Db, dist: Id, name: string, v: ProfVal): Db {
    var t := Put(db.profiles, Uuid(db.next), (dist, name), v, Overlay);
    db.(profiles := t, next := if Present(db.profiles, (dist, name)) then db.next else db.next + 1)
  }

  datatype Op =
    | EnsureDist(dist: string, row: DistVal)
    | EnsurePackage(pkg: string, decl: PkgVal)
    | EnsureVersion(pkg: string, arch: Id)
    | EnsureGroup(dist: string, group: string)
    | EnsureMember(dist: string, group: string, pkg: string)
    | EnsureSet(dist: string, set_: string)
    | EnsureSetMember(dist: string, set_: string, group: string)
    | EnsureProfile(dist: string, set_: string, profile: string,
                    board: Option<Id>, kernel: Option<Id>, toolchain: Option<Id>)

  function DistId(db: Db, dist: string): Id { IdOf(db.dists, dist) }
  function PkgId(db: Db, pkg: string): Id { IdOf(db.pkgs, pkg) }
  function GroupId(db: Db, dist: string, group: string): Id { IdOf(db.groups, (DistId(db, dist), group)) }
  function SetId(db: Db, dist: string, set_: string): Id { IdOf(db.sets, (DistId(db, dist), set_)) }

  function Step(db: Db, op: Op): Db {
    match op
    case EnsureDist(d, row) => PutDist(db, d, row)
    case EnsurePackage(p, decl) => PutPackage(db, p, decl)
    case EnsureVersion(p, arch) => PutVersion(db, PkgId(db, p), "latest", arch)
    case EnsureGroup(d, g) => PutGroup(db, DistId(db, d), g, d + " " + g)
    case EnsureMember(d, g, p) => PutMember(db, GroupId(db, d, g), PkgId(db, p))
    case EnsureSet(d, s) => PutSet(db, DistId(db, d), s, d + " " + s)
    case EnsureSetMember(d, s, g) => PutSetMember(db, SetId(db, d, s), GroupId(db, d, g))
    case EnsureProfile(d, s, p, board, kernel, toolchain) =>
      PutProfile(db, DistId(db, d), p, ProfVal(board, kernel, toolchain, Some(SetId(db, d, s)), map[]))
  }

  function Run(db: Db, ops: seq<Op>): Db
    decreases ops
  {
    if ops == [] then db else Run(Step(db, ops[0]), ops[1..])
  }

  lemma {:induction false} RunAppend(db: Db, a: seq<Op>, b: seq<Op>)
    ensures Run(db, a + b) == Run(Run(db, a), b)
    decreases a
  {
    if a == [] {
      assert a + b == b;
    } else {
      assert (a + b)[0] == a[0] && (a + b)[1..] == a[1..] + b;
      RunAppend(Step(db, a[0]), a[1..], b);
    }
  }

  lemma RunSnoc(db: Db, a: seq<Op>, op: Op)
    ensures Run(db, a + [op]) == Step(Run(db, a), op)
  {
    RunAppend(db, a, [op]);
    assert [op][1..] == [];
    assert Run(Run(db, a), [op]) == Run(Step(Run(db, a), op), []);
  }

  // ---------------------------------------------------------------------
  // The steps a list of documents asks for
  // ---------------------------------------------------------------------

  function PackageOps(packages: seq<PkgDecl>, arch: Id): seq<Op> {
    if packages == [] then []
    else
      var p := packages[|packages| - 1];
      PackageOps(packages[..|packages| - 1], arch)
        + [EnsurePackage(p.name, PkgVal(None, Some(Or(p.kind, "system")), Some(Or(p.layer, "system"))))]
        + [EnsureVersion(p.name, arch)]
  }

  function Declared(packages: seq<PkgDecl>): set<string> {
    set p | p in packages :: p.name
  }

  function MemberOps(dist: string, group: string, members: seq<string>, declared: set<string>): seq<Op> {
    if members == [] then []
    else
      var m := members[|members| - 1];
      MemberOps(dist, group, members[..|members| - 1], declared)
        + (if m in declared then [EnsureMember(dist, group, m)] else [])
  }

  function GroupOps(dist: string, groups: seq<GroupDecl>, declared: set<string>): seq<Op> {
    if groups == [] then []
    else
      var g := groups[|groups| - 1];
      GroupOps(dist, groups[..|groups| - 1], declared)
        + [EnsureGroup(dist, g.name)] + MemberOps(dist, g.name, g.members, declared)
  }

  function DeclaredGroups(groups: seq<GroupDecl>): set<string> {
    set g | g in groups :: g.name
  }

  function SetMemberOps(dist: string, set_: string, names: seq<string>, declared: set<string>): seq<Op> {
    if names == [] then []
    else
      var g := names[|names| - 1];
      SetMemberOps(dist, set_, names[..|names| - 1], declared)
        + (if g in declared then [EnsureSetMember(dist, set_, g)] else [])
  }

  function ProfileOps(dist: string, set_: string, profiles: seq<ProfDecl>, lk: Lookups): seq<Op> {
    if profiles == [] then []
    else
      var p := profiles[|profiles| - 1];
      ProfileOps(dist, set_, profiles[..|profiles| - 1], lk)
        + [EnsureProfile(dist, set_, p.name, Lookup(lk.boards, p.board), LookupKernel(lk.kernels, p.kernel),
                         Lookup(lk.toolchains, p.toolchain))]
  }

  function OneSetOps(dist: string, s: SetDecl, declared: set<string>, lk: Lookups): seq<Op> {
    [EnsureSet(dist, s.name)] + SetMemberOps(dist, s.name, s.groups, declared)
      + ProfileOps(dist, s.name, s.profiles, lk)
  }

  function SetOps(dist: string, sets: seq<SetDecl>, declared: set<string>, lk: Lookups): seq<Op> {
    if sets == [] then []
    else
      SetOps(dist, sets[..|sets| - 1], declared, lk) + OneSetOps(dist, sets[|sets| - 1], declared, lk)
  }

  function DistDecl(doc: Doc, lk: Lookups): DistVal {
    DistVal(doc.description, Or(doc.channel, "dev"), Lookup(lk.classes, doc.cls))
  }

  /** A document without a name is skipped. */
  function DocOps(doc: Doc, lk: Lookups): seq<Op> {
    if doc.name.None? then []
    else
      var d := doc.name.value;
      [EnsureDist(d, DistDecl(doc, lk))]
        + PackageOps(doc.packages, LookupArch(lk.archs, doc.arch))
        + GroupOps(d, doc.groups, Declared(doc.packages))
        + SetOps(d, doc.sets, DeclaredGroups(doc.groups), lk)
  }

  function CatalogOps(docs: seq<Doc>, lk: Lookups): seq<Op> {
    if docs == [] then []
    else CatalogOps(docs[..|docs| - 1], lk) + DocOps(docs[|docs| - 1], lk)
  }

  /** The state of the tables after seeding `docs`. */
  function Seeded(db: Db, docs: seq<Doc>, lk: Lookups): Db {
    Run(db, CatalogOps(docs, lk))
  }

  // ---------------------------------------------------------------------
  // The upserts of a run, table by table, with references resolved in `db`
  // ---------------------------------------------------------------------

  datatype Log = Log(
    dists: seq<(string, DistVal)>,
    pkgs: seq<(string, PkgVal)>,
    versions: seq<((Id, string, Id), string)>,
    groups: seq<((Id, string), string)>,
    members: seq<((Id, Id), ())>,
    sets: seq<((Id, string), string)>,
    setMembers: seq<((Id, string, Option<Id>), ())>,
    profiles: seq<((Id, string), ProfVal)>)

  const NO_LOG := Log([], [], [], [], [], [], [], [])

  function Entry(db: Db, op: Op): Log {
    match op
    case EnsureDist(d, row) => NO_LOG.(dists := [(d, row)])
    case EnsurePackage(p, decl) => NO_LOG.(pkgs := [(p, decl)])
    case EnsureVersion(p, arch) => NO_LOG.(versions := [((PkgId(db, p), "latest", arch), "available")])
    case EnsureGroup(d, g) => NO_LOG.(groups := [((DistId(db, d), g), d + " " + g)])
    case EnsureMember(d, g, p) => NO_LOG.(members := [((GroupId(db, d, g), PkgId(db, p)), ())])
    case EnsureSet(d, s) => NO_LOG.(sets := [((DistId(db, d), s), d + " " + s)])
    case EnsureSetMember(d, s, g) => NO_LOG.(setMembers := [((SetId(db, d, s), "group", Some(GroupId(db, d, g))), ())])
    case EnsureProfile(d, s, p, board, kernel, toolchain) =>
      NO_LOG.(profiles := [((DistId(db, d), p), ProfVal(board, kernel, toolchain, Some(SetId(db, d, s)), map[]))])
  }

  function Join(a: Log, b: Log): Log {
    Log(a.dists + b.dists, a.pkgs + b.pkgs, a.versions + b.versions, a.groups + b.groups,
        a.members + b.members, a.sets + b.sets, a.setMembers + b.setMembers, a.profiles + b.profiles)
  }

  function LogOf(db: Db, ops: seq<Op>): Log {
    if ops == [] then NO_LOG else Join(Entry(db, ops[0]), LogOf(db, ops[1..]))
  }

  /** Every table evolves by its part of the log, and one key is generated per new row. */
  ghost predicate DbEvolves(d0: Db, d1: Db, log: Log) {
    && Evolves(d0.dists, d1.dists, log.dists, AdoptClass)
    && Evolves(d0.pkgs, d1.pkgs, log.pkgs, KeepOld<PkgVal>)
    && Evolves(d0.versions, d1.versions, log.versions, KeepOld<string>)
    && Evolves(d0.groups, d1.groups, log.groups, KeepOld<string>)
    && Evolves(d0.members, d1.members, log.members, KeepOld<()>)
    && Evolves(d0.sets, d1.sets, log.sets, KeepOld<string>)
    && Evolves(d0.setMembers, d1.setMembers, log.setMembers, KeepOld<()>)
    && Evolves(d0.profiles, d1.profiles, log.profiles, Overlay)
    && d1.next - KeyedRows(d1) == d0.next - KeyedRows(d0)
  }

  function KeyedRows(db: Db): nat {
    |db.dists| + |db.pkgs| + |db.versions| + |db.groups| + |db.sets| + |db.setMembers| + |db.profiles|
  }

  lemma DbEvolvesRefl(d: Db)
    ensures DbEvolves(d, d, NO_LOG)
  {
  }

  lemma DbEvolvesTrans(d0: Db, d1: Db, d2: Db, a: Log, b: Log)
    requires DbEvolves(d0, d1, a) && DbEvolves(d1, d2, b)
    ensures DbEvolves(d0, d2, Join(a, b))
  {
    EvolvesTrans(d0.dists, d1.dists, d2.dists, a.dists, b.dists, AdoptClass);
    EvolvesTrans(d0.pkgs, d1.pkgs, d2.pkgs, a.pkgs, b.pkgs, KeepOld<PkgVal>);
    EvolvesTrans(d0.versions, d1.versions, d2.versions, a.versions, b.versions, KeepOld<string>);
    EvolvesTrans(d0.groups, d1.groups, d2.groups, a.groups, b.groups, KeepOld<string>);
    EvolvesTrans(d0.members, d1.members, d2.members, a.members, b.members, KeepOld<()>);
    EvolvesTrans(d0.sets, d1.sets, d2.sets, a.sets, b.sets, KeepOld<string>);
    EvolvesTrans(d0.setMembers, d1.setMembers, d2.setMembers, a.setMembers, b.setMembers, KeepOld<()>);
    EvolvesTrans(d0.profiles, d1.profiles, d2.profiles, a.profiles, b.profiles, Overlay);
  }

  lemma StepEvolves(db: Db, op: Op)
    ensures DbEvolves(db, Step(db, op), Entry(db, op))
  {
    match op
    case EnsureDist(d, row) => DistEvolves(db, d, row);
    case EnsurePackage(p, decl) => PackageEvolves(db, p, decl);
    case EnsureVersion(p, arch) => VersionEvolves(db, p, arch);
    case EnsureGroup(d, g) => GroupEvolves(db, d, g);
    case EnsureMember(d, g, p) => MemberEvolves(db, d, g, p);
    case EnsureSet(d, s) => SetEvolves(db, d, s);
    case EnsureSetMember(d, s, g) => SetMemberEvolves(db, d, s, g);
    case EnsureProfile(_, _, _, _, _, _) => ProfileEvolves(db, op);
  }

  lemma DistEvolves(db: Db, d: string, row: DistVal)
    ensures var op := EnsureDist(d, row); DbEvolves(db, Step(db, op), Entry(db, op))
  {
    DbEvolvesRefl(db);
    PutEvolves(db.dists, Uuid(db.next), d, row, AdoptClass);
  }

  lemma PackageEvolves(db: Db, p: string, decl: PkgVal)
    ensures var op := EnsurePackage(p, decl); DbEvolves(db, Step(db, op), Entry(db, op))
  {
    DbEvolvesRefl(db);
    PutEvolves(db.pkgs, Uuid(db.next), p, decl, KeepOld);
  }

  lemma VersionEvolves(db: Db, p: string, arch: Id)
    ensures var op := EnsureVersion(p, arch); DbEvolves(db, Step(db, op), Entry(db, op))
  {
    DbEvolvesRefl(db);
    PutEvolves(db.versions, Uuid(db.next), (PkgId(db, p), "latest", arch), "available", KeepOld);
  }

  lemma GroupEvolves(db: Db, d: string, g: string)
    ensures var op := EnsureGroup(d, g); DbEvolves(db, Step(db, op), Entry(db, op))
  {
    DbEvolvesRefl(db);
    PutEvolves(db.groups, Uuid(db.next), (DistId(db, d), g), d + " " + g, KeepOld);
  }

  lemma MemberEvolves(db: Db, d: string, g: string, p: string)
    ensures var op := EnsureMember(d, g, p); DbEvolves(db, Step(db, op), Entry(db, op))
  {
    DbEvolvesRefl(db);
    PutEvolves(db.members, Blank, (GroupId(db, d, g), PkgId(db, p)), (), KeepOld);
  }

  lemma SetEvolves(db: Db, d: string, s: string)
    ensures var op := EnsureSet(d, s); DbEvolves(db, Step(db, op), Entry(db, op))
  {
    DbEvolvesRefl(db);
    PutEvolves(db.sets, Uuid(db.next), (DistId(db, d), s), d + " " + s, KeepOld);
  }

  lemma SetMemberEvolves(db: Db, d: string, s: string, g: string)
    ensures var op := EnsureSetMember(d, s, g); DbEvolves(db, Step(db, op), Entry(db, op))
  {
    DbEvolvesRefl(db);
    PutEvolves(db.setMembers, Uuid(db.next), (SetId(db, d, s), "group", Some(GroupId(db, d, g))), (), KeepOld);
  }

  lemma ProfileEvolves(db: Db, op: Op)
    requires op.EnsureProfile?
    ensures DbEvolves(db, Step(db, op), Entry(db, op))
  {
    DbEvolvesRefl(db);
    var EnsureProfile(d, s, p, board, kernel, toolchain) := op;
    PutEvolves(db.profiles, Uuid(db.next), (DistId(db, d), p),
               ProfVal(board, kernel, toolchain, Some(SetId(db, d, s)), map[]), Overlay);
  }

  // ---------------------------------------------------------------------
  // References are resolved when they are used, and stay resolved
  // ---------------------------------------------------------------------

  predicate HasDist(db: Db, d: string) { Present(db.dists, d) }
  predicate HasPkg(db: Db, p: string) { Present(db.pkgs, p) }
  predicate HasGroup(db: Db, d: string, g: string) { HasDist(db, d) && Present(db.groups, (DistId(db, d), g)) }
  predicate HasSet(db: Db, d: string, s: string) { HasDist(db, d) && Present(db.sets, (DistId(db, d), s)) }

  predicate Resolved(db: Db, op: Op) {
    match op
    case EnsureDist(_, _) => true
    case EnsurePackage(_, _) => true
    case EnsureVersion(p, _) => HasPkg(db, p)
    case EnsureGroup(d, _) => HasDist(db, d)
    case EnsureMember(d, g, p) => HasGroup(db, d, g) && HasPkg(db, p)
    case EnsureSet(d, _) => HasDist(db, d)
    case EnsureSetMember(d, s, g) => HasSet(db, d, s) && HasGroup(db, d, g)
    case EnsureProfile(d, s, _, _, _, _) => HasSet(db, d, s)
  }

  /** Every step of the run finds the rows it refers to. */
  predicate Scoped(db: Db, ops: seq<Op>)
    decreases ops
  {
    ops == [] || (Resolved(db, ops[0]) && Scoped(Step(db, ops[0]), ops[1..]))
  }

  ghost predicate Keeps(d0: Db, d1: Db) {
    && (forall d :: HasDist(d0, d) ==> HasDist(d1, d) && DistId(d1, d) == DistId(d0, d))
    && (forall p :: HasPkg(d0, p) ==> HasPkg(d1, p) && PkgId(d1, p) == PkgId(d0, p))
    && (forall d, g :: HasGroup(d0, d, g) ==> HasGroup(d1, d, g) && GroupId(d1, d, g) == GroupId(d0, d, g))
    && (forall d, s :: HasSet(d0, d, s) ==> HasSet(d1, d, s) && SetId(d1, d, s) == SetId(d0, d, s))
  }

  lemma EvolvesKeeps(d0: Db, d1: Db, log: Log)
    requires DbEvolves(d0, d1, log)
    ensures Keeps(d0, d1)
  {
    forall d | HasDist(d0, d) ensures HasDist(d1, d) && DistId(d1, d) == DistId(d0, d) {
      EvolvesKeepsIds(d0.dists, d1.dists, log.dists, AdoptClass, d);
    }
    forall p | HasPkg(d0, p) ensures HasPkg(d1, p) && PkgId(d1, p) == PkgId(d0, p) {
      EvolvesKeepsIds(d0.pkgs, d1.pkgs, log.pkgs, KeepOld<PkgVal>, p);
    }
    forall d, g | HasGroup(d0, d, g) ensures HasGroup(d1, d, g) && GroupId(d1, d, g) == GroupId(d0, d, g) {
      EvolvesKeepsIds(d0.groups, d1.groups, log.groups, KeepOld<string>, (DistId(d0, d), g));
    }
    forall d, s | HasSet(d0, d, s) ensures HasSet(d1, d, s) && SetId(d1, d, s) == SetId(d0, d, s) {
      EvolvesKeepsIds(d0.sets, d1.sets, log.sets, KeepOld<string>, (DistId(d0, d), s));
    }
  }

  lemma StepKeeps(db: Db, op: Op)
    ensures Keeps(db, Step(db, op))
  {
    StepEvolves(db, op);
    EvolvesKeeps(db, Step(db, op), Entry(db, op));
  }

  lemma {:induction false} RunKeeps(db: Db, ops: seq<Op>)
    ensures Keeps(db, Run(db, ops))
    decreases ops
  {
    if ops != [] {
      StepKeeps(db, ops[0]);
      RunKeeps(Step(db, ops[0]), ops[1..]);
    }
  }

  lemma KeepsResolution(d0: Db, d1: Db, op: Op)
    requires Keeps(d0, d1) && Resolved(d0, op)
    ensures Resolved(d1, op) && Entry(d1, op) == Entry(d0, op)
  {
  }

  lemma {:induction false} ScopedResolves(db: Db, ops: seq<Op>, end: Db)
    requires Scoped(db, ops) && Keeps(Run(db, ops), end)
    ensures forall op :: op in ops ==> Resolved(end, op)
    decreases ops
  {
    if ops != [] {
      RunKeeps(db, ops);
      KeepsResolution(db, end, ops[0]);
      ScopedResolves(Step(db, ops[0]), ops[1..], end);
      assert forall op :: op in ops ==> op == ops[0] || op in ops[1..];
    }
  }

  /** A scoped run evolves the tables by its log, resolved in the final state. */
  lemma {:induction false} RunEvolves(db: Db, ops: seq<Op>, end: Db)
    requires Scoped(db, ops)
    requires Keeps(Run(db, ops), end)
    ensures DbEvolves(db, Run(db, ops), LogOf(end, ops))
    decreases ops
  {
    if ops == [] {
      DbEvolvesRefl(db);
    } else {
      var mid := Step(db, ops[0]);
      RunKeeps(db, ops);
      KeepsResolution(db, end, ops[0]);
      StepEvolves(db, ops[0]);
      RunEvolves(mid, ops[1..], end);
      DbEvolvesTrans(db, mid, Run(mid, ops[1..]), Entry(db, ops[0]), LogOf(end, ops[1..]));
    }
  }

  lemma {:induction false} ResolvedIsScoped(db: Db, ops: seq<Op>)
    requires forall op :: op in ops ==> Resolved(db, op)
    ensures Scoped(db, ops)
    decreases ops
  {
    if ops != [] {
      StepKeeps(db, ops[0]);
      forall op | op in ops[1..] ensures Resolved(Step(db, ops[0]), op) {
        KeepsResolution(db, Step(db, ops[0]), op);
      }
      ResolvedIsScoped(Step(db, ops[0]), ops[1..]);
    }
  }

  lemma {:induction false} SameLog(d0: Db, d1: Db, ops: seq<Op>)
    requires Keeps(d0, d1)
    requires forall op :: op in ops ==> Resolved(d0, op)
    ensures LogOf(d1, ops) == LogOf(d0, ops)
  {
    if ops != [] {
      KeepsResolution(d0, d1, ops[0]);
      SameLog(d0, d1, ops[1..]);
    }
  }

  /** Running a scoped list of steps again leaves every table, row and key counter as it was. */
  lemma RunTwice(db: Db, ops: seq<Op>)
    requires Scoped(db, ops)
    ensures Run(Run(db, ops), ops) == Run(db, ops)
  {
    var d1 := Run(db, ops);
    var d2 := Run(d1, ops);
    RunEvolves(db, ops, d1);
    ScopedResolves(db, ops, d1);
    ResolvedIsScoped(d1, ops);
    RunKeeps(d1, ops);
    RunEvolves(d1, ops, d2);
    SameLog(d1, d2, ops);
    var log := LogOf(d1, ops);
    DisciplinesAreBands();
    ReplayIsIdentity(db.dists, d1.dists, d2.dists, log.dists, AdoptClass);
    ReplayIsIdentity(db.pkgs, d1.pkgs, d2.pkgs, log.pkgs, KeepOld);
    ReplayIsIdentity(db.versions, d1.versions, d2.versions, log.versions, KeepOld);
    ReplayIsIdentity(db.groups, d1.groups, d2.groups, log.groups, KeepOld);
    ReplayIsIdentity(db.members, d1.members, d2.members, log.members, KeepOld);
    ReplayIsIdentity(db.sets, d1.sets, d2.sets, log.sets, KeepOld);
    ReplayIsIdentity(db.setMembers, d1.setMembers, d2.setMembers, log.setMembers, KeepOld);
    ReplayIsIdentity(db.profiles, d1.profiles, d2.profiles, log.profiles, Overlay);
  }

  // ---------------------------------------------------------------------
  // The steps of a catalog are scoped, whatever the tables hold
  // ---------------------------------------------------------------------

  lemma {:induction false} ScopedAppend(db: Db, a: seq<Op>, b: seq<Op>)
    requires Scoped(db, a) && Scoped(Run(db, a), b)
    ensures Scoped(db, a + b)
    decreases a
  {
    if a == [] {
      assert a + b == b;
    } else {
      assert (a + b)[0] == a[0] && (a + b)[1..] == a[1..] + b;
      ScopedAppend(Step(db, a[0]), a[1..], b);
    }
  }

  lemma ScopedSnoc(db: Db, a: seq<Op>, op: Op)
    requires Scoped(db, a) && Resolved(Run(db, a), op)
    ensures Scoped(db, a + [op])
    ensures Run(db, a + [op]) == Step(Run(db, a), op)
  {
    RunSnoc(db, a, op);
    assert [op][1..] == [];
    assert Scoped(Step(Run(db, a), op), []);
    ScopedAppend(db, a, [op]);
  }

  lemma EnsureCreates(db: Db, op: Op)
    requires Resolved(db, op)
    ensures op.EnsureDist? ==> HasDist(Step(db, op), op.dist)
    ensures op.EnsurePackage? ==> HasPkg(Step(db, op), op.pkg)
    ensures op.EnsureGroup? ==> HasGroup(Step(db, op), op.dist, op.group)
    ensures op.EnsureSet? ==> HasSet(Step(db, op), op.dist, op.set_)
  {
    match op
    case EnsureDist(d, row) =>
      PutEvolves(db.dists, Uuid(db.next), d, row, AdoptClass);
    case EnsurePackage(p, decl) =>
      PutEvolves(db.pkgs, Uuid(db.next), p, decl, KeepOld);
    case EnsureGroup(d, g) =>
      PutEvolves(db.groups, Uuid(db.next), (DistId(db, d), g), d + " " + g, KeepOld);
    case EnsureSet(d, s) =>
      PutEvolves(db.sets, Uuid(db.next), (DistId(db, d), s), d + " " + s, KeepOld);
    case _ =>
  }

  lemma {:induction false} PackageOpsScoped(db: Db, packages: seq<PkgDecl>, arch: Id)
    ensures var ops := PackageOps(packages, arch);
      Scoped(db, ops) && forall p :: p in Declared(packages) ==> HasPkg(Run(db, ops), p)
    decreases packages
  {
    if packages != [] {
      var init := packages[..|packages| - 1];
      var p := packages[|packages| - 1];
      var ops := PackageOps(init, arch);
      var op1 := EnsurePackage(p.name, PkgVal(None, Some(Or(p.kind, "system")), Some(Or(p.layer, "system"))));
      var op2 := EnsureVersion(p.name, arch);
      PackageOpsScoped(db, init, arch);
      ScopedSnoc(db, ops, op1);
      EnsureCreates(Run(db, ops), op1);
      ScopedSnoc(db, ops + [op1], op2);
      StepKeeps(Run(db, ops), op1);
      StepKeeps(Run(db, ops + [op1]), op2);
      assert packages == init + [p];
    }
  }

  lemma {:induction false} MemberOpsScoped(db: Db, d: string, g: string, members: seq<string>, declared: set<string>)
    requires HasGroup(db, d, g)
    requires forall p :: p in declared ==> HasPkg(db, p)
    ensures Scoped(db, MemberOps(d, g, members, declared))
    decreases members
  {
    if members != [] {
      var init := members[..|members| - 1];
      var m := members[|members| - 1];
      var ops := MemberOps(d, g, init, declared);
      MemberOpsScoped(db, d, g, init, declared);
      RunKeeps(db, ops);
      if m in declared {
        ScopedSnoc(db, ops, EnsureMember(d, g, m));
      } else {
        assert ops + [] == ops;
      }
    }
  }

  lemma {:induction false} GroupOpsScoped(db: Db, d: string, groups: seq<GroupDecl>, declared: set<string>)
    requires HasDist(db, d)
    requires forall p :: p in declared ==> HasPkg(db, p)
    ensures var ops := GroupOps(d, groups, declared);
      Scoped(db, ops) && forall g :: g in DeclaredGroups(groups) ==> HasGroup(Run(db, ops), d, g)
    decreases groups
  {
    if groups != [] {
      var init := groups[..|groups| - 1];
      var g := groups[|groups| - 1];
      var ops := GroupOps(d, init, declared);
      var op := EnsureGroup(d, g.name);
      var more := MemberOps(d, g.name, g.members, declared);
      GroupOpsScoped(db, d, init, declared);
      RunKeeps(db, ops);
      ScopedSnoc(db, ops, op);
      EnsureCreates(Run(db, ops), op);
      StepKeeps(Run(db, ops), op);
      MemberOpsScoped(Run(db, ops + [op]), d, g.name, g.members, declared);
      ScopedAppend(db, ops + [op], more);
      RunAppend(db, ops + [op], more);
      RunKeeps(Run(db, ops + [op]), more);
      assert groups == init + [g];
    }
  }

  lemma {:induction false} SetMemberOpsScoped(db: Db, d: string, s: string, names: seq<string>, declared: set<string>)
    requires HasSet(db, d, s)
    requires forall g :: g in declared ==> HasGroup(db, d, g)
    ensures Scoped(db, SetMemberOps(d, s, names, declared))
    decreases names
  {
    if names != [] {
      var init := names[..|names| - 1];
      var g := names[|names| - 1];
      var ops := SetMemberOps(d, s, init, declared);
      SetMemberOpsScoped(db, d, s, init, declared);
      RunKeeps(db, ops);
      if g in declared {
        ScopedSnoc(db, ops, EnsureSetMember(d, s, g));
      } else {
        assert ops + [] == ops;
      }
    }
  }

  lemma {:induction false} ProfileOpsScoped(db: Db, d: string, s: string, profiles: seq<ProfDecl>, lk: Lookups)
    requires HasSet(db, d, s)
    ensures Scoped(db, ProfileOps(d, s, profiles, lk))
    decreases profiles
  {
    if profiles != [] {
      var init := profiles[..|profiles| - 1];
      var p := profiles[|profiles| - 1];
      var ops := ProfileOps(d, s, init, lk);
      ProfileOpsScoped(db, d, s, init, lk);
      RunKeeps(db, ops);
      ScopedSnoc(db, ops, EnsureProfile(d, s, p.name, Lookup(lk.boards, p.board), LookupKernel(lk.kernels, p.kernel),
                                        Lookup(lk.toolchains, p.toolchain)));
    }
  }

  lemma OneSetOpsScoped(db: Db, d: string, s: SetDecl, declared: set<string>, lk: Lookups)
    requires HasDist(db, d)
    requires forall g :: g in declared ==> HasGroup(db, d, g)
    ensures Scoped(db, OneSetOps(d, s, declared, lk))
  {
    var op := EnsureSet(d, s.name);
    var a := SetMemberOps(d, s.name, s.groups, declared);
    var b := ProfileOps(d, s.name, s.profiles, lk);
    assert [] + [op] == [op];
    ScopedSnoc(db, [], op);
    EnsureCreates(db, op);
    StepKeeps(db, op);
    SetMemberOpsScoped(Run(db, [op]), d, s.name, s.groups, declared);
    ScopedAppend(db, [op], a);
    RunAppend(db, [op], a);
    RunKeeps(Run(db, [op]), a);
    ProfileOpsScoped(Run(db, [op] + a), d, s.name, s.profiles, lk);
    ScopedAppend(db, [op] + a, b);
  }

  lemma {:induction false} SetOpsScoped(db: Db, d: string, sets: seq<SetDecl>, declared: set<string>, lk: Lookups)
    requires HasDist(db, d)
    requires forall g :: g in declared ==> HasGroup(db, d, g)
    ensures Scoped(db, SetOps(d, sets, declared, lk))
    decreases sets
  {
    if sets != [] {
      var init := sets[..|sets| - 1];
      var ops := SetOps(d, init, declared, lk);
      SetOpsScoped(db, d, init, declared, lk);
      RunKeeps(db, ops);
      OneSetOpsScoped(Run(db, ops), d, sets[|sets| - 1], declared, lk);
      ScopedAppend(db, ops, OneSetOps(d, sets[|sets| - 1], declared, lk));
    }
  }

  lemma DocOpsScoped(db: Db, doc: Doc, lk: Lookups)
    ensures Scoped(db, DocOps(doc, lk))
  {
    if doc.name.Some? {
      var d := doc.name.value;
      var op := EnsureDist(d, DistDecl(doc, lk));
      var a := PackageOps(doc.packages, LookupArch(lk.archs, doc.arch));
      var b := GroupOps(d, doc.groups, Declared(doc.packages));
      var c := SetOps(d, doc.sets, DeclaredGroups(doc.groups), lk);
      assert [] + [op] == [op];
      ScopedSnoc(db, [], op);
      EnsureCreates(db, op);
      PackageOpsScoped(Run(db, [op]), doc.packages, LookupArch(lk.archs, doc.arch));
      ScopedAppend(db, [op], a);
      RunAppend(db, [op], a);
      RunKeeps(Run(db, [op]), a);
      GroupOpsScoped(Run(db, [op] + a), d, doc.groups, Declared(doc.packages));
      ScopedAppend(db, [op] + a, b);
      RunAppend(db, [op] + a, b);
      RunKeeps(Run(db, [op] + a), b);
      SetOpsScoped(Run(db, [op] + a + b), d, doc.sets, DeclaredGroups(doc.groups), lk);
      ScopedAppend(db, [op] + a + b, c);
    }
  }

  lemma {:induction false} CatalogScoped(db: Db, docs: seq<Doc>, lk: Lookups)
    ensures Scoped(db, CatalogOps(docs, lk))
    decreases docs
  {
    if docs != [] {
      var init := docs[..|docs| - 1];
      CatalogScoped(db, init, lk);
      DocOpsScoped(Run(db, CatalogOps(init, lk)), docs[|docs| - 1], lk);
      ScopedAppend(db, CatalogOps(init, lk), DocOps(docs[|docs| - 1], lk));
    }
  }

  /** Seeding the same catalog twice leaves every table exactly as after the first time. */
  lemma SeedingTwice(db: Db, docs: seq<Doc>, lk: Lookups)
    ensures Seeded(Seeded(db, docs, lk), docs, lk) == Seeded(db, docs, lk)
  {
    CatalogScoped(db, docs, lk);
    RunTwice(db, CatalogOps(docs, lk));
  }
}
