/** Closed forms of the seeded tables: which declaration each stored value comes from. */
module CatalogClosedForm {
  import opened Wrappers
  import opened Tables
  import opened CatalogSpec

  // ---------------------------------------------------------------------
  // All declarations of a catalog, in file order
  // ---------------------------------------------------------------------

  function DistDecls(docs: seq<Doc>, lk: Lookups): seq<(string, DistVal)> {
    if docs == [] then []
    else
      var doc := docs[|docs| - 1];
      DistDecls(docs[..|docs| - 1], lk) + (if doc.name.Some? then [(doc.name.value, DistDecl(doc, lk))] else [])
  }

  function PackageDecl(p: PkgDecl): (string, PkgVal) {
    (p.name, PkgVal(None, Some(Or(p.kind, "system")), Some(Or(p.layer, "system"))))
  }

  function PackageDecls(packages: seq<PkgDecl>): seq<(string, PkgVal)> {
    if packages == [] then []
    else PackageDecls(packages[..|packages| - 1]) + [PackageDecl(packages[|packages| - 1])]
  }

  function AllPackageDecls(docs: seq<Doc>): seq<(string, PkgVal)> {
    if docs == [] then []
    else
      var doc := docs[|docs| - 1];
      AllPackageDecls(docs[..|docs| - 1]) + (if doc.name.Some? then PackageDecls(doc.packages) else [])
  }

  /** A profile declaration under distribution `d` and set `s`, with the ids they have in `end`. */
  function ProfileDecls(end: Db, d: string, s: string, profiles: seq<ProfDecl>, lk: Lookups): seq<((Id, string), ProfVal)> {
    if profiles == [] then []
    else
      var p := profiles[|profiles| - 1];
      ProfileDecls(end, d, s, profiles[..|profiles| - 1], lk)
        + [((DistId(end, d), p.name),
            ProfVal(Lookup(lk.boards, p.board), LookupKernel(lk.kernels, p.kernel), Lookup(lk.toolchains, p.toolchain),
                    Some(SetId(end, d, s)), map[]))]
  }

  function SetProfileDecls(end: Db, d: string, sets: seq<SetDecl>, lk: Lookups): seq<((Id, string), ProfVal)> {
    if sets == [] then []
    else
      var s := sets[|sets| - 1];
      SetProfileDecls(end, d, sets[..|sets| - 1], lk) + ProfileDecls(end, d, s.name, s.profiles, lk)
  }

  function AllProfileDecls(end: Db, docs: seq<Doc>, lk: Lookups): seq<((Id, string), ProfVal)> {
    if docs == [] then []
    else
      var doc := docs[|docs| - 1];
      AllProfileDecls(end, docs[..|docs| - 1], lk)
        + (if doc.name.Some? then SetProfileDecls(end, doc.name.value, doc.sets, lk) else [])
  }

  function VersionDecls(end: Db, packages: seq<PkgDecl>, arch: Id): seq<((Id, string, Id), string)> {
    if packages == [] then []
    else
      VersionDecls(end, packages[..|packages| - 1], arch)
        + [((PkgId(end, packages[|packages| - 1].name), "latest", arch), "available")]
  }

  function GroupDecls(end: Db, d: string, groups: seq<GroupDecl>): seq<((Id, string), string)> {
    if groups == [] then []
    else
      var g := groups[|groups| - 1];
      GroupDecls(end, d, groups[..|groups| - 1]) + [((DistId(end, d), g.name), d + " " + g.name)]
  }

  /** Members that the document does not declare as packages are skipped. */
  function MemberDecls(end: Db, d: string, g: string, members: seq<string>, declared: set<string>): seq<((Id, Id), ())> {
    if members == [] then []
    else
      var m := members[|members| - 1];
      MemberDecls(end, d, g, members[..|members| - 1], declared)
        + (if m in declared then [((GroupId(end, d, g), PkgId(end, m)), ())] else [])
  }

  function GroupMemberDecls(end: Db, d: string, groups: seq<GroupDecl>, declared: set<string>): seq<((Id, Id), ())> {
    if groups == [] then []
    else
      var g := groups[|groups| - 1];
      GroupMemberDecls(end, d, groups[..|groups| - 1], declared) + MemberDecls(end, d, g.name, g.members, declared)
  }

  function SetDecls(end: Db, d: string, sets: seq<SetDecl>): seq<((Id, string), string)> {
    if sets == [] then []
    else
      var s := sets[|sets| - 1];
      SetDecls(end, d, sets[..|sets| - 1]) + [((DistId(end, d), s.name), d + " " + s.name)]
  }

  /** Groups that the document does not declare are skipped. */
  function SetGroupDecls(end: Db, d: string, s: string, names: seq<string>, declared: set<string>)
    : seq<((Id, string, Option<Id>), ())>
  {
    if names == [] then []
    else
      var g := names[|names| - 1];
      SetGroupDecls(end, d, s, names[..|names| - 1], declared)
        + (if g in declared then [((SetId(end, d, s), "group", Some(GroupId(end, d, g))), ())] else [])
  }

  function SetMemberDecls(end: Db, d: string, sets: seq<SetDecl>, declared: set<string>): seq<((Id, string, Option<Id>), ())> {
    if sets == [] then []
    else
      var s := sets[|sets| - 1];
      SetMemberDecls(end, d, sets[..|sets| - 1], declared) + SetGroupDecls(end, d, s.name, s.groups, declared)
  }

  /** All that one document declares, table by table, with the ids of `end`. */
  function DocDecls(end: Db, doc: Doc, lk: Lookups): Log {
    if doc.name.None? then NO_LOG
    else
      var d := doc.name.value;
      Log([(d, DistDecl(doc, lk))],
          PackageDecls(doc.packages),
          VersionDecls(end, doc.packages, LookupArch(lk.archs, doc.arch)),
          GroupDecls(end, d, doc.groups),
          GroupMemberDecls(end, d, doc.groups, Declared(doc.packages)),
          SetDecls(end, d, doc.sets),
          SetMemberDecls(end, d, doc.sets, DeclaredGroups(doc.groups)),
          SetProfileDecls(end, d, doc.sets, lk))
  }

  function CatalogDecls(end: Db, docs: seq<Doc>, lk: Lookups): Log {
    if docs == [] then NO_LOG
    else Join(CatalogDecls(end, docs[..|docs| - 1], lk), DocDecls(end, docs[|docs| - 1], lk))
  }

  // ---------------------------------------------------------------------
  // The log of the run is exactly these declarations
  // ---------------------------------------------------------------------

  lemma JoinAssociative(a: Log, b: Log, c: Log)
    ensures Join(Join(a, b), c) == Join(a, Join(b, c))
  {
  }

  lemma JoinNothing(a: Log)
    ensures Join(a, NO_LOG) == a == Join(NO_LOG, a)
  {
  }

  lemma {:induction false} LogAppend(db: Db, a: seq<Op>, b: seq<Op>)
    ensures LogOf(db, a + b) == Join(LogOf(db, a), LogOf(db, b))
  {
    if a == [] {
      assert a + b == b;
      JoinNothing(LogOf(db, b));
    } else {
      assert (a + b)[0] == a[0] && (a + b)[1..] == a[1..] + b;
      LogAppend(db, a[1..], b);
      JoinAssociative(Entry(db, a[0]), LogOf(db, a[1..]), LogOf(db, b));
    }
  }

  lemma OneOpLog(db: Db, op: Op)
    ensures LogOf(db, [op]) == Entry(db, op)
  {
    assert [op][1..] == [];
    JoinNothing(Entry(db, op));
  }

  lemma LogSnoc(db: Db, a: seq<Op>, op: Op)
    ensures LogOf(db, a + [op]) == Join(LogOf(db, a), Entry(db, op))
  {
    LogAppend(db, a, [op]);
    OneOpLog(db, op);
  }

  function PackageLog(pkgs: seq<(string, PkgVal)>, versions: seq<((Id, string, Id), string)>): Log {
    NO_LOG.(pkgs := pkgs, versions := versions)
  }

  function GroupLog(groups: seq<((Id, string), string)>, members: seq<((Id, Id), ())>): Log {
    NO_LOG.(groups := groups, members := members)
  }

  function SetLog(sets: seq<((Id, string), string)>, setMembers: seq<((Id, string, Option<Id>), ())>,
                  profiles: seq<((Id, string), ProfVal)>): Log {
    NO_LOG.(sets := sets, setMembers := setMembers, profiles := profiles)
  }

  lemma JoinPackageLogs(a: Log, b: Log)
    requires a == PackageLog(a.pkgs, a.versions) && b == PackageLog(b.pkgs, b.versions)
    ensures Join(a, b) == PackageLog(a.pkgs + b.pkgs, a.versions + b.versions)
  {
    JoinNothing(NO_LOG);
  }

  lemma JoinGroupLogs(a: Log, b: Log)
    requires a == GroupLog(a.groups, a.members) && b == GroupLog(b.groups, b.members)
    ensures Join(a, b) == GroupLog(a.groups + b.groups, a.members + b.members)
  {
    JoinNothing(NO_LOG);
  }

  lemma JoinSetLogs(a: Log, b: Log)
    requires a == SetLog(a.sets, a.setMembers, a.profiles) && b == SetLog(b.sets, b.setMembers, b.profiles)
    ensures Join(a, b) == SetLog(a.sets + b.sets, a.setMembers + b.setMembers, a.profiles + b.profiles)
  {
    JoinNothing(NO_LOG);
  }

  lemma OnePackageLog(db: Db, p: PkgDecl, arch: Id)
    ensures var op := EnsurePackage(p.name, PkgVal(None, Some(Or(p.kind, "system")), Some(Or(p.layer, "system"))));
      LogOf(db, [op] + [EnsureVersion(p.name, arch)])
        == PackageLog([PackageDecl(p)], [((PkgId(db, p.name), "latest", arch), "available")])
  {
    var op := EnsurePackage(p.name, PkgVal(None, Some(Or(p.kind, "system")), Some(Or(p.layer, "system"))));
    OneOpLog(db, op);
    OneOpLog(db, EnsureVersion(p.name, arch));
    LogAppend(db, [op], [EnsureVersion(p.name, arch)]);
    JoinPackageLogs(Entry(db, op), Entry(db, EnsureVersion(p.name, arch)));
  }

  lemma {:induction false} PackageOpsLog(db: Db, packages: seq<PkgDecl>, arch: Id)
    ensures LogOf(db, PackageOps(packages, arch)) == PackageLog(PackageDecls(packages), VersionDecls(db, packages, arch))
    decreases packages
  {
    if packages != [] {
      var init, p := packages[..|packages| - 1], packages[|packages| - 1];
      var op := EnsurePackage(p.name, PkgVal(None, Some(Or(p.kind, "system")), Some(Or(p.layer, "system"))));
      var one := [op] + [EnsureVersion(p.name, arch)];
      PackageOpsLog(db, init, arch);
      OnePackageLog(db, p, arch);
      assert PackageOps(packages, arch) == PackageOps(init, arch) + one;
      LogAppend(db, PackageOps(init, arch), one);
      JoinPackageLogs(LogOf(db, PackageOps(init, arch)), LogOf(db, one));
    }
  }

  lemma {:induction false} MemberOpsLog(db: Db, d: string, g: string, members: seq<string>, declared: set<string>)
    ensures LogOf(db, MemberOps(d, g, members, declared)) == GroupLog([], MemberDecls(db, d, g, members, declared))
    decreases members
  {
    if members != [] {
      var init, m := members[..|members| - 1], members[|members| - 1];
      var before, decls := MemberOps(d, g, init, declared), MemberDecls(db, d, g, init, declared);
      MemberOpsLog(db, d, g, init, declared);
      if m in declared {
        LogSnoc(db, before, EnsureMember(d, g, m));
        JoinGroupLogs(GroupLog([], decls), Entry(db, EnsureMember(d, g, m)));
      } else {
        assert before + [] == before && decls + [] == decls;
      }
    }
  }

  lemma OneGroupOpsLog(db: Db, d: string, g: GroupDecl, declared: set<string>)
    ensures LogOf(db, [EnsureGroup(d, g.name)] + MemberOps(d, g.name, g.members, declared))
         == GroupLog([((DistId(db, d), g.name), d + " " + g.name)], MemberDecls(db, d, g.name, g.members, declared))
  {
    var op, rest := EnsureGroup(d, g.name), MemberOps(d, g.name, g.members, declared);
    MemberOpsLog(db, d, g.name, g.members, declared);
    OneOpLog(db, op);
    LogAppend(db, [op], rest);
    JoinGroupLogs(Entry(db, op), LogOf(db, rest));
  }

  lemma {:induction false} GroupOpsLog(db: Db, d: string, groups: seq<GroupDecl>, declared: set<string>)
    ensures LogOf(db, GroupOps(d, groups, declared)) == GroupLog(GroupDecls(db, d, groups), GroupMemberDecls(db, d, groups, declared))
    decreases groups
  {
    if groups != [] {
      var init, g := groups[..|groups| - 1], groups[|groups| - 1];
      var before, one := GroupOps(d, init, declared), [EnsureGroup(d, g.name)] + MemberOps(d, g.name, g.members, declared);
      GroupOpsLog(db, d, init, declared);
      OneGroupOpsLog(db, d, g, declared);
      assert GroupOps(d, groups, declared) == before + one;
      LogAppend(db, before, one);
      JoinGroupLogs(LogOf(db, before), LogOf(db, one));
    }
  }

  lemma {:induction false} SetMemberOpsLog(db: Db, d: string, s: string, names: seq<string>, declared: set<string>)
    ensures LogOf(db, SetMemberOps(d, s, names, declared)) == SetLog([], SetGroupDecls(db, d, s, names, declared), [])
    decreases names
  {
    if names != [] {
      var init, g := names[..|names| - 1], names[|names| - 1];
      var before, decls := SetMemberOps(d, s, init, declared), SetGroupDecls(db, d, s, init, declared);
      SetMemberOpsLog(db, d, s, init, declared);
      if g in declared {
        LogSnoc(db, before, EnsureSetMember(d, s, g));
        JoinSetLogs(SetLog([], decls, []), Entry(db, EnsureSetMember(d, s, g)));
      } else {
        assert before + [] == before && decls + [] == decls;
      }
    }
  }

  lemma {:induction false} ProfileOpsLog(db: Db, d: string, s: string, profiles: seq<ProfDecl>, lk: Lookups)
    ensures LogOf(db, ProfileOps(d, s, profiles, lk)) == SetLog([], [], ProfileDecls(db, d, s, profiles, lk))
    decreases profiles
  {
    if profiles != [] {
      var init, p := profiles[..|profiles| - 1], profiles[|profiles| - 1];
      var op := EnsureProfile(d, s, p.name, Lookup(lk.boards, p.board), LookupKernel(lk.kernels, p.kernel),
                              Lookup(lk.toolchains, p.toolchain));
      ProfileOpsLog(db, d, s, init, lk);
      LogSnoc(db, ProfileOps(d, s, init, lk), op);
      JoinSetLogs(LogOf(db, ProfileOps(d, s, init, lk)), Entry(db, op));
    }
  }

  lemma OneSetOpsLog(db: Db, d: string, s: SetDecl, declared: set<string>, lk: Lookups)
    ensures LogOf(db, OneSetOps(d, s, declared, lk))
         == SetLog([((DistId(db, d), s.name), d + " " + s.name)], SetGroupDecls(db, d, s.name, s.groups, declared),
                   ProfileDecls(db, d, s.name, s.profiles, lk))
  {
    var op, b, c := EnsureSet(d, s.name), SetMemberOps(d, s.name, s.groups, declared), ProfileOps(d, s.name, s.profiles, lk);
    SetMemberOpsLog(db, d, s.name, s.groups, declared);
    ProfileOpsLog(db, d, s.name, s.profiles, lk);
    OneOpLog(db, op);
    LogAppend(db, [op], b);
    LogAppend(db, [op] + b, c);
    JoinSetParts(Entry(db, op).sets, LogOf(db, b).setMembers, LogOf(db, c).profiles);
  }

  lemma JoinSetParts(sets: seq<((Id, string), string)>, setMembers: seq<((Id, string, Option<Id>), ())>,
                     profiles: seq<((Id, string), ProfVal)>)
    ensures Join(Join(SetLog(sets, [], []), SetLog([], setMembers, [])), SetLog([], [], profiles)) == SetLog(sets, setMembers, profiles)
  {
    JoinNothing(SetLog(sets, setMembers, profiles));
  }

  lemma {:induction false} SetOpsLog(db: Db, d: string, sets: seq<SetDecl>, declared: set<string>, lk: Lookups)
    ensures LogOf(db, SetOps(d, sets, declared, lk))
         == SetLog(SetDecls(db, d, sets), SetMemberDecls(db, d, sets, declared), SetProfileDecls(db, d, sets, lk))
    decreases sets
  {
    if sets != [] {
      var init, s := sets[..|sets| - 1], sets[|sets| - 1];
      SetOpsLog(db, d, init, declared, lk);
      OneSetOpsLog(db, d, s, declared, lk);
      LogAppend(db, SetOps(d, init, declared, lk), OneSetOps(d, s, declared, lk));
      JoinSetLogs(LogOf(db, SetOps(d, init, declared, lk)), LogOf(db, OneSetOps(d, s, declared, lk)));
    }
  }

  /** The logs of the four parts of a document, side by side. */
  lemma JoinParts(dists: seq<(string, DistVal)>, p: Log, g: Log, s: Log)
    requires p == PackageLog(p.pkgs, p.versions) && g == GroupLog(g.groups, g.members)
    requires s == SetLog(s.sets, s.setMembers, s.profiles)
    ensures Join(Join(Join(NO_LOG.(dists := dists), p), g), s)
         == Log(dists, p.pkgs, p.versions, g.groups, g.members, s.sets, s.setMembers, s.profiles)
  {
    JoinNothing(NO_LOG.(dists := dists));
    JoinNothing(p);
    JoinNothing(g);
    JoinNothing(s);
  }

  lemma DocOpsLog(db: Db, doc: Doc, lk: Lookups)
    ensures LogOf(db, DocOps(doc, lk)) == DocDecls(db, doc, lk)
  {
    if doc.name.Some? {
      var d := doc.name.value;
      var op := EnsureDist(d, DistDecl(doc, lk));
      var b := PackageOps(doc.packages, LookupArch(lk.archs, doc.arch));
      var c := GroupOps(d, doc.groups, Declared(doc.packages));
      var e := SetOps(d, doc.sets, DeclaredGroups(doc.groups), lk);
      PackageOpsLog(db, doc.packages, LookupArch(lk.archs, doc.arch));
      GroupOpsLog(db, d, doc.groups, Declared(doc.packages));
      SetOpsLog(db, d, doc.sets, DeclaredGroups(doc.groups), lk);
      OneOpLog(db, op);
      LogAppend(db, [op], b);
      LogAppend(db, [op] + b, c);
      LogAppend(db, [op] + b + c, e);
      JoinParts([(d, DistDecl(doc, lk))], LogOf(db, b), LogOf(db, c), LogOf(db, e));
    }
  }

  /** The upserts of a run over a catalog are its declarations, table by table and in file order. */
  lemma {:induction false} CatalogLog(db: Db, docs: seq<Doc>, lk: Lookups)
    ensures LogOf(db, CatalogOps(docs, lk)) == CatalogDecls(db, docs, lk)
    decreases docs
  {
    if docs != [] {
      var init := docs[..|docs| - 1];
      CatalogLog(db, init, lk);
      DocOpsLog(db, docs[|docs| - 1], lk);
      LogAppend(db, CatalogOps(init, lk), DocOps(docs[|docs| - 1], lk));
    }
  }

  lemma {:induction false} CatalogParts(db: Db, docs: seq<Doc>, lk: Lookups)
    ensures var log := CatalogDecls(db, docs, lk);
      log.dists == DistDecls(docs, lk) && log.pkgs == AllPackageDecls(docs) && log.profiles == AllProfileDecls(db, docs, lk)
    decreases docs
  {
    if docs != [] {
      CatalogParts(db, docs[..|docs| - 1], lk);
    }
  }

  // ---------------------------------------------------------------------
  // First wins, first non-null wins, last non-null wins
  // ---------------------------------------------------------------------

  /** The stored value, if any, followed by the declared values for key `k` in order. */
  function History<K(==), V>(o: Option<V>, log: seq<(K, V)>, k: K): seq<V> {
    (if o.Some? then [o.value] else []) + Declarations(log, k)
  }

  function Declarations<K(==), V>(log: seq<(K, V)>, k: K): seq<V> {
    if log == [] then []
    else (if log[0].0 == k then [log[0].1] else []) + Declarations(log[1..], k)
  }

  function FirstSome<V>(h: seq<V>, f: V -> Option<Id>): Option<Id> {
    if h == [] then None else if f(h[0]).Some? then f(h[0]) else FirstSome(h[1..], f)
  }

  function LastSome<V>(h: seq<V>, f: V -> Option<Id>): Option<Id> {
    if h == [] then None else Prefer(LastSome(h[1..], f), f(h[0]))
  }

  lemma HistoryStep<K, V>(o: Option<V>, log: seq<(K, V)>, k: K)
    requires log != []
    ensures log[0].0 != k ==> History(o, log, k) == History(o, log[1..], k)
    ensures log[0].0 == k && o.None? ==> History(o, log, k) == History(Some(log[0].1), log[1..], k)
    ensures log[0].0 == k && o.Some? ==>
      History(o, log, k) == [o.value, log[0].1] + Declarations(log[1..], k)
  {
    var rest := Declarations(log[1..], k);
    assert [] + rest == rest;
    if o.Some? {
      assert [o.value] + ([log[0].1] + rest) == [o.value, log[0].1] + rest;
    }
  }

  lemma {:induction false} HistoryPresence<K, V>(o: Option<V>, log: seq<(K, V)>, k: K, merge: (V, V) -> V)
    ensures Folded(o, log, k, merge).Some? <==> History(o, log, k) != []
    decreases log
  {
    if log != [] {
      HistoryPresence(Absorb(o, log[0], k, merge), log[1..], k, merge);
      HistoryStep(o, log, k);
    }
  }

  /** An attribute that the rule never touches comes from the first value. */
  lemma {:induction false} FoldedFirst<K, V(!new), A>(o: Option<V>, log: seq<(K, V)>, k: K, merge: (V, V) -> V, f: V -> A)
    requires forall a, b :: f(merge(a, b)) == f(a)
    requires Folded(o, log, k, merge).Some?
    ensures History(o, log, k) != [] && f(Folded(o, log, k, merge).value) == f(History(o, log, k)[0])
    decreases log
  {
    if log != [] {
      FoldedFirst(Absorb(o, log[0], k, merge), log[1..], k, merge, f);
      HistoryStep(o, log, k);
    }
  }

  lemma {:induction false} FoldedFirstSome<K, V(!new)>(o: Option<V>, log: seq<(K, V)>, k: K, merge: (V, V) -> V, f: V -> Option<Id>)
    requires forall a, b :: f(merge(a, b)) == Prefer(f(a), f(b))
    requires Folded(o, log, k, merge).Some?
    ensures f(Folded(o, log, k, merge).value) == FirstSome(History(o, log, k), f)
    decreases log
  {
    if log != [] {
      FoldedFirstSome(Absorb(o, log[0], k, merge), log[1..], k, merge, f);
      HistoryStep(o, log, k);
      if log[0].0 == k && o.Some? {
        var rest := Declarations(log[1..], k);
        var m := merge(o.value, log[0].1);
        assert ([m] + rest)[1..] == rest;
        assert ([o.value, log[0].1] + rest)[1..] == [log[0].1] + rest;
        assert ([log[0].1] + rest)[1..] == rest;
      }
    } else if o.Some? {
      assert History(o, log, k) == [o.value];
    }
  }

  lemma {:induction false} FoldedLastSome<K, V(!new)>(o: Option<V>, log: seq<(K, V)>, k: K, merge: (V, V) -> V, f: V -> Option<Id>)
    requires forall a, b :: f(merge(a, b)) == Prefer(f(b), f(a))
    requires Folded(o, log, k, merge).Some?
    ensures f(Folded(o, log, k, merge).value) == LastSome(History(o, log, k), f)
    decreases log
  {
    if log != [] {
      FoldedLastSome(Absorb(o, log[0], k, merge), log[1..], k, merge, f);
      HistoryStep(o, log, k);
      if log[0].0 == k && o.Some? {
        var rest := Declarations(log[1..], k);
        var m := merge(o.value, log[0].1);
        assert ([m] + rest)[1..] == rest;
        assert ([o.value, log[0].1] + rest)[1..] == [log[0].1] + rest;
        assert ([log[0].1] + rest)[1..] == rest;
      }
    } else if o.Some? {
      assert History(o, log, k) == [o.value];
    }
  }

  lemma CatalogEvolves(db: Db, docs: seq<Doc>, lk: Lookups)
    ensures var end := Seeded(db, docs, lk);
      && DbEvolves(db, end, CatalogDecls(end, docs, lk))
      && Evolves(db.dists, end.dists, DistDecls(docs, lk), AdoptClass)
      && Evolves(db.pkgs, end.pkgs, AllPackageDecls(docs), KeepOld<PkgVal>)
      && Evolves(db.profiles, end.profiles, AllProfileDecls(end, docs, lk), Overlay)
  {
    var end := Seeded(db, docs, lk);
    CatalogScoped(db, docs, lk);
    RunEvolves(db, CatalogOps(docs, lk), end);
    CatalogLog(end, docs, lk);
    CatalogParts(end, docs, lk);
  }

  /** A package keeps the kind and layer it had, or else those of its first declaration in any file. */
  lemma PackageFirstWins(db: Db, docs: seq<Doc>, lk: Lookups, name: string)
    ensures var h := History(ValueOf(db.pkgs, name), AllPackageDecls(docs), name);
      ValueOf(Seeded(db, docs, lk).pkgs, name) == if h == [] then None else Some(h[0])
  {
    var o, log := ValueOf(db.pkgs, name), AllPackageDecls(docs);
    CatalogEvolves(db, docs, lk);
    HistoryPresence(o, log, name, KeepOld<PkgVal>);
    if Folded(o, log, name, KeepOld<PkgVal>).Some? {
      FoldedFirst(o, log, name, KeepOld<PkgVal>, (v: PkgVal) => v);
    }
  }

  /** A distribution keeps its first description and channel, and its class is the first non-null one. */
  lemma DistributionClassFirstNonNull(db: Db, docs: seq<Doc>, lk: Lookups, name: string)
    ensures var h := History(ValueOf(db.dists, name), DistDecls(docs, lk), name);
      ValueOf(Seeded(db, docs, lk).dists, name)
        == if h == [] then None
           else Some(DistVal(h[0].description, h[0].channel, FirstSome(h, (v: DistVal) => v.cls)))
  {
    var o, log := ValueOf(db.dists, name), DistDecls(docs, lk);
    CatalogEvolves(db, docs, lk);
    HistoryPresence(o, log, name, AdoptClass);
    if Folded(o, log, name, AdoptClass).Some? {
      FoldedFirst(o, log, name, AdoptClass, (v: DistVal) => v.description);
      FoldedFirst(o, log, name, AdoptClass, (v: DistVal) => v.channel);
      FoldedFirstSome(o, log, name, AdoptClass, (v: DistVal) => v.cls);
    }
  }

  /** Each profile attribute is the last non-null one over the stored row and every declaration in
      every set of every file; columns the seeder does not know keep their value. */
  lemma ProfileAttributesLastNonNull(db: Db, docs: seq<Doc>, lk: Lookups, dist: Id, name: string)
    ensures var end := Seeded(db, docs, lk);
      var h := History(ValueOf(db.profiles, (dist, name)), AllProfileDecls(end, docs, lk), (dist, name));
      ValueOf(end.profiles, (dist, name))
        == if h == [] then None
           else Some(ProfVal(LastSome(h, (v: ProfVal) => v.board), LastSome(h, (v: ProfVal) => v.kernel),
                             LastSome(h, (v: ProfVal) => v.toolchain), LastSome(h, (v: ProfVal) => v.packageSet),
                             h[0].other))
  {
    var k := (dist, name);
    var o, log := ValueOf(db.profiles, k), AllProfileDecls(Seeded(db, docs, lk), docs, lk);
    CatalogEvolves(db, docs, lk);
    HistoryPresence(o, log, k, Overlay);
    if Folded(o, log, k, Overlay).Some? {
      FoldedLastSome(o, log, k, Overlay, (v: ProfVal) => v.board);
      FoldedLastSome(o, log, k, Overlay, (v: ProfVal) => v.kernel);
      FoldedLastSome(o, log, k, Overlay, (v: ProfVal) => v.toolchain);
      FoldedLastSome(o, log, k, Overlay, (v: ProfVal) => v.packageSet);
      FoldedFirst(o, log, k, Overlay, (v: ProfVal) => v.other);
    }
  }

  // ---------------------------------------------------------------------
  // Which rows there are
  // ---------------------------------------------------------------------

  /** The table holds the rows it had and those the log declares, and no others; each key has one new row
      at most, and old rows stay where they were. */
  ghost predicate Grown<K(!new), V>(t0: Table<K, V>, t1: Table<K, V>, log: seq<(K, V)>) {
    && (forall k :: Present(t1, k) <==> Present(t0, k) || Declares(log, k))
    && (forall k :: Present(t0, k) ==> IdOf(t1, k) == IdOf(t0, k))
    && (forall i :: |t0| <= i < |t1| ==> Find(t1, t1[i].key) == i)
  }

  lemma EvolvedIsGrown<K(!new), V>(t0: Table<K, V>, t1: Table<K, V>, log: seq<(K, V)>, merge: (V, V) -> V)
    requires Evolves(t0, t1, log, merge)
    ensures Grown(t0, t1, log)
  {
    forall k ensures Present(t1, k) <==> Present(t0, k) || Declares(log, k) {
      FoldedPresence(ValueOf(t0, k), log, k, merge);
    }
    forall k | Present(t0, k) ensures IdOf(t1, k) == IdOf(t0, k) {
      EvolvesKeepsIds(t0, t1, log, merge, k);
    }
  }

  /** After seeding, each of the eight tables holds its earlier rows and one row per declared key. */
  lemma CatalogRows(db: Db, docs: seq<Doc>, lk: Lookups)
    ensures var end := Seeded(db, docs, lk);
      var log := CatalogDecls(end, docs, lk);
      && Grown(db.dists, end.dists, log.dists) && Grown(db.pkgs, end.pkgs, log.pkgs)
      && Grown(db.versions, end.versions, log.versions) && Grown(db.groups, end.groups, log.groups)
      && Grown(db.members, end.members, log.members) && Grown(db.sets, end.sets, log.sets)
      && Grown(db.setMembers, end.setMembers, log.setMembers) && Grown(db.profiles, end.profiles, log.profiles)
  {
    var end := Seeded(db, docs, lk);
    var log := CatalogDecls(end, docs, lk);
    CatalogEvolves(db, docs, lk);
    EvolvedIsGrown(db.dists, end.dists, log.dists, AdoptClass);
    EvolvedIsGrown(db.pkgs, end.pkgs, log.pkgs, KeepOld);
    EvolvedIsGrown(db.versions, end.versions, log.versions, KeepOld);
    EvolvedIsGrown(db.groups, end.groups, log.groups, KeepOld);
    EvolvedIsGrown(db.members, end.members, log.members, KeepOld);
    EvolvedIsGrown(db.sets, end.sets, log.sets, KeepOld);
    EvolvedIsGrown(db.setMembers, end.setMembers, log.setMembers, KeepOld);
    EvolvedIsGrown(db.profiles, end.profiles, log.profiles, Overlay);
  }
}
