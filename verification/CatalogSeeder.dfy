/** The seeding session: loops over files, packages, groups, sets and profiles that add rows and
    update them in place, each proved against the steps of `CatalogSpec`. */
module CatalogSeeder {
  import opened Wrappers
  import opened Tables
  import opened CatalogSpec

  /** Primary keys and distribution names are unique, and generated keys are below the counter. */
  ghost predicate ValidDists(t: Table<string, DistVal>, next: nat) {
    && (forall i, j :: 0 <= i < j < |t| ==> t[i].key != t[j].key && t[i].id != t[j].id)
    && (forall i :: 0 <= i < |t| && t[i].id.Uuid? ==> t[i].id.n < next)
  }

  /** The in-memory name-to-id map mirrors the distribution table. */
  ghost predicate Tracks(distMap: map<string, Id>, db: Db) {
    forall d :: (d in distMap <==> HasDist(db, d)) && (d in distMap ==> distMap[d] == DistId(db, d))
  }

  ghost predicate TracksPkgs(pkgMap: map<string, Id>, db: Db) {
    forall p :: p in pkgMap ==> HasPkg(db, p) && pkgMap[p] == PkgId(db, p)
  }

  ghost predicate TracksGroups(groupObjs: map<string, Id>, dist: string, db: Db) {
    forall g :: g in groupObjs ==> HasGroup(db, dist, g) && groupObjs[g] == GroupId(db, dist, g)
  }

  /** Nothing after the first step of a document touches the distribution rows. */
  predicate SameDists(d0: Db, d1: Db) {
    d0.dists == d1.dists && d0.next <= d1.next
  }

  // ---------------------------------------------------------------------
  // One more iteration of each loop
  // ---------------------------------------------------------------------

  lemma PackagesNext(db: Db, packages: seq<PkgDecl>, i: nat, arch: Id)
    requires i < |packages|
    ensures var p := packages[i];
      var mid := PutPackage(Run(db, PackageOps(packages[..i], arch)), p.name,
                            PkgVal(None, Some(Or(p.kind, "system")), Some(Or(p.layer, "system"))));
      Run(db, PackageOps(packages[..i + 1], arch)) == PutVersion(mid, PkgId(mid, p.name), "latest", arch)
  {
    var p := packages[i];
    var ops := PackageOps(packages[..i], arch);
    var op1 := EnsurePackage(p.name, PkgVal(None, Some(Or(p.kind, "system")), Some(Or(p.layer, "system"))));
    assert packages[..i + 1][..i] == packages[..i];
    RunSnoc(db, ops, op1);
    RunSnoc(db, ops + [op1], EnsureVersion(p.name, arch));
  }

  lemma PackageTracked(db: Db, p: PkgDecl, arch: Id, pkgMap: map<string, Id>, id: Id)
    requires TracksPkgs(pkgMap, db)
    requires id == PkgId(Step(db, EnsurePackage(p.name, PkgVal(None, Some(Or(p.kind, "system")), Some(Or(p.layer, "system"))))), p.name)
    ensures var mid := Step(db, EnsurePackage(p.name, PkgVal(None, Some(Or(p.kind, "system")), Some(Or(p.layer, "system")))));
      TracksPkgs(pkgMap[p.name := id], PutVersion(mid, id, "latest", arch))
  {
    var op := EnsurePackage(p.name, PkgVal(None, Some(Or(p.kind, "system")), Some(Or(p.layer, "system"))));
    StepKeeps(db, op);
    EnsureCreates(db, op);
  }

  lemma MembersNext(db: Db, dist: string, group: string, members: seq<string>, i: nat, declared: set<string>)
    requires i < |members|
    ensures var mid := Run(db, MemberOps(dist, group, members[..i], declared));
      Run(db, MemberOps(dist, group, members[..i + 1], declared))
        == if members[i] in declared then PutMember(mid, GroupId(mid, dist, group), PkgId(mid, members[i])) else mid
  {
    var ops := MemberOps(dist, group, members[..i], declared);
    assert members[..i + 1][..i] == members[..i];
    assert ops + [] == ops;
    RunSnoc(db, ops, EnsureMember(dist, group, members[i]));
  }

  lemma GroupsNext(db: Db, dist: string, groups: seq<GroupDecl>, i: nat, declared: set<string>)
    requires i < |groups|
    ensures var g := groups[i];
      var mid := Run(db, GroupOps(dist, groups[..i], declared));
      Run(db, GroupOps(dist, groups[..i + 1], declared))
        == Run(PutGroup(mid, DistId(mid, dist), g.name, dist + " " + g.name), MemberOps(dist, g.name, g.members, declared))
  {
    var g := groups[i];
    var ops := GroupOps(dist, groups[..i], declared);
    assert groups[..i + 1][..i] == groups[..i];
    RunSnoc(db, ops, EnsureGroup(dist, g.name));
    RunAppend(db, ops + [EnsureGroup(dist, g.name)], MemberOps(dist, g.name, g.members, declared));
  }

  lemma GroupTracked(db: Db, dist: string, group: string, groupObjs: map<string, Id>, id: Id, pkgMap: map<string, Id>)
    requires HasDist(db, dist) && TracksGroups(groupObjs, dist, db) && TracksPkgs(pkgMap, db)
    requires id == GroupId(Step(db, EnsureGroup(dist, group)), dist, group)
    ensures var end := Step(db, EnsureGroup(dist, group));
      TracksGroups(groupObjs[group := id], dist, end) && TracksPkgs(pkgMap, end)
  {
    StepKeeps(db, EnsureGroup(dist, group));
    EnsureCreates(db, EnsureGroup(dist, group));
  }

  lemma MembersKeepMaps(db: Db, ops: seq<Op>, dist: string, groupObjs: map<string, Id>, pkgMap: map<string, Id>)
    requires TracksGroups(groupObjs, dist, db) && TracksPkgs(pkgMap, db)
    ensures TracksGroups(groupObjs, dist, Run(db, ops)) && TracksPkgs(pkgMap, Run(db, ops))
  {
    RunKeeps(db, ops);
  }

  lemma SetMembersNext(db: Db, dist: string, set_: string, names: seq<string>, i: nat, declared: set<string>)
    requires i < |names|
    ensures var mid := Run(db, SetMemberOps(dist, set_, names[..i], declared));
      Run(db, SetMemberOps(dist, set_, names[..i + 1], declared))
        == if names[i] in declared then PutSetMember(mid, SetId(mid, dist, set_), GroupId(mid, dist, names[i])) else mid
  {
    var ops := SetMemberOps(dist, set_, names[..i], declared);
    assert names[..i + 1][..i] == names[..i];
    assert ops + [] == ops;
    RunSnoc(db, ops, EnsureSetMember(dist, set_, names[i]));
  }

  lemma ProfilesNext(db: Db, dist: string, set_: string, profiles: seq<ProfDecl>, i: nat, lk: Lookups)
    requires i < |profiles|
    ensures var mid := Run(db, ProfileOps(dist, set_, profiles[..i], lk));
      var p := profiles[i];
      Run(db, ProfileOps(dist, set_, profiles[..i + 1], lk))
        == PutProfile(mid, DistId(mid, dist), p.name,
                      ProfVal(Lookup(lk.boards, p.board), LookupKernel(lk.kernels, p.kernel),
                              Lookup(lk.toolchains, p.toolchain), Some(SetId(mid, dist, set_)), map[]))
  {
    var p := profiles[i];
    var ops := ProfileOps(dist, set_, profiles[..i], lk);
    assert profiles[..i + 1][..i] == profiles[..i];
    RunSnoc(db, ops, EnsureProfile(dist, set_, p.name, Lookup(lk.boards, p.board), LookupKernel(lk.kernels, p.kernel),
                                   Lookup(lk.toolchains, p.toolchain)));
  }

  lemma OneSetRun(db: Db, dist: string, s: SetDecl, declared: set<string>, lk: Lookups)
    ensures var mid := PutSet(db, DistId(db, dist), s.name, dist + " " + s.name);
      Run(db, OneSetOps(dist, s, declared, lk))
        == Run(Run(mid, SetMemberOps(dist, s.name, s.groups, declared)), ProfileOps(dist, s.name, s.profiles, lk))
  {
    var op := EnsureSet(dist, s.name);
    var a := SetMemberOps(dist, s.name, s.groups, declared);
    assert [] + [op] == [op];
    RunSnoc(db, [], op);
    RunAppend(db, [op], a);
    RunAppend(db, [op] + a, ProfileOps(dist, s.name, s.profiles, lk));
  }

  lemma SetsNext(db: Db, dist: string, sets: seq<SetDecl>, i: nat, declared: set<string>, lk: Lookups)
    requires i < |sets|
    ensures Run(db, SetOps(dist, sets[..i + 1], declared, lk))
         == Run(Run(db, SetOps(dist, sets[..i], declared, lk)), OneSetOps(dist, sets[i], declared, lk))
  {
    assert sets[..i + 1][..i] == sets[..i];
    RunAppend(db, SetOps(dist, sets[..i], declared, lk), OneSetOps(dist, sets[i], declared, lk));
  }

  lemma DocRun(db: Db, doc: Doc, lk: Lookups)
    requires doc.name.Some?
    ensures var dist := doc.name.value;
      var s1 := PutDist(db, dist, DistDecl(doc, lk));
      var s2 := Run(s1, PackageOps(doc.packages, LookupArch(lk.archs, doc.arch)));
      var s3 := Run(s2, GroupOps(dist, doc.groups, Declared(doc.packages)));
      Run(db, DocOps(doc, lk)) == Run(s3, SetOps(dist, doc.sets, DeclaredGroups(doc.groups), lk))
  {
    var dist := doc.name.value;
    var op := EnsureDist(dist, DistDecl(doc, lk));
    var a := PackageOps(doc.packages, LookupArch(lk.archs, doc.arch));
    var b := GroupOps(dist, doc.groups, Declared(doc.packages));
    assert [] + [op] == [op];
    RunSnoc(db, [], op);
    RunAppend(db, [op], a);
    RunAppend(db, [op] + a, b);
    RunAppend(db, [op] + a + b, SetOps(dist, doc.sets, DeclaredGroups(doc.groups), lk));
  }

  lemma DeclaredNext(packages: seq<PkgDecl>, i: nat)
    requires i < |packages|
    ensures Declared(packages[..i + 1]) == Declared(packages[..i]) + {packages[i].name}
  {
    assert packages[..i + 1] == packages[..i] + [packages[i]];
  }

  lemma DeclaredGroupsNext(groups: seq<GroupDecl>, i: nat)
    requires i < |groups|
    ensures DeclaredGroups(groups[..i + 1]) == DeclaredGroups(groups[..i]) + {groups[i].name}
  {
    assert groups[..i + 1] == groups[..i] + [groups[i]];
  }

  lemma DistPutOther(db: Db, name: string, decl: DistVal, d: string)
    requires d != name
    ensures var end := PutDist(db, name, decl); HasDist(end, d) == HasDist(db, d) && DistId(end, d) == DistId(db, d)
  {
    var end := PutDist(db, name, decl);
    PutEvolves(db.dists, Uuid(db.next), name, decl, AdoptClass);
    EvolvesKeepsIds(db.dists, end.dists, [(name, decl)], AdoptClass, d);
    assert [(name, decl)][1..] == [];
    assert Absorb(ValueOf(db.dists, d), (name, decl), d, AdoptClass) == ValueOf(db.dists, d);
    assert ValueOf(end.dists, d) == ValueOf(db.dists, d);
  }

  lemma DistPutSelf(db: Db, name: string, decl: DistVal)
    ensures var end := PutDist(db, name, decl);
      HasDist(end, name) && DistId(end, name) == if HasDist(db, name) then DistId(db, name) else Uuid(db.next)
  {
    var end := PutDist(db, name, decl);
    FindIs(end.dists, name, Find(db.dists, name));
  }

  lemma DistPutValid(db: Db, name: string, decl: DistVal)
    requires ValidDists(db.dists, db.next)
    ensures var end := PutDist(db, name, decl); ValidDists(end.dists, end.next)
  {
  }

  /** Adding or updating one distribution row keeps keys unique and the map in step. */
  lemma DistPut(db: Db, name: string, decl: DistVal, distMap: map<string, Id>)
    requires ValidDists(db.dists, db.next) && Tracks(distMap, db)
    ensures var end := PutDist(db, name, decl);
      && ValidDists(end.dists, end.next)
      && HasDist(end, name)
      && Tracks(distMap[name := DistId(end, name)], end)
      && (name !in distMap ==> DistId(end, name) == Uuid(db.next))
      && (name in distMap ==> DistId(end, name) == distMap[name])
  {
    DistPutValid(db, name, decl);
    DistPutSelf(db, name, decl);
    forall d | d != name {
      DistPutOther(db, name, decl, d);
    }
  }

  class Session {
    var db: Db

    ghost predicate Valid()
      reads this
    {
      ValidDists(db.dists, db.next)
    }

    constructor (db: Db)
      requires ValidDists(db.dists, db.next)
      ensures this.db == db && Valid()
    {
      this.db := db;
    }

    method GetOrCreatePackage(name: string, kind: string, layer: string) returns (id: Id)
      modifies this
      ensures db == PutPackage(old(db), name, PkgVal(None, Some(kind), Some(layer)))
      ensures HasPkg(db, name) && id == PkgId(db, name)
    {
      PutEvolves(db.pkgs, Uuid(db.next), name, PkgVal(None, Some(kind), Some(layer)), KeepOld);
      var i := Find(db.pkgs, name);
      if i == |db.pkgs| {
        id := Uuid(db.next);
        db := db.(pkgs := db.pkgs + [Row(id, name, PkgVal(None, Some(kind), Some(layer)))], next := db.next + 1);
        FindIs(db.pkgs, name, i);
      } else {
        id := db.pkgs[i].id;
        assert db.pkgs == db.pkgs[i := db.pkgs[i].(val := db.pkgs[i].val)];
      }
    }

    method GetOrCreatePackageVersion(pkg: Id, version: string, arch: Id)
      modifies this
      ensures db == PutVersion(old(db), pkg, version, arch)
    {
      var i := Find(db.versions, (pkg, version, arch));
      if i == |db.versions| {
        db := db.(versions := db.versions + [Row(Uuid(db.next), (pkg, version, arch), "available")], next := db.next + 1);
      } else {
        assert db.versions == db.versions[i := db.versions[i].(val := db.versions[i].val)];
      }
    }

    method GetOrCreatePackageGroup(name: string, dist: Id, description: string) returns (id: Id)
      modifies this
      ensures db == PutGroup(old(db), dist, name, description)
      ensures Present(db.groups, (dist, name)) && id == IdOf(db.groups, (dist, name))
    {
      var i := Find(db.groups, (dist, name));
      if i == |db.groups| {
        id := Uuid(db.next);
        db := db.(groups := db.groups + [Row(id, (dist, name), description)], next := db.next + 1);
        FindIs(db.groups, (dist, name), i);
      } else {
        id := db.groups[i].id;
        assert db.groups == db.groups[i := db.groups[i].(val := db.groups[i].val)];
      }
    }

    method AddPackageToGroup(group: Id, pkg: Id)
      modifies this
      ensures db == PutMember(old(db), group, pkg)
    {
      var i := Find(db.members, (group, pkg));
      if i == |db.members| {
        db := db.(members := db.members + [Row(Blank, (group, pkg), ())]);
      } else {
        assert db.members == db.members[i := db.members[i].(val := db.members[i].val)];
      }
    }

    method GetOrCreatePackageSet(name: string, dist: Id, description: string) returns (id: Id)
      modifies this
      ensures db == PutSet(old(db), dist, name, description)
      ensures Present(db.sets, (dist, name)) && id == IdOf(db.sets, (dist, name))
    {
      var i := Find(db.sets, (dist, name));
      if i == |db.sets| {
        id := Uuid(db.next);
        db := db.(sets := db.sets + [Row(id, (dist, name), description)], next := db.next + 1);
        FindIs(db.sets, (dist, name), i);
      } else {
        id := db.sets[i].id;
        assert db.sets == db.sets[i := db.sets[i].(val := db.sets[i].val)];
      }
    }

    method AddGroupToSet(set_: Id, group: Id)
      modifies this
      ensures db == PutSetMember(old(db), set_, group)
    {
      var k := (set_, "group", Some(group));
      var i := Find(db.setMembers, k);
      if i == |db.setMembers| {
        db := db.(setMembers := db.setMembers + [Row(Uuid(db.next), k, ())], next := db.next + 1);
      } else {
        assert db.setMembers == db.setMembers[i := db.setMembers[i].(val := db.setMembers[i].val)];
      }
    }

    /** Existing profiles are updated attribute by attribute, and only where the new value is non-null. */
    method GetOrCreateProfile(name: string, dist: Id, board: Option<Id>, kernel: Option<Id>,
                              toolchain: Option<Id>, packageSet: Option<Id>)
      modifies this
      ensures db == PutProfile(old(db), dist, name, ProfVal(board, kernel, toolchain, packageSet, map[]))
    {
      var i := Find(db.profiles, (dist, name));
      if i == |db.profiles| {
        var row := Row(Uuid(db.next), (dist, name), ProfVal(board, kernel, toolchain, packageSet, map[]));
        db := db.(profiles := db.profiles + [row], next := db.next + 1);
      } else {
        var val := db.profiles[i].val;
        if board.Some? && val.board != board {
          val := val.(board := board);
        }
        if kernel.Some? && val.kernel != kernel {
          val := val.(kernel := kernel);
        }
        if toolchain.Some? && val.toolchain != toolchain {
          val := val.(toolchain := toolchain);
        }
        if packageSet.Some? && val.packageSet != packageSet {
          val := val.(packageSet := packageSet);
        }
        db := db.(profiles := db.profiles[i := db.profiles[i].(val := val)]);
      }
    }

    /** Preloads the name-to-id map. */
    method LoadDistMap() returns (distMap: map<string, Id>)
      requires Valid()
      ensures Tracks(distMap, db)
    {
      distMap := map[];
      var i := 0;
      while i < |db.dists|
        invariant 0 <= i <= |db.dists|
        invariant forall d :: d in distMap <==> exists j :: 0 <= j < i && db.dists[j].key == d
        invariant forall j :: 0 <= j < i ==> db.dists[j].key in distMap && distMap[db.dists[j].key] == db.dists[j].id
      {
        distMap := distMap[db.dists[i].key := db.dists[i].id];
        i := i + 1;
      }
      forall d ensures (d in distMap <==> HasDist(db, d)) && (d in distMap ==> distMap[d] == DistId(db, d)) {
        if HasDist(db, d) {
          assert db.dists[Find(db.dists, d)].key == d;
        }
      }
    }

    /** Adds the distribution row, or fills in the class of an existing row that has none. */
    method EnsureDistribution(name: string, decl: DistVal, distMap: map<string, Id>) returns (distMap': map<string, Id>)
      requires Valid() && Tracks(distMap, db)
      modifies this
      ensures Valid() && Tracks(distMap', db)
      ensures db == PutDist(old(db), name, decl) && HasDist(db, name)
    {
      distMap' := distMap;
      DistPut(db, name, decl, distMap);
      if name !in distMap {
        var id := Uuid(db.next);
        db := db.(dists := db.dists + [Row(id, name, decl)], next := db.next + 1);
        distMap' := distMap[name := id];
      } else {
        var i := FindId(db.dists, distMap[name]);
        assert i == Find(db.dists, name);
        if i < |db.dists| && db.dists[i].val.cls.None? {
          db := db.(dists := db.dists[i := db.dists[i].(val := db.dists[i].val.(cls := decl.cls))]);
        } else {
          assert db.dists == db.dists[i := db.dists[i].(val := db.dists[i].val)];
        }
        assert distMap == distMap[name := distMap[name]];
      }
    }

    method SeedPackages(packages: seq<PkgDecl>, arch: Id) returns (pkgMap: map<string, Id>)
      modifies this
      ensures db == Run(old(db), PackageOps(packages, arch))
      ensures pkgMap.Keys == Declared(packages) && TracksPkgs(pkgMap, db)
      ensures SameDists(old(db), db)
    {
      pkgMap := map[];
      ghost var start := db;
      var i := 0;
      while i < |packages|
        invariant 0 <= i <= |packages|
        invariant db == Run(start, PackageOps(packages[..i], arch))
        invariant pkgMap.Keys == Declared(packages[..i]) && TracksPkgs(pkgMap, db)
        invariant SameDists(start, db)
      {
        var p := packages[i];
        ghost var was := db;
        var pkg := GetOrCreatePackage(p.name, Or(p.kind, "system"), Or(p.layer, "system"));
        GetOrCreatePackageVersion(pkg, "latest", arch);
        PackagesNext(start, packages, i, arch);
        PackageTracked(was, p, arch, pkgMap, pkg);
        DeclaredNext(packages, i);
        pkgMap := pkgMap[p.name := pkg];
        i := i + 1;
      }
      assert packages[..|packages|] == packages;
    }

    method SeedMembers(dist: string, group: string, groupId: Id, members: seq<string>, pkgMap: map<string, Id>)
      requires HasGroup(db, dist, group) && groupId == GroupId(db, dist, group)
      requires TracksPkgs(pkgMap, db)
      modifies this
      ensures db == Run(old(db), MemberOps(dist, group, members, pkgMap.Keys))
      ensures SameDists(old(db), db)
    {
      var i := 0;
      while i < |members|
        invariant 0 <= i <= |members|
        invariant db == Run(old(db), MemberOps(dist, group, members[..i], pkgMap.Keys))
        invariant SameDists(old(db), db)
        invariant groupId == GroupId(db, dist, group) && TracksPkgs(pkgMap, db)
      {
        if members[i] in pkgMap {
          AddPackageToGroup(groupId, pkgMap[members[i]]);
        }
        MembersNext(old(db), dist, group, members, i, pkgMap.Keys);
        i := i + 1;
      }
      assert members[..|members|] == members;
    }

    method SeedGroup(dist: string, distId: Id, g: GroupDecl, groupObjs: map<string, Id>, pkgMap: map<string, Id>)
      returns (groupObjs': map<string, Id>)
      requires HasDist(db, dist) && distId == DistId(db, dist)
      requires TracksPkgs(pkgMap, db) && TracksGroups(groupObjs, dist, db)
      modifies this
      ensures db == Run(PutGroup(old(db), distId, g.name, dist + " " + g.name),
                        MemberOps(dist, g.name, g.members, pkgMap.Keys))
      ensures SameDists(old(db), db)
      ensures TracksPkgs(pkgMap, db) && TracksGroups(groupObjs', dist, db)
      ensures groupObjs'.Keys == groupObjs.Keys + {g.name}
    {
      var grp := GetOrCreatePackageGroup(g.name, distId, dist + " " + g.name);
      GroupTracked(old(db), dist, g.name, groupObjs, grp, pkgMap);
      groupObjs' := groupObjs[g.name := grp];
      ghost var mid := db;
      SeedMembers(dist, g.name, grp, g.members, pkgMap);
      MembersKeepMaps(mid, MemberOps(dist, g.name, g.members, pkgMap.Keys), dist, groupObjs', pkgMap);
    }

    method SeedGroups(dist: string, distId: Id, groups: seq<GroupDecl>, pkgMap: map<string, Id>) returns (groupObjs: map<string, Id>)
      requires HasDist(db, dist) && distId == DistId(db, dist)
      requires TracksPkgs(pkgMap, db)
      modifies this
      ensures db == Run(old(db), GroupOps(dist, groups, pkgMap.Keys))
      ensures SameDists(old(db), db)
      ensures groupObjs.Keys == DeclaredGroups(groups) && TracksGroups(groupObjs, dist, db)
    {
      groupObjs := map[];
      ghost var start := db;
      var i := 0;
      while i < |groups|
        invariant 0 <= i <= |groups|
        invariant db == Run(start, GroupOps(dist, groups[..i], pkgMap.Keys))
        invariant SameDists(start, db) && TracksPkgs(pkgMap, db)
        invariant groupObjs.Keys == DeclaredGroups(groups[..i]) && TracksGroups(groupObjs, dist, db)
      {
        groupObjs := SeedGroup(dist, distId, groups[i], groupObjs, pkgMap);
        GroupsNext(start, dist, groups, i, pkgMap.Keys);
        DeclaredGroupsNext(groups, i);
        i := i + 1;
      }
      assert groups[..|groups|] == groups;
    }

    method SeedSetMembers(dist: string, set_: string, setId: Id, names: seq<string>, groupObjs: map<string, Id>)
      requires HasSet(db, dist, set_) && setId == SetId(db, dist, set_)
      requires TracksGroups(groupObjs, dist, db)
      modifies this
      ensures db == Run(old(db), SetMemberOps(dist, set_, names, groupObjs.Keys))
      ensures SameDists(old(db), db) && db.sets == old(db).sets && db.groups == old(db).groups
    {
      var i := 0;
      while i < |names|
        invariant 0 <= i <= |names|
        invariant db == Run(old(db), SetMemberOps(dist, set_, names[..i], groupObjs.Keys))
        invariant SameDists(old(db), db) && db.sets == old(db).sets && db.groups == old(db).groups
      {
        if names[i] in groupObjs {
          AddGroupToSet(setId, groupObjs[names[i]]);
        }
        SetMembersNext(old(db), dist, set_, names, i, groupObjs.Keys);
        i := i + 1;
      }
      assert names[..|names|] == names;
    }

    method SeedProfiles(dist: string, distId: Id, set_: string, setId: Id, profiles: seq<ProfDecl>, lk: Lookups)
      requires HasSet(db, dist, set_) && setId == SetId(db, dist, set_) && distId == DistId(db, dist)
      modifies this
      ensures db == Run(old(db), ProfileOps(dist, set_, profiles, lk))
      ensures SameDists(old(db), db) && db.sets == old(db).sets && db.groups == old(db).groups
    {
      var i := 0;
      while i < |profiles|
        invariant 0 <= i <= |profiles|
        invariant db == Run(old(db), ProfileOps(dist, set_, profiles[..i], lk))
        invariant SameDists(old(db), db) && db.sets == old(db).sets && db.groups == old(db).groups
      {
        var p := profiles[i];
        GetOrCreateProfile(p.name, distId, Lookup(lk.boards, p.board), LookupKernel(lk.kernels, p.kernel),
                           Lookup(lk.toolchains, p.toolchain), Some(setId));
        ProfilesNext(old(db), dist, set_, profiles, i, lk);
        i := i + 1;
      }
      assert profiles[..|profiles|] == profiles;
    }

    method SeedSet(dist: string, distId: Id, s: SetDecl, groupObjs: map<string, Id>, lk: Lookups)
      requires HasDist(db, dist) && distId == DistId(db, dist)
      requires TracksGroups(groupObjs, dist, db)
      modifies this
      ensures db == Run(old(db), OneSetOps(dist, s, groupObjs.Keys, lk))
      ensures SameDists(old(db), db) && db.groups == old(db).groups
    {
      var pset := GetOrCreatePackageSet(s.name, distId, dist + " " + s.name);
      SeedSetMembers(dist, s.name, pset, s.groups, groupObjs);
      SeedProfiles(dist, distId, s.name, pset, s.profiles, lk);
      OneSetRun(old(db), dist, s, groupObjs.Keys, lk);
    }

    method SeedSets(dist: string, distId: Id, sets: seq<SetDecl>, groupObjs: map<string, Id>, lk: Lookups)
      requires HasDist(db, dist) && distId == DistId(db, dist)
      requires TracksGroups(groupObjs, dist, db)
      modifies this
      ensures db == Run(old(db), SetOps(dist, sets, groupObjs.Keys, lk))
      ensures SameDists(old(db), db)
    {
      ghost var start := db;
      var i := 0;
      while i < |sets|
        invariant 0 <= i <= |sets|
        invariant db == Run(start, SetOps(dist, sets[..i], groupObjs.Keys, lk))
        invariant SameDists(start, db) && db.groups == start.groups
      {
        SeedSet(dist, distId, sets[i], groupObjs, lk);
        SetsNext(start, dist, sets, i, groupObjs.Keys, lk);
        i := i + 1;
      }
      assert sets[..|sets|] == sets;
    }

    /** A document without a name is skipped. */
    method SeedDocument(doc: Doc, lk: Lookups, distMap: map<string, Id>) returns (distMap': map<string, Id>)
      requires Valid() && Tracks(distMap, db)
      modifies this
      ensures Valid() && Tracks(distMap', db)
      ensures db == Run(old(db), DocOps(doc, lk))
    {
      distMap' := distMap;
      if doc.name.None? {
        return;
      }
      var dist := doc.name.value;
      distMap' := EnsureDistribution(dist, DistDecl(doc, lk), distMap);
      var distId := distMap'[dist];
      var pkgMap := SeedPackages(doc.packages, LookupArch(lk.archs, doc.arch));
      var groupObjs := SeedGroups(dist, distId, doc.groups, pkgMap);
      SeedSets(dist, distId, doc.sets, groupObjs, lk);
      DocRun(old(db), doc, lk);
    }

    /** Seeds the documents of the catalog directory, in file-name order. */
    method SeedCatalog(docs: seq<Doc>, lk: Lookups)
      requires Valid()
      modifies this
      ensures Valid() && db == Seeded(old(db), docs, lk)
    {
      var distMap := LoadDistMap();
      var i := 0;
      while i < |docs|
        invariant 0 <= i <= |docs|
        invariant Valid() && Tracks(distMap, db)
        invariant db == Seeded(old(db), docs[..i], lk)
      {
        distMap := SeedDocument(docs[i], lk, distMap);
        RunAppend(old(db), CatalogOps(docs[..i], lk), DocOps(docs[i], lk));
        assert docs[..i + 1][..i] == docs[..i];
        i := i + 1;
      }
      assert docs[..|docs|] == docs;
    }
  }
}
