/** What the seeder leaves in the tables, in the words of the catalog files. */
module CatalogDocument {
  import opened Wrappers
  import opened Tables
  import opened CatalogSpec
  import opened CatalogClosedForm

  // ---------------------------------------------------------------------
  // Which rows the documents declare
  // ---------------------------------------------------------------------

  lemma DeclaresAppend<K, V>(a: seq<(K, V)>, b: seq<(K, V)>, k: K)
    ensures Declares(a + b, k) <==> Declares(a, k) || Declares(b, k)
  {
    if Declares(a, k) {
      var e :| e in a && e.0 == k;
      assert e in a + b;
    }
    if Declares(b, k) {
      var e :| e in b && e.0 == k;
      assert e in a + b;
    }
  }

  lemma DeclaresOne<K, V>(e: (K, V), k: K)
    ensures Declares([e], k) <==> e.0 == k
  {
    assert e in [e];
  }

  /** A catalog declares what one of its documents declares, in each table. */
  lemma {:induction false} CatalogDeclares<K(!new), V(!new)>(end: Db, docs: seq<Doc>, lk: Lookups, f: Log -> seq<(K, V)>, k: K)
    requires f(NO_LOG) == [] && forall a, b :: f(Join(a, b)) == f(a) + f(b)
    ensures Declares(f(CatalogDecls(end, docs, lk)), k) <==> exists doc :: doc in docs && Declares(f(DocDecls(end, doc, lk)), k)
    decreases docs
  {
    if docs != [] {
      var init, last := docs[..|docs| - 1], docs[|docs| - 1];
      CatalogDeclares(end, init, lk, f, k);
      DeclaresAppend(f(CatalogDecls(end, init, lk)), f(DocDecls(end, last, lk)), k);
      assert forall doc :: doc in docs <==> doc in init || doc == last;
    }
  }

  lemma {:induction false} PackagesDeclared(packages: seq<PkgDecl>, n: string)
    ensures Declares(PackageDecls(packages), n) <==> exists p :: p in packages && p.name == n
    decreases packages
  {
    if packages != [] {
      var init, p := packages[..|packages| - 1], packages[|packages| - 1];
      PackagesDeclared(init, n);
      DeclaresAppend(PackageDecls(init), [PackageDecl(p)], n);
      DeclaresOne(PackageDecl(p), n);
      assert forall q :: q in packages <==> q in init || q == p;
    }
  }

  lemma {:induction false} VersionsDeclared(end: Db, packages: seq<PkgDecl>, arch: Id, k: (Id, string, Id))
    ensures Declares(VersionDecls(end, packages, arch), k)
        <==> exists p :: p in packages && k == (PkgId(end, p.name), "latest", arch)
    decreases packages
  {
    if packages != [] {
      var init, p := packages[..|packages| - 1], packages[|packages| - 1];
      var e := ((PkgId(end, p.name), "latest", arch), "available");
      VersionsDeclared(end, init, arch, k);
      DeclaresAppend(VersionDecls(end, init, arch), [e], k);
      DeclaresOne(e, k);
      assert forall q :: q in packages <==> q in init || q == p;
    }
  }

  lemma {:induction false} GroupsDeclared(end: Db, d: string, groups: seq<GroupDecl>, k: (Id, string))
    ensures Declares(GroupDecls(end, d, groups), k) <==> exists g :: g in groups && k == (DistId(end, d), g.name)
    decreases groups
  {
    if groups != [] {
      var init, g := groups[..|groups| - 1], groups[|groups| - 1];
      var e := ((DistId(end, d), g.name), d + " " + g.name);
      GroupsDeclared(end, d, init, k);
      DeclaresAppend(GroupDecls(end, d, init), [e], k);
      DeclaresOne(e, k);
      assert forall h :: h in groups <==> h in init || h == g;
    }
  }

  lemma {:induction false} MembersDeclared(end: Db, d: string, g: string, members: seq<string>, declared: set<string>, k: (Id, Id))
    ensures Declares(MemberDecls(end, d, g, members, declared), k)
        <==> exists m :: m in members && m in declared && k == (GroupId(end, d, g), PkgId(end, m))
    decreases members
  {
    if members != [] {
      var init, m := members[..|members| - 1], members[|members| - 1];
      var e := ((GroupId(end, d, g), PkgId(end, m)), ());
      MembersDeclared(end, d, g, init, declared, k);
      DeclaresAppend(MemberDecls(end, d, g, init, declared), [e], k);
      DeclaresOne(e, k);
      DeclaresAppend(MemberDecls(end, d, g, init, declared), [], k);
      assert forall x :: x in members <==> x in init || x == m;
    }
  }

  lemma {:induction false} GroupMembersDeclared(end: Db, d: string, groups: seq<GroupDecl>, declared: set<string>, k: (Id, Id))
    ensures Declares(GroupMemberDecls(end, d, groups, declared), k)
        <==> exists g :: g in groups && Declares(MemberDecls(end, d, g.name, g.members, declared), k)
    decreases groups
  {
    if groups != [] {
      var init, g := groups[..|groups| - 1], groups[|groups| - 1];
      GroupMembersDeclared(end, d, init, declared, k);
      DeclaresAppend(GroupMemberDecls(end, d, init, declared), MemberDecls(end, d, g.name, g.members, declared), k);
      assert forall h :: h in groups <==> h in init || h == g;
    }
  }

  lemma {:induction false} SetsDeclared(end: Db, d: string, sets: seq<SetDecl>, k: (Id, string))
    ensures Declares(SetDecls(end, d, sets), k) <==> exists s :: s in sets && k == (DistId(end, d), s.name)
    decreases sets
  {
    if sets != [] {
      var init, s := sets[..|sets| - 1], sets[|sets| - 1];
      var e := ((DistId(end, d), s.name), d + " " + s.name);
      SetsDeclared(end, d, init, k);
      DeclaresAppend(SetDecls(end, d, init), [e], k);
      DeclaresOne(e, k);
      assert forall x :: x in sets <==> x in init || x == s;
    }
  }

  lemma {:induction false} SetGroupsDeclared(end: Db, d: string, s: string, names: seq<string>, declared: set<string>,
                                             k: (Id, string, Option<Id>))
    ensures Declares(SetGroupDecls(end, d, s, names, declared), k)
        <==> exists g :: g in names && g in declared && k == (SetId(end, d, s), "group", Some(GroupId(end, d, g)))
    decreases names
  {
    if names != [] {
      var init, g := names[..|names| - 1], names[|names| - 1];
      var e := ((SetId(end, d, s), "group", Some(GroupId(end, d, g))), ());
      SetGroupsDeclared(end, d, s, init, declared, k);
      DeclaresAppend(SetGroupDecls(end, d, s, init, declared), [e], k);
      DeclaresOne(e, k);
      DeclaresAppend(SetGroupDecls(end, d, s, init, declared), [], k);
      assert forall x :: x in names <==> x in init || x == g;
    }
  }

  lemma {:induction false} SetMembersDeclared(end: Db, d: string, sets: seq<SetDecl>, declared: set<string>,
                                              k: (Id, string, Option<Id>))
    ensures Declares(SetMemberDecls(end, d, sets, declared), k)
        <==> exists s :: s in sets && Declares(SetGroupDecls(end, d, s.name, s.groups, declared), k)
    decreases sets
  {
    if sets != [] {
      var init, s := sets[..|sets| - 1], sets[|sets| - 1];
      SetMembersDeclared(end, d, init, declared, k);
      DeclaresAppend(SetMemberDecls(end, d, init, declared), SetGroupDecls(end, d, s.name, s.groups, declared), k);
      assert forall x :: x in sets <==> x in init || x == s;
    }
  }

  lemma {:induction false} ProfilesDeclared(end: Db, d: string, s: string, profiles: seq<ProfDecl>, lk: Lookups, k: (Id, string))
    ensures Declares(ProfileDecls(end, d, s, profiles, lk), k) <==> exists p :: p in profiles && k == (DistId(end, d), p.name)
    decreases profiles
  {
    if profiles != [] {
      var init, p := profiles[..|profiles| - 1], profiles[|profiles| - 1];
      ProfilesDeclared(end, d, s, init, lk, k);
      ProfileDeclsLast(end, d, s, profiles, lk);
      var all := ProfileDecls(end, d, s, profiles, lk);
      assert all == all[..|init|] + all[|init|..];
      DeclaresAppend(ProfileDecls(end, d, s, init, lk), all[|init|..], k);
      DeclaresOne(all[|init|], k);
      assert forall x :: x in profiles <==> x in init || x == p;
    }
  }

  lemma {:induction false} ProfileDeclsLast(end: Db, d: string, s: string, profiles: seq<ProfDecl>, lk: Lookups)
    requires profiles != []
    ensures var n, all := |profiles| - 1, ProfileDecls(end, d, s, profiles, lk);
      && |all| == n + 1 && all[..n] == ProfileDecls(end, d, s, profiles[..n], lk)
      && all[n..] == [all[n]] && all[n].0 == (DistId(end, d), profiles[n].name)
    decreases profiles
  {
    if |profiles| > 1 {
      ProfileDeclsLast(end, d, s, profiles[..|profiles| - 1], lk);
    }
  }

  lemma {:induction false} SetProfilesDeclared(end: Db, d: string, sets: seq<SetDecl>, lk: Lookups, k: (Id, string))
    ensures Declares(SetProfileDecls(end, d, sets, lk), k)
        <==> exists s :: s in sets && Declares(ProfileDecls(end, d, s.name, s.profiles, lk), k)
    decreases sets
  {
    if sets != [] {
      var init, s := sets[..|sets| - 1], sets[|sets| - 1];
      SetProfilesDeclared(end, d, init, lk, k);
      DeclaresAppend(SetProfileDecls(end, d, init, lk), ProfileDecls(end, d, s.name, s.profiles, lk), k);
      assert forall x :: x in sets <==> x in init || x == s;
    }
  }

  // ---------------------------------------------------------------------
  // The rows after seeding: the earlier ones and the declared ones
  // ---------------------------------------------------------------------

  lemma SeededDists(db: Db, docs: seq<Doc>, lk: Lookups, n: string)
    ensures Present(Seeded(db, docs, lk).dists, n) <==> Present(db.dists, n) || exists doc :: doc in docs && doc.name == Some(n)
  {
    var end := Seeded(db, docs, lk);
    CatalogRows(db, docs, lk);
    CatalogDeclares(end, docs, lk, (l: Log) => l.dists, n);
    forall doc | doc in docs ensures Declares(DocDecls(end, doc, lk).dists, n) <==> doc.name == Some(n) {
      if doc.name.Some? {
        DeclaresOne(DocDecls(end, doc, lk).dists[0], n);
      }
    }
  }

  lemma SeededPackages(db: Db, docs: seq<Doc>, lk: Lookups, n: string)
    ensures Present(Seeded(db, docs, lk).pkgs, n)
        <==> Present(db.pkgs, n) || exists doc, p :: doc in docs && doc.name.Some? && p in doc.packages && p.name == n
  {
    var end := Seeded(db, docs, lk);
    CatalogRows(db, docs, lk);
    CatalogDeclares(end, docs, lk, (l: Log) => l.pkgs, n);
    forall doc | doc in docs
      ensures Declares(DocDecls(end, doc, lk).pkgs, n) <==> doc.name.Some? && exists p :: p in doc.packages && p.name == n
    {
      PackagesDeclared(doc.packages, n);
    }
  }

  /** The architecture that a document asks for, "aarch64" if it does not say, and blank if that is unknown. */
  ghost predicate IsArch(archs: map<string, Id>, name: Option<string>, arch: Id) {
    && (name.Some? && name.value in archs ==> arch == archs[name.value])
    && (name.Some? && name.value !in archs ==> arch == Blank)
    && (name.None? && "aarch64" in archs ==> arch == archs["aarch64"])
    && (name.None? && "aarch64" !in archs ==> arch == Blank)
  }

  /** A declared package has a version "latest" for the architecture of its document. */
  ghost predicate HasVersion(end: Db, doc: Doc, lk: Lookups, k: (Id, string, Id)) {
    doc.name.Some? && k.1 == "latest" && IsArch(lk.archs, doc.arch, k.2)
    && exists p :: p in doc.packages && k.0 == PkgId(end, p.name)
  }

  lemma SeededVersions(db: Db, docs: seq<Doc>, lk: Lookups, k: (Id, string, Id))
    ensures var end := Seeded(db, docs, lk);
      Present(end.versions, k) <==> Present(db.versions, k) || exists doc :: doc in docs && HasVersion(end, doc, lk, k)
  {
    var end := Seeded(db, docs, lk);
    CatalogRows(db, docs, lk);
    CatalogDeclares(end, docs, lk, (l: Log) => l.versions, k);
    forall doc | doc in docs ensures Declares(DocDecls(end, doc, lk).versions, k) <==> HasVersion(end, doc, lk, k) {
      DocHasVersion(end, doc, lk, k);
    }
  }

  lemma DocHasVersion(end: Db, doc: Doc, lk: Lookups, k: (Id, string, Id))
    ensures Declares(DocDecls(end, doc, lk).versions, k) <==> HasVersion(end, doc, lk, k)
  {
    var arch := LookupArch(lk.archs, doc.arch);
    VersionsDeclared(end, doc.packages, arch, k);
    assert IsArch(lk.archs, doc.arch, k.2) <==> k.2 == arch;
  }

  ghost predicate HasGroupRow(end: Db, doc: Doc, k: (Id, string)) {
    doc.name.Some? && exists g :: g in doc.groups && k == (DistId(end, doc.name.value), g.name)
  }

  lemma SeededGroups(db: Db, docs: seq<Doc>, lk: Lookups, k: (Id, string))
    ensures var end := Seeded(db, docs, lk);
      Present(end.groups, k) <==> Present(db.groups, k) || exists doc :: doc in docs && HasGroupRow(end, doc, k)
  {
    var end := Seeded(db, docs, lk);
    CatalogRows(db, docs, lk);
    CatalogDeclares(end, docs, lk, (l: Log) => l.groups, k);
    forall doc | doc in docs ensures Declares(DocDecls(end, doc, lk).groups, k) <==> HasGroupRow(end, doc, k) {
      if doc.name.Some? {
        GroupsDeclared(end, doc.name.value, doc.groups, k);
      }
    }
  }

  /** A group of the document lists the package, and the document declares it. */
  ghost predicate ListsPackage(end: Db, doc: Doc, k: (Id, Id)) {
    doc.name.Some? && exists g, m, p :: g in doc.groups && m in g.members && p in doc.packages && p.name == m
                                     && k == (GroupId(end, doc.name.value, g.name), PkgId(end, m))
  }

  /** Memberships are those of declared packages; other names are skipped. */
  lemma SeededMembers(db: Db, docs: seq<Doc>, lk: Lookups, k: (Id, Id))
    ensures var end := Seeded(db, docs, lk);
      Present(end.members, k) <==> Present(db.members, k) || exists doc :: doc in docs && ListsPackage(end, doc, k)
  {
    var end := Seeded(db, docs, lk);
    CatalogRows(db, docs, lk);
    CatalogDeclares(end, docs, lk, (l: Log) => l.members, k);
    forall doc | doc in docs ensures Declares(DocDecls(end, doc, lk).members, k) <==> ListsPackage(end, doc, k) {
      DocLists(end, doc, lk, k);
    }
  }

  lemma DocLists(end: Db, doc: Doc, lk: Lookups, k: (Id, Id))
    ensures Declares(DocDecls(end, doc, lk).members, k) <==> ListsPackage(end, doc, k)
  {
    if doc.name.Some? {
      var d, declared := doc.name.value, Declared(doc.packages);
      GroupMembersDeclared(end, d, doc.groups, declared, k);
      forall g | g in doc.groups
        ensures Declares(MemberDecls(end, d, g.name, g.members, declared), k)
            <==> exists m, p :: m in g.members && p in doc.packages && p.name == m && k == (GroupId(end, d, g.name), PkgId(end, m))
      {
        MembersDeclared(end, d, g.name, g.members, declared, k);
        assert forall m :: m in declared <==> exists p :: p in doc.packages && p.name == m;
      }
    }
  }

  ghost predicate HasSetRow(end: Db, doc: Doc, k: (Id, string)) {
    doc.name.Some? && exists s :: s in doc.sets && k == (DistId(end, doc.name.value), s.name)
  }

  lemma SeededSets(db: Db, docs: seq<Doc>, lk: Lookups, k: (Id, string))
    ensures var end := Seeded(db, docs, lk);
      Present(end.sets, k) <==> Present(db.sets, k) || exists doc :: doc in docs && HasSetRow(end, doc, k)
  {
    var end := Seeded(db, docs, lk);
    CatalogRows(db, docs, lk);
    CatalogDeclares(end, docs, lk, (l: Log) => l.sets, k);
    forall doc | doc in docs ensures Declares(DocDecls(end, doc, lk).sets, k) <==> HasSetRow(end, doc, k) {
      if doc.name.Some? {
        SetsDeclared(end, doc.name.value, doc.sets, k);
      }
    }
  }

  /** A set of the document lists the group, and the document declares it. */
  ghost predicate ListsGroup(end: Db, doc: Doc, k: (Id, string, Option<Id>)) {
    doc.name.Some? && exists s, g, h :: s in doc.sets && g in s.groups && h in doc.groups && h.name == g
                                     && k == (SetId(end, doc.name.value, s.name), "group", Some(GroupId(end, doc.name.value, g)))
  }

  lemma SeededSetMembers(db: Db, docs: seq<Doc>, lk: Lookups, k: (Id, string, Option<Id>))
    ensures var end := Seeded(db, docs, lk);
      Present(end.setMembers, k) <==> Present(db.setMembers, k) || exists doc :: doc in docs && ListsGroup(end, doc, k)
  {
    var end := Seeded(db, docs, lk);
    CatalogRows(db, docs, lk);
    CatalogDeclares(end, docs, lk, (l: Log) => l.setMembers, k);
    forall doc | doc in docs ensures Declares(DocDecls(end, doc, lk).setMembers, k) <==> ListsGroup(end, doc, k) {
      DocListsGroup(end, doc, lk, k);
    }
  }

  lemma DocListsGroup(end: Db, doc: Doc, lk: Lookups, k: (Id, string, Option<Id>))
    ensures Declares(DocDecls(end, doc, lk).setMembers, k) <==> ListsGroup(end, doc, k)
  {
    if doc.name.Some? {
      var d, declared := doc.name.value, DeclaredGroups(doc.groups);
      SetMembersDeclared(end, d, doc.sets, declared, k);
      forall s | s in doc.sets
        ensures Declares(SetGroupDecls(end, d, s.name, s.groups, declared), k)
            <==> exists g, h :: g in s.groups && h in doc.groups && h.name == g
                             && k == (SetId(end, d, s.name), "group", Some(GroupId(end, d, g)))
      {
        SetGroupsDeclared(end, d, s.name, s.groups, declared, k);
        assert forall g :: g in declared <==> exists h :: h in doc.groups && h.name == g;
      }
    }
  }

  /** Some set of the document has a profile with the key. */
  ghost predicate HasProfile(end: Db, doc: Doc, k: (Id, string)) {
    doc.name.Some? && exists s, p :: s in doc.sets && p in s.profiles && k == (DistId(end, doc.name.value), p.name)
  }

  lemma SeededProfiles(db: Db, docs: seq<Doc>, lk: Lookups, k: (Id, string))
    ensures var end := Seeded(db, docs, lk);
      Present(end.profiles, k) <==> Present(db.profiles, k) || exists doc :: doc in docs && HasProfile(end, doc, k)
  {
    var end := Seeded(db, docs, lk);
    CatalogRows(db, docs, lk);
    CatalogDeclares(end, docs, lk, (l: Log) => l.profiles, k);
    forall doc | doc in docs ensures Declares(DocDecls(end, doc, lk).profiles, k) <==> HasProfile(end, doc, k) {
      DocHasProfile(end, doc, lk, k);
    }
  }

  lemma DocHasProfile(end: Db, doc: Doc, lk: Lookups, k: (Id, string))
    ensures Declares(DocDecls(end, doc, lk).profiles, k) <==> HasProfile(end, doc, k)
  {
    if doc.name.Some? {
      var d := doc.name.value;
      SetProfilesDeclared(end, d, doc.sets, lk, k);
      forall s | s in doc.sets
        ensures Declares(ProfileDecls(end, d, s.name, s.profiles, lk), k)
            <==> exists p :: p in s.profiles && k == (DistId(end, d), p.name)
      {
        ProfilesDeclared(end, d, s.name, s.profiles, lk, k);
      }
    }
  }

  // ---------------------------------------------------------------------
  // What the rows of one new document hold
  // ---------------------------------------------------------------------

  /** The reference is what the lookup table knows under the name; unknown names give none. */
  ghost predicate Resolves(known: map<string, Id>, name: Option<string>, id: Option<Id>) {
    && (name.Some? && name.value in known && known[name.value] != Blank ==> id == Some(known[name.value]))
    && (name.Some? && (name.value !in known || known[name.value] == Blank) ==> id == None)
    && (name.None? && "" !in known ==> id == None)
  }

  lemma LookupResolves(known: map<string, Id>, name: Option<string>)
    ensures Resolves(known, name, Lookup(known, name))
  {
  }

  lemma {:induction false} NoneDeclared<K, V>(log: seq<(K, V)>, k: K)
    requires !Declares(log, k)
    ensures Declarations(log, k) == []
  {
    if log != [] {
      assert log[0] in log && forall e :: e in log[1..] ==> e in log;
      NoneDeclared(log[1..], k);
    }
  }

  lemma {:induction false} DeclarationsAppend<K, V>(a: seq<(K, V)>, b: seq<(K, V)>, k: K)
    ensures Declarations(a + b, k) == Declarations(a, k) + Declarations(b, k)
  {
    if a == [] {
      assert a + b == b;
      assert [] + Declarations(b, k) == Declarations(b, k);
    } else {
      var first := if a[0].0 == k then [a[0].1] else [];
      assert (a + b)[0] == a[0] && (a + b)[1..] == a[1..] + b;
      DeclarationsAppend(a[1..], b, k);
      Regroup(first, Declarations(a[1..], k), Declarations(b, k));
    }
  }

  lemma Regroup<T>(a: seq<T>, b: seq<T>, c: seq<T>)
    ensures a + (b + c) == a + b + c
  {
  }

  lemma OneDeclaration<K, V>(e: (K, V))
    ensures Declarations([e], e.0) == [e.1]
  {
    assert [e][1..] == [];
  }

  /** A new distribution has the document's description, its channel or "dev", and its class if that is known. */
  lemma NewDistribution(db: Db, doc: Doc, lk: Lookups, d: string)
    requires doc.name == Some(d) && !Present(db.dists, d)
    ensures var v := ValueOf(Seeded(db, [doc], lk).dists, d);
      && v.Some? && v.value.description == doc.description
      && (doc.channel.Some? ==> v.value.channel == doc.channel.value)
      && (doc.channel.None? ==> v.value.channel == "dev")
      && Resolves(lk.classes, doc.cls, v.value.cls)
  {
    DistributionClassFirstNonNull(db, [doc], lk, d);
    assert [doc][..0] == [];
    var e := (d, DistDecl(doc, lk));
    assert DistDecls([doc], lk) == [] + [e] == [e];
    OneDeclaration(e);
    var h := History(ValueOf(db.dists, d), [e], d);
    assert h == [e.1] && h[1..] == [];
    LookupResolves(lk.classes, doc.cls);
  }

  /** The j-th profile of the i-th set is the only one of its name in the document. */
  ghost predicate DeclaredOnce(sets: seq<SetDecl>, i: nat, j: nat)
    requires i < |sets| && j < |sets[i].profiles|
  {
    forall a, b :: 0 <= a < |sets| && 0 <= b < |sets[a].profiles| && sets[a].profiles[b].name == sets[i].profiles[j].name
      ==> a == i && b == j
  }

  function ProfileValue(end: Db, d: string, s: string, p: ProfDecl, lk: Lookups): ProfVal {
    ProfVal(Lookup(lk.boards, p.board), LookupKernel(lk.kernels, p.kernel), Lookup(lk.toolchains, p.toolchain),
            Some(SetId(end, d, s)), map[])
  }

  lemma {:induction false} OneOfProfiles(end: Db, d: string, s: string, profiles: seq<ProfDecl>, lk: Lookups, j: nat)
    requires j < |profiles|
    requires forall b :: 0 <= b < |profiles| && profiles[b].name == profiles[j].name ==> b == j
    ensures Declarations(ProfileDecls(end, d, s, profiles, lk), (DistId(end, d), profiles[j].name))
         == [ProfileValue(end, d, s, profiles[j], lk)]
    decreases profiles
  {
    var n, k := |profiles| - 1, (DistId(end, d), profiles[j].name);
    var init := ProfileDecls(end, d, s, profiles[..n], lk);
    var e := ((DistId(end, d), profiles[n].name), ProfileValue(end, d, s, profiles[n], lk));
    assert ProfileDecls(end, d, s, profiles, lk) == init + [e];
    DeclarationsAppend(init, [e], k);
    ProfilesDeclared(end, d, s, profiles[..n], lk, k);
    if j == n {
      NoneDeclared(init, k);
      OneDeclaration(e);
    } else {
      OneOfProfiles(end, d, s, profiles[..n], lk, j);
      DeclaresOne(e, k);
      NoneDeclared([e], k);
    }
  }

  lemma {:induction false} OneOfSets(end: Db, d: string, sets: seq<SetDecl>, lk: Lookups, i: nat, j: nat)
    requires i < |sets| && j < |sets[i].profiles| && DeclaredOnce(sets, i, j)
    ensures Declarations(SetProfileDecls(end, d, sets, lk), (DistId(end, d), sets[i].profiles[j].name))
         == [ProfileValue(end, d, sets[i].name, sets[i].profiles[j], lk)]
    decreases sets
  {
    var n, name := |sets| - 1, sets[i].profiles[j].name;
    var init, last := SetProfileDecls(end, d, sets[..n], lk), ProfileDecls(end, d, sets[n].name, sets[n].profiles, lk);
    DeclarationsAppend(init, last, (DistId(end, d), name));
    if i == n {
      NotInSets(end, d, sets[..n], lk, name);
      OneOfProfiles(end, d, sets[n].name, sets[n].profiles, lk, j);
    } else {
      NotInProfiles(end, d, sets[n].name, sets[n].profiles, lk, name);
      OneOfSets(end, d, sets[..n], lk, i, j);
    }
  }

  lemma NotInProfiles(end: Db, d: string, s: string, profiles: seq<ProfDecl>, lk: Lookups, name: string)
    requires forall p :: p in profiles ==> p.name != name
    ensures Declarations(ProfileDecls(end, d, s, profiles, lk), (DistId(end, d), name)) == []
  {
    ProfilesDeclared(end, d, s, profiles, lk, (DistId(end, d), name));
    NoneDeclared(ProfileDecls(end, d, s, profiles, lk), (DistId(end, d), name));
  }

  lemma {:induction false} NotInSets(end: Db, d: string, sets: seq<SetDecl>, lk: Lookups, name: string)
    requires forall a, b :: 0 <= a < |sets| && 0 <= b < |sets[a].profiles| ==> sets[a].profiles[b].name != name
    ensures Declarations(SetProfileDecls(end, d, sets, lk), (DistId(end, d), name)) == []
    decreases sets
  {
    if sets != [] {
      var n := |sets| - 1;
      NotInSets(end, d, sets[..n], lk, name);
      NotInProfiles(end, d, sets[n].name, sets[n].profiles, lk, name);
      DeclarationsAppend(SetProfileDecls(end, d, sets[..n], lk), ProfileDecls(end, d, sets[n].name, sets[n].profiles, lk),
                         (DistId(end, d), name));
    }
  }

  /** A new profile has its board, kernel and toolchain if they are known, its set, and nothing else. */
  lemma NewProfile(db: Db, doc: Doc, lk: Lookups, d: string, i: nat, j: nat)
    requires doc.name == Some(d) && i < |doc.sets| && j < |doc.sets[i].profiles| && DeclaredOnce(doc.sets, i, j)
    requires !Present(db.profiles, (DistId(Seeded(db, [doc], lk), d), doc.sets[i].profiles[j].name))
    ensures var end, s, p := Seeded(db, [doc], lk), doc.sets[i], doc.sets[i].profiles[j];
      var v := ValueOf(end.profiles, (DistId(end, d), p.name));
      && v.Some?
      && Resolves(lk.boards, p.board, v.value.board)
      && (p.kernel.Some? && p.kernel.value in lk.kernels ==> v.value.kernel == Some(lk.kernels[p.kernel.value]))
      && (p.kernel.None? || p.kernel.value !in lk.kernels ==> v.value.kernel == None)
      && Resolves(lk.toolchains, p.toolchain, v.value.toolchain)
      && v.value.packageSet == Some(SetId(end, d, s.name)) && v.value.other == map[]
  {
    var end, s, p := Seeded(db, [doc], lk), doc.sets[i], doc.sets[i].profiles[j];
    var k, value := (DistId(end, d), p.name), ProfileValue(end, d, s.name, p, lk);
    ProfileAttributesLastNonNull(db, [doc], lk, k.0, k.1);
    assert [doc][..0] == [];
    assert AllProfileDecls(end, [doc], lk) == [] + SetProfileDecls(end, d, doc.sets, lk) == SetProfileDecls(end, d, doc.sets, lk);
    OneOfSets(end, d, doc.sets, lk, i, j);
    assert [] + [value] == [value] && [value][1..] == [];
    LookupResolves(lk.boards, p.board);
    LookupResolves(lk.toolchains, p.toolchain);
  }

  /** A new package has the kind and layer of its first declaration, "system" where that is silent. */
  lemma NewPackage(db: Db, doc: Doc, lk: Lookups, i: nat)
    requires doc.name.Some? && i < |doc.packages| && !Present(db.pkgs, doc.packages[i].name)
    requires forall j :: 0 <= j < i ==> doc.packages[j].name != doc.packages[i].name
    ensures var p := doc.packages[i];
      var v := ValueOf(Seeded(db, [doc], lk).pkgs, p.name);
      && v.Some? && v.value.namespace == None
      && v.value.kind == (if p.kind.Some? then p.kind else Some("system"))
      && v.value.layer == (if p.layer.Some? then p.layer else Some("system"))
  {
    var p := doc.packages[i];
    PackageFirstWins(db, [doc], lk, p.name);
    assert [doc][..0] == [];
    assert AllPackageDecls([doc]) == [] + PackageDecls(doc.packages) == PackageDecls(doc.packages);
    FirstOfPackages(doc.packages, i);
  }

  lemma {:induction false} FirstOfPackages(packages: seq<PkgDecl>, i: nat)
    requires i < |packages| && forall j :: 0 <= j < i ==> packages[j].name != packages[i].name
    ensures var h := Declarations(PackageDecls(packages), packages[i].name); h != [] && h[0] == PackageDecl(packages[i]).1
    decreases packages
  {
    var n, k := |packages| - 1, packages[i].name;
    var init, e := PackageDecls(packages[..n]), PackageDecl(packages[n]);
    DeclarationsAppend(init, [e], k);
    if i == n {
      PackagesDeclared(packages[..n], k);
      NoneDeclared(init, k);
      OneDeclaration(e);
    } else {
      FirstOfPackages(packages[..n], i);
    }
  }

  /** New groups and sets are described by the name of their distribution and their own. */
  lemma NewTexts(db: Db, doc: Doc, lk: Lookups, d: string, n: string)
    requires doc.name == Some(d)
    ensures var end := Seeded(db, [doc], lk);
      var k := (DistId(end, d), n);
      && (Present(end.groups, k) && !Present(db.groups, k) ==> ValueOf(end.groups, k) == Some(d + " " + n))
      && (Present(end.sets, k) && !Present(db.sets, k) ==> ValueOf(end.sets, k) == Some(d + " " + n))
  {
    var end := Seeded(db, [doc], lk);
    var k := (DistId(end, d), n);
    OneDocEvolves(db, doc, lk);
    GroupTexts(end, d, doc.groups);
    SetTexts(end, d, doc.sets);
    if !Present(db.groups, k) {
      OnlyValue(None, DocDecls(end, doc, lk).groups, k, d + " " + n);
    }
    if !Present(db.sets, k) {
      OnlyValue(None, DocDecls(end, doc, lk).sets, k, d + " " + n);
    }
  }

  lemma NewVersion(db: Db, doc: Doc, lk: Lookups, k: (Id, string, Id))
    requires doc.name.Some?
    ensures var end := Seeded(db, [doc], lk);
      Present(end.versions, k) && !Present(db.versions, k) ==> ValueOf(end.versions, k) == Some("available")
  {
    var end := Seeded(db, [doc], lk);
    OneDocEvolves(db, doc, lk);
    VersionTexts(end, doc.packages, LookupArch(lk.archs, doc.arch));
    if !Present(db.versions, k) {
      OnlyValue(None, DocDecls(end, doc, lk).versions, k, "available");
    }
  }

  lemma OneDocEvolves(db: Db, doc: Doc, lk: Lookups)
    ensures var end := Seeded(db, [doc], lk); DbEvolves(db, end, DocDecls(end, doc, lk))
  {
    var end := Seeded(db, [doc], lk);
    CatalogEvolves(db, [doc], lk);
    OneDocDecls(end, doc, lk);
  }

  lemma OneDocDecls(end: Db, doc: Doc, lk: Lookups)
    ensures CatalogDecls(end, [doc], lk) == DocDecls(end, doc, lk)
  {
    assert [doc][..0] == [];
    assert CatalogDecls(end, [doc], lk) == Join(NO_LOG, DocDecls(end, doc, lk));
    JoinNothing(DocDecls(end, doc, lk));
  }

  lemma {:induction false} OnlyValue<K(!new), V(!new)>(o: Option<V>, log: seq<(K, V)>, k: K, v: V)
    requires o == None || o == Some(v)
    requires forall e :: e in log && e.0 == k ==> e.1 == v
    ensures Folded(o, log, k, KeepOld<V>) == None || Folded(o, log, k, KeepOld<V>) == Some(v)
    decreases log
  {
    if log != [] {
      assert log[0] in log;
      OnlyValue(Absorb(o, log[0], k, KeepOld<V>), log[1..], k, v);
    }
  }

  lemma {:induction false} GroupTexts(end: Db, d: string, groups: seq<GroupDecl>)
    ensures forall e :: e in GroupDecls(end, d, groups) ==> e.0.0 == DistId(end, d) && e.1 == d + " " + e.0.1
    decreases groups
  {
    if groups != [] {
      GroupTexts(end, d, groups[..|groups| - 1]);
    }
  }

  lemma {:induction false} SetTexts(end: Db, d: string, sets: seq<SetDecl>)
    ensures forall e :: e in SetDecls(end, d, sets) ==> e.0.0 == DistId(end, d) && e.1 == d + " " + e.0.1
    decreases sets
  {
    if sets != [] {
      SetTexts(end, d, sets[..|sets| - 1]);
    }
  }

  lemma {:induction false} VersionTexts(end: Db, packages: seq<PkgDecl>, arch: Id)
    ensures forall e :: e in VersionDecls(end, packages, arch) ==> e.1 == "available"
    decreases packages
  {
    if packages != [] {
      VersionTexts(end, packages[..|packages| - 1], arch);
    }
  }
}
