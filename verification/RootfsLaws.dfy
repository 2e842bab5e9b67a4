/** What compositions promise: last writer wins, lists split, disabled services, repeatability. */
module RootfsLaws {
  import opened Wrappers
  import opened Bytes
  import opened Tables
  import opened ArtifactStore
  import opened Staging
  import opened Packages
  import opened Rootfs
  import Fetch
  import Services

  // ---------------------------------------------------------------------
  // Last writer wins
  // ---------------------------------------------------------------------

  /** The last of two layers that wrote a path. */
  function OnTop(upper: Option<Node>, lower: Option<Node>): Option<Node> {
    if upper.Some? then upper else lower
  }

  lemma LayersIs(d: Disk, spec: Spec, db: Option<Database>, sha: Blob -> string, t: Tools, p: string)
    requires Layers(d, spec, db, sha, t).Some?
    ensures LastWrite(Layers(d, spec, db, sha, t).value, p)
         == OnTop(LastWrite(ConfigWrites(spec.distributionId, db, t), p),
                  OnTop(LastWrite(OverlaysWrites(d, spec.overlays, t.io).value.writes, p),
                        OnTop(LastWrite(PackagesWrites(d, spec.packages, sha, t.io).value.writes, p),
                              LastWrite(ArchiveWrites(Load(d, spec.base), t.io).value, p))))
  {
    var base := ArchiveWrites(Load(d, spec.base), t.io).value;
    var packages := PackagesWrites(d, spec.packages, sha, t.io).value.writes;
    var overlays := OverlaysWrites(d, spec.overlays, t.io).value.writes;
    LastWriteAppend(base + packages + overlays, ConfigWrites(spec.distributionId, db, t), p);
    LastWriteAppend(base + packages, overlays, p);
    LastWriteAppend(base, packages, p);
  }

  /** Every path of the composed tree holds what the last stage that touched it left there: the services,
      else nothing if its script was disabled, else the configs, overlays, packages or the base, latest first. */
  lemma LastStageWins(d: Disk, spec: Spec, db: Option<Database>, sha: Blob -> string, t: Tools, p: string)
    ensures Staged(d, spec, db, sha, t).Some? ==>
      var services := ServiceLayer(d, spec, db, BeforeServices(d, spec, db, sha, t).value, t).value;
      At(Staged(d, spec, db, sha, t).value, p)
      == if LastWrite(services, p).Some? then LastWrite(services, p)
         else if IsDisabled(t.glob, spec.disabled, p) then None
         else OnTop(LastWrite(ConfigWrites(spec.distributionId, db, t), p),
                    OnTop(LastWrite(OverlaysWrites(d, spec.overlays, t.io).value.writes, p),
                          OnTop(LastWrite(PackagesWrites(d, spec.packages, sha, t.io).value.writes, p),
                                LastWrite(ArchiveWrites(Load(d, spec.base), t.io).value, p))))
  {
    if Staged(d, spec, db, sha, t).Some? {
      var tree := BeforeServices(d, spec, db, sha, t).value;
      var services := ServiceLayer(d, spec, db, tree, t).value;
      AppliedIs(tree, services, p);
      AppliedIs(map[], Layers(d, spec, db, sha, t).value, p);
      LayersIs(d, spec, db, sha, t, p);
    }
  }

  lemma OverlaysSnoc(d: Disk, ids: seq<Id>, id: Id, io: Codecs)
    ensures OverlaysWrites(d, ids + [id], io) == Then(OverlaysWrites(d, ids, io), Plain(ArchiveWrites(Load(d, id), io)))
  {
    assert (ids + [id])[..|ids|] == ids;
  }

  /** The writes of a list of overlays are those of its first part followed by those of its second. */
  lemma {:induction false} OverlaysSplit(d: Disk, a: seq<Id>, b: seq<Id>, io: Codecs)
    ensures OverlaysWrites(d, a + b, io) == Then(OverlaysWrites(d, a, io), OverlaysWrites(d, b, io))
  {
    if b == [] {
      assert a + b == a;
      ThenNothing(OverlaysWrites(d, a, io));
    } else {
      var init, last := b[..|b| - 1], b[|b| - 1];
      assert b == init + [last];
      assert a + b == (a + init) + [last];
      OverlaysSplit(d, a, init, io);
      OverlaysSnoc(d, a + init, last, io);
      OverlaysSnoc(d, init, last, io);
      ThenIsAssociative(OverlaysWrites(d, a, io), OverlaysWrites(d, init, io), Plain(ArchiveWrites(Load(d, last), io)));
    }
  }

  /** Installing a list of packages in two halves, or applying a list of overlays in two halves, gives the
      tree of the whole list. */
  lemma SplitListsComposeTheSame(d: Disk, t0: Tree, a: seq<Id>, b: seq<Id>, c: seq<Id>, e: seq<Id>, sha: Blob -> string, io: Codecs)
    requires PackagesWrites(d, a + b, sha, io).Some? && OverlaysWrites(d, c + e, io).Some?
    ensures PackagesWrites(d, a, sha, io).Some? && PackagesWrites(d, b, sha, io).Some?
    ensures OverlaysWrites(d, c, io).Some? && OverlaysWrites(d, e, io).Some?
    ensures Applied(t0, PackagesWrites(d, a + b, sha, io).value.writes)
         == Applied(Applied(t0, PackagesWrites(d, a, sha, io).value.writes), PackagesWrites(d, b, sha, io).value.writes)
    ensures Applied(t0, OverlaysWrites(d, c + e, io).value.writes)
         == Applied(Applied(t0, OverlaysWrites(d, c, io).value.writes), OverlaysWrites(d, e, io).value.writes)
  {
    PackagesSplit(d, a, b, sha, io);
    OverlaysSplit(d, c, e, io);
    AppliedAppend(t0, PackagesWrites(d, a, sha, io).value.writes, PackagesWrites(d, b, sha, io).value.writes);
    AppliedAppend(t0, OverlaysWrites(d, c, io).value.writes, OverlaysWrites(d, e, io).value.writes);
  }

  // ---------------------------------------------------------------------
  // Disabled services
  // ---------------------------------------------------------------------

  /** The i-th service writes the start script `p`. */
  predicate StartsAt(db: Services.ServiceTable, names: seq<string>, asked: string, i: nat, p: string)
    requires i < |names|
  {
    Services.InitSystem(db, names[i], asked) == "busybox"
    && p == Services.INIT_D + Services.Script(Services.Order(i), names[i])
  }

  predicate Started(db: Services.ServiceTable, names: seq<string>, asked: string, p: string) {
    exists i :: 0 <= i < |names| && StartsAt(db, names, asked, i, p)
  }

  lemma UnitsAreNotScripts(p: string, name: string)
    requires Services.INIT_D <= p
    ensures Services.UNITS + Services.UnitFile(name) != p && Services.WANTS + Services.UnitFile(name) != p
  {
    assert p[4] == 'i';
    assert (Services.UNITS + Services.UnitFile(name))[4] == 's';
    assert (Services.WANTS + Services.UnitFile(name))[4] == 's';
  }

  lemma ServiceWritesScript(tree: Tree, init: string, name: string, order: nat, unit: Option<Blob>, stubs: Services.Stubs, p: string)
    requires Services.INIT_D <= p && Services.ServiceWrites(tree, init, name, order, unit, stubs).Some?
    ensures LastWrite(Services.ServiceWrites(tree, init, name, order, unit, stubs).value, p).Some?
        <==> init == "busybox" && p == Services.INIT_D + Services.Script(order, name)
  {
    var ws := Services.ServiceWrites(tree, init, name, order, unit, stubs).value;
    UnitsAreNotScripts(p, name);
    if |ws| == 2 {
      LastWriteCons(ws[0], [ws[1]], p);
      assert ws == [ws[0]] + [ws[1]];
    } else {
      assert ws == [ws[0]];
    }
  }

  lemma StartsAtLast(db: Services.ServiceTable, names: seq<string>, asked: string, p: string)
    requires names != []
    ensures var n := |names| - 1;
      Started(db, names, asked, p) == (Started(db, names[..n], asked, p) || StartsAt(db, names, asked, n, p))
  {
    var n := |names| - 1;
    assert forall i :: 0 <= i < n ==> StartsAt(db, names, asked, i, p) == StartsAt(db, names[..n], asked, i, p);
  }

  lemma {:induction false} ScriptsWritten(tree: Tree, d: Disk, db: Services.ServiceTable, names: seq<string>, asked: string,
                                          stubs: Services.Stubs, p: string)
    requires Services.INIT_D <= p && Services.ServicesWrites(tree, d, db, names, asked, stubs).Some?
    ensures LastWrite(Services.ServicesWrites(tree, d, db, names, asked, stubs).value, p).Some?
        <==> Started(db, names, asked, p)
  {
    if names != [] {
      LastServiceWrites(tree, d, db, names, asked, stubs, p);
      ScriptsWritten(tree, d, db, names[..|names| - 1], asked, stubs, p);
      StartsAtLast(db, names, asked, p);
    }
  }

  lemma LastServiceWrites(tree: Tree, d: Disk, db: Services.ServiceTable, names: seq<string>, asked: string,
                          stubs: Services.Stubs, p: string)
    requires names != [] && Services.INIT_D <= p
    requires Services.ServicesWrites(tree, d, db, names, asked, stubs).Some?
    ensures var before := Services.ServicesWrites(tree, d, db, names[..|names| - 1], asked, stubs);
      var all := Services.ServicesWrites(tree, d, db, names, asked, stubs).value;
      before.Some? && LastWrite(all, p).Some? == (LastWrite(before.value, p).Some? || StartsAt(db, names, asked, |names| - 1, p))
  {
    var n := |names| - 1;
    assert names[..n + 1] == names;
    var before := Services.ServicesWrites(tree, d, db, names[..n], asked, stubs).value;
    var init, unit := Services.InitSystem(db, names[n], asked), Services.StoredUnit(d, db, names[n]);
    var one := Services.ServiceWrites(Applied(tree, before), init, names[n], Services.Order(n), unit, stubs).value;
    Services.NextService(tree, d, db, names, n, asked, stubs);
    ServiceWritesScript(Applied(tree, before), init, names[n], Services.Order(n), unit, stubs, p);
    LastWriteAppend(before, one, p);
  }

  /** A disabled script is in the composed tree exactly when a service of this composition writes it. */
  lemma DisabledSurvivesExactly(d: Disk, spec: Spec, db: Option<Database>, sha: Blob -> string, t: Tools, p: string)
    requires Staged(d, spec, db, sha, t).Some? && IsDisabled(t.glob, spec.disabled, p)
    ensures p in Staged(d, spec, db, sha, t).value
        <==> Started(ServiceTable(db), spec.services, spec.initSystem, p)
  {
    LastStageWins(d, spec, db, sha, t, p);
    ScriptsWritten(BeforeServices(d, spec, db, sha, t).value, d, ServiceTable(db), spec.services, spec.initSystem, t.stubs, p);
  }

  /** Some start script of `service` is in the tree. */
  ghost predicate HasScript(tree: Tree, glob: (string, string) -> bool, service: string) {
    exists p :: p in tree && Disables(glob, service, p)
  }

  /** Some service of the list gets a BusyBox script whose path is one of `service`'s. */
  ghost predicate StartsLike(db: Services.ServiceTable, names: seq<string>, asked: string, glob: (string, string) -> bool,
                             service: string) {
    exists i :: 0 <= i < |names| && ScriptLike(db, names, asked, glob, service, i)
  }

  predicate ScriptLike(db: Services.ServiceTable, names: seq<string>, asked: string, glob: (string, string) -> bool,
                       service: string, i: nat)
    requires i < |names|
  {
    Services.InitSystem(db, names[i], asked) == "busybox"
    && Disables(glob, service, Services.INIT_D + Services.Script(Services.Order(i), names[i]))
  }

  /** A disabled service keeps a start script exactly when the composition itself writes one that looks like
      its own, for any number of services and any patterns. */
  lemma DisabledKeepsScriptExactly(d: Disk, spec: Spec, db: Option<Database>, sha: Blob -> string, t: Tools, service: string)
    requires Staged(d, spec, db, sha, t).Some? && service in spec.disabled
    ensures HasScript(Staged(d, spec, db, sha, t).value, t.glob, service)
        <==> StartsLike(ServiceTable(db), spec.services, spec.initSystem, t.glob, service)
  {
    var tree, table, names := Staged(d, spec, db, sha, t).value, ServiceTable(db), spec.services;
    if HasScript(tree, t.glob, service) {
      var p :| p in tree && Disables(t.glob, service, p);
      DisabledSurvivesExactly(d, spec, db, sha, t, p);
      var i :| 0 <= i < |names| && StartsAt(table, names, spec.initSystem, i, p);
      assert ScriptLike(table, names, spec.initSystem, t.glob, service, i);
    }
    if StartsLike(table, names, spec.initSystem, t.glob, service) {
      var i :| 0 <= i < |names| && ScriptLike(table, names, spec.initSystem, t.glob, service, i);
      var p := Services.INIT_D + Services.Script(Services.Order(i), names[i]);
      assert StartsAt(table, names, spec.initSystem, i, p);
      DisabledSurvivesExactly(d, spec, db, sha, t, p);
    }
  }

  /** Names without glob characters match only themselves. */
  ghost predicate Literal(glob: (string, string) -> bool, service: string) {
    forall s :: glob(service, s) <==> s == service
  }

  lemma ShortScriptDisabled(glob: (string, string) -> bool, service: string, i: nat, name: string)
    requires i < 8 && Literal(glob, service)
    requires '/' !in name
    ensures Disables(glob, service, Services.INIT_D + Services.Script(Services.Order(i), name)) <==> name == service
  {
    Services.ShortScript(i, name);
    var n := |Services.INIT_D|;
    var p := Services.INIT_D + Services.Script(Services.Order(i), name);
    assert p[n..] == ['S', (50 + i) as char, '0'] + name;
    assert p[n + 3..] == name;
    assert p[n] == 'S' && p[n + 1] == (50 + i) as char && p[n + 2] == '0';
  }

  ghost predicate StartedByBusybox(db: Services.ServiceTable, names: seq<string>, asked: string, service: string) {
    exists i :: 0 <= i < |names| && names[i] == service && Services.InitSystem(db, names[i], asked) == "busybox"
  }

  /** With at most eight services, a disabled service keeps a start script exactly when it is itself
      among the services installed for BusyBox. */
  lemma DisabledIsGone(d: Disk, spec: Spec, db: Option<Database>, sha: Blob -> string, t: Tools, service: string)
    requires Staged(d, spec, db, sha, t).Some? && |spec.services| <= 8
    requires service in spec.disabled && Literal(t.glob, service)
    requires forall s :: s in spec.services ==> '/' !in s
    ensures HasScript(Staged(d, spec, db, sha, t).value, t.glob, service)
        <==> StartedByBusybox(ServiceTable(db), spec.services, spec.initSystem, service)
  {
    var table, names, asked := ServiceTable(db), spec.services, spec.initSystem;
    DisabledKeepsScriptExactly(d, spec, db, sha, t, service);
    forall i | 0 <= i < |names|
      ensures ScriptLike(table, names, asked, t.glob, service, i)
          <==> names[i] == service && Services.InitSystem(table, names[i], asked) == "busybox"
    {
      ShortScriptDisabled(t.glob, service, i, names[i]);
    }
  }

  /** The ninth service is numbered 100, so its script also looks like the two-digit script of a service
      called `0` plus its name, and survives the disabling of that one. */
  lemma NinthScriptEscapes(d: Disk, spec: Spec, db: Option<Database>, sha: Blob -> string, t: Tools, name: string)
    requires |spec.services| >= 9 && spec.services[8] == name && '/' !in name
    requires Services.InitSystem(ServiceTable(db), name, spec.initSystem) == "busybox"
    requires ['0'] + name in spec.disabled && Literal(t.glob, ['0'] + name)
    ensures Staged(d, spec, db, sha, t).Some? ==> HasScript(Staged(d, spec, db, sha, t).value, t.glob, ['0'] + name)
  {
    NinthScriptLike(t.glob, name);
    assert ScriptLike(ServiceTable(db), spec.services, spec.initSystem, t.glob, ['0'] + name, 8);
    if Staged(d, spec, db, sha, t).Some? {
      DisabledKeepsScriptExactly(d, spec, db, sha, t, ['0'] + name);
    }
  }

  lemma NinthScriptLike(glob: (string, string) -> bool, name: string)
    requires '/' !in name && Literal(glob, ['0'] + name)
    ensures Disables(glob, ['0'] + name, Services.INIT_D + Services.Script(Services.Order(8), name))
  {
    var n := |Services.INIT_D|;
    var p := Services.INIT_D + Services.Script(Services.Order(8), name);
    assert p[n..] == ['S', '1', '0', '0'] + name;
    assert p[n + 3..] == ['0'] + name;
    assert p[n] == 'S' && p[n + 1] == '1' && p[n + 2] == '0';
  }

  // ---------------------------------------------------------------------
  // Repeatability
  // ---------------------------------------------------------------------

  /** None of the artifacts that the composition reads is the composed one; they may be missing. */
  ghost predicate InputsAside(d: Disk, spec: Spec, db: Option<Database>) {
    var composed := KeyId(d, Key(spec));
    && spec.base != composed && composed !in spec.packages && composed !in spec.overlays
    && (db.Some? ==> forall s :: s in spec.services && s in db.value.services ==> db.value.services[s].unit != Some(composed))
  }

  lemma {:induction false} SamePackages(d: Disk, d': Disk, ids: seq<Id>, sha: Blob -> string, io: Codecs)
    requires forall id :: id in ids ==> Load(d', id) == Load(d, id)
    ensures PackagesWrites(d', ids, sha, io) == PackagesWrites(d, ids, sha, io)
  {
    if ids != [] {
      SamePackages(d, d', ids[..|ids| - 1], sha, io);
      assert ids[|ids| - 1] in ids;
    }
  }

  lemma {:induction false} SameOverlays(d: Disk, d': Disk, ids: seq<Id>, io: Codecs)
    requires forall id :: id in ids ==> Load(d', id) == Load(d, id)
    ensures OverlaysWrites(d', ids, io) == OverlaysWrites(d, ids, io)
  {
    if ids != [] {
      SameOverlays(d, d', ids[..|ids| - 1], io);
      assert ids[|ids| - 1] in ids;
    }
  }

  lemma {:induction false} SameServices(tree: Tree, d: Disk, d': Disk, db: Services.ServiceTable, names: seq<string>,
                                        asked: string, stubs: Services.Stubs)
    requires forall s :: s in names ==> Services.StoredUnit(d', db, s) == Services.StoredUnit(d, db, s)
    ensures Services.ServicesWrites(tree, d', db, names, asked, stubs) == Services.ServicesWrites(tree, d, db, names, asked, stubs)
  {
    if names != [] {
      assert names[|names| - 1] in names;
      SameServices(tree, d, d', db, names[..|names| - 1], asked, stubs);
    }
  }

  lemma SameLayers(d: Disk, d': Disk, spec: Spec, db: Option<Database>, sha: Blob -> string, t: Tools)
    requires Load(d', spec.base) == Load(d, spec.base)
    requires forall id :: id in spec.packages || id in spec.overlays ==> Load(d', id) == Load(d, id)
    ensures Layers(d', spec, db, sha, t) == Layers(d, spec, db, sha, t)
  {
    SamePackages(d, d', spec.packages, sha, t.io);
    SameOverlays(d, d', spec.overlays, t.io);
  }

  /** The same inputs give the same tree, whatever else is in the store. */
  lemma SameInputsSameTree(d: Disk, d': Disk, spec: Spec, db: Option<Database>, sha: Blob -> string, t: Tools)
    requires Load(d', spec.base) == Load(d, spec.base)
    requires forall id :: id in spec.packages || id in spec.overlays ==> Load(d', id) == Load(d, id)
    requires forall s :: s in spec.services ==> Services.StoredUnit(d', ServiceTable(db), s) == Services.StoredUnit(d, ServiceTable(db), s)
    ensures Staged(d', spec, db, sha, t) == Staged(d, spec, db, sha, t)
  {
    SameLayers(d, d', spec, db, sha, t);
    var tree := BeforeServices(d, spec, db, sha, t);
    assert BeforeServices(d', spec, db, sha, t) == tree;
    if tree.Some? {
      SameServices(tree.value, d, d', ServiceTable(db), spec.services, spec.initSystem, t.stubs);
    }
  }

  /** Composing again from unchanged inputs finds the same artifact and leaves the store as it is. */
  lemma ComposeTwice(d: Disk, spec: Spec, db: Option<Database>, sha: Blob -> string, t: Tools)
    requires Sound(d, sha) && InputsAside(d, spec, db)
    ensures var once := Stored(d, spec, db, sha, t);
      && Staged(once, spec, db, sha, t) == Staged(d, spec, db, sha, t)
      && Stored(once, spec, db, sha, t) == once
  {
    if Staged(d, spec, db, sha, t).Some? {
      var archive := t.pack(Staged(d, spec, db, sha, t).value);
      var once := Stored(d, spec, db, sha, t);
      var key, c := Key(spec), Describe(spec, archive, sha, t);
      IngestKeepsLoads(d, key, c, archive, spec.base, sha);
      forall id | id in spec.packages || id in spec.overlays ensures Load(once, id) == Load(d, id) {
        IngestKeepsLoads(d, key, c, archive, id, sha);
      }
      forall s | s in spec.services
        ensures Services.StoredUnit(once, ServiceTable(db), s) == Services.StoredUnit(d, ServiceTable(db), s)
      {
        if db.Some? && s in db.value.services && db.value.services[s].unit.Some? {
          IngestKeepsLoads(d, key, c, archive, db.value.services[s].unit.value, sha);
        }
      }
      SameInputsSameTree(d, once, spec, db, sha, t);
      IngestTwice(d, key, c, archive);
    }
  }

  /** Compositions keep the store sound, leave every other artifact's row alone, and never disturb the
      cache of fetched sources. */
  lemma ComposeKeepsStore(d: Disk, spec: Spec, db: Option<Database>, sha: Blob -> string, t: Tools,
                          sources: seq<Fetch.Source>, key: string)
    requires Sound(d, sha) && key != Key(spec)
    ensures Sound(Stored(d, spec, db, sha, t), sha)
    ensures ValueOf(Stored(d, spec, db, sha, t).rows, key) == ValueOf(d.rows, key)
    ensures Fetch.Trusted(d, sources) ==> Fetch.Trusted(Stored(d, spec, db, sha, t), sources)
  {
    if Staged(d, spec, db, sha, t).Some? {
      var archive := t.pack(Staged(d, spec, db, sha, t).value);
      var c := Describe(spec, archive, sha, t);
      IngestKeepsSound(d, Key(spec), c, archive, sha);
      IngestKeepsRows(d, Key(spec), c, archive, key);
      forall s, r | s in sources && r in Stored(d, spec, db, sha, t).rows && r.key == Fetch.StoreKey(s) ensures r in d.rows {
        Fetch.RowsAfterIngest(d, Key(spec), c, archive, r);
        Fetch.StoreKeyHasPrefix(s);
        assert Fetch.StoreKey(s)[0] == 's' && Key(spec)[0] == 'r';
      }
    }
  }

  // ---------------------------------------------------------------------
  // The composed artifact and the configuration files
  // ---------------------------------------------------------------------

  /** A first composition is recorded under a key made of distribution, profile and board. */
  lemma ComposedRow(d: Disk, spec: Spec, db: Option<Database>, sha: Blob -> string, t: Tools)
    requires Staged(d, spec, db, sha, t).Some?
    ensures var key := "rootfs/" + spec.distribution + "/" + spec.profile + "/" + spec.board + "/composed.tar.gz";
      var archive := t.pack(Staged(d, spec, db, sha, t).value);
      !Present(d.rows, key) ==>
        ValueOf(Stored(d, spec, db, sha, t).rows, key) ==
          Some(Content("rootfs", spec.distribution + "-" + spec.profile + "-" + spec.board, Some("latest"), Some(spec.arch),
                       sha(archive), |archive|, Some("application/x-gzip"), "staging",
                       Some(t.provenance(spec, archive).0), Some(t.provenance(spec, archive).1)))
  {
    var archive := t.pack(Staged(d, spec, db, sha, t).value);
    IngestStoresRow(d, Key(spec), Describe(spec, archive, sha, t), archive);
  }

  /** Four files, rendered from the values of the distribution, or from none without a distribution; nothing is
      written without a database, or for a distribution without values. */
  lemma ConfigsWritten(distribution: Option<string>, db: Option<Database>, t: Tools)
    ensures var ws := ConfigWrites(distribution, db, t);
      && (db.None? ==> ws == [])
      && (db.Some? && distribution.None? ==> WritesConfigs(ws, map[], t))
      && (db.Some? && distribution.Some? && distribution.value !in db.value.configs ==> ws == [])
      && (db.Some? && distribution.Some? && distribution.value in db.value.configs ==>
            var vals := db.value.configs[distribution.value];
            if vals == map[] then ws == [] else WritesConfigs(ws, vals, t))
  {
  }

  ghost predicate WritesConfigs(ws: seq<Member>, vals: map<string, string>, t: Tools) {
    var paths := ["etc/hostapd.conf", "etc/nanodhcp/nanodhcp.conf", "etc/tinywifi/web.toml", "etc/init.d/S40network"];
    |ws| == 4 && forall i :: 0 <= i < 4 ==> ws[i] == Member(paths[i], File(t.renderConfig(paths[i], vals)))
  }

  /** A package is reported by its name and version, with question marks for what it does not say. */
  lemma LabelIs(m: Manifest)
    ensures m.name.Some? && m.version.Some? ==> Label(m) == m.name.value + "-" + m.version.value
    ensures m.name.None? && m.version.None? ==> Label(m) == "?" + "-" + "?"
  {
  }

  /** The base image and each overlay are unpacked as their blob lists them. */
  lemma ArchiveIs(d: Disk, id: Id, row: Content, data: Blob, io: Codecs)
    ensures Load(d, id) == Found(row, data) ==> ArchiveWrites(Load(d, id), io) == io.untar(data)
    ensures !Load(d, id).Found? ==> ArchiveWrites(Load(d, id), io) == None
    ensures var one := OverlaysWrites(d, [id], io);
      && (one.Some? <==> ArchiveWrites(Load(d, id), io).Some?)
      && (one.Some? ==> one.value.writes == ArchiveWrites(Load(d, id), io).value)
  {
    assert [id][..0] == [];
    if ArchiveWrites(Load(d, id), io).Some? {
      assert [] + ArchiveWrites(Load(d, id), io).value == ArchiveWrites(Load(d, id), io).value;
    }
  }
}
