/** Composing a root filesystem: layered writes into a staging tree, then one ingest. */
module Rootfs {
  import opened Wrappers
  import opened Bytes
  import opened Tables
  import opened Ordering
  import opened ArtifactStore
  import opened Staging
  import opened Packages
  import Services

  datatype Spec = Spec(
    distribution: string,
    profile: string,
    board: string,
    arch: string,
    base: Id,
    packages: seq<Id>,
    overlays: seq<Id>,
    services: seq<string>,
    initSystem: string,
    distributionId: Option<string>,
    disabled: seq<string>)

  datatype Database = Database(services: map<string, Services.ServiceRow>, configs: map<string, map<string, string>>)

  datatype Tools = Tools(
    io: Codecs,
    stubs: Services.Stubs,
    renderConfig: (string, map<string, string>) -> Blob,
    glob: (string, string) -> bool,
    pack: Tree -> Blob,
    provenance: (Spec, Blob) -> (string, string))

  datatype Outcome = Composed(id: Id, packages: seq<string>, overlays: nat, services: set<string>) | Failed(error: Error)

  // ---------------------------------------------------------------------
  // Stage by stage
  // ---------------------------------------------------------------------

  /** The writes of an archive artifact that is extracted as it is: the base image or an overlay. */
  function ArchiveWrites(loaded: Loaded, io: Codecs): Option<seq<Member>> {
    if loaded.Found? then io.untar(loaded.data) else None
  }

  method ExtractArchive(stage: Stage, store: Store, id: Id, io: Codecs) returns (bad: Option<Error>)
    modifies stage
    ensures var w := ArchiveWrites(Load(store.State(), id), io);
      && (bad.None? <==> w.Some?)
      && (bad.None? ==> stage.tree == Applied(old(stage.tree), w.value))
    ensures Load(store.State(), id).NoRow? ==> bad == Some(ArtifactMissing)
  {
    var loaded := store.Open(id);
    if loaded.NoRow? {
      return Some(ArtifactMissing);
    }
    if loaded.NoBlob? {
      return Some(BlobMissing);
    }
    var members := io.untar(loaded.data);
    if members.None? {
      return Some(BadArchive);
    }
    stage.ExtractAll(members.value);
    return None;
  }

  function Plain(writes: Option<seq<Member>>): Option<Batch> {
    if writes.Some? then Some(Batch(writes.value, [])) else None
  }

  function OverlaysWrites(d: Disk, ids: seq<Id>, io: Codecs): Option<Batch> {
    if ids == [] then Some(Batch([], []))
    else
      var n := |ids| - 1;
      Then(OverlaysWrites(d, ids[..n], io), Plain(ArchiveWrites(Load(d, ids[n]), io)))
  }

  lemma {:induction false} OverlayPrefixFails(d: Disk, ids: seq<Id>, n: nat, io: Codecs)
    requires n <= |ids| && OverlaysWrites(d, ids[..n], io).None?
    ensures OverlaysWrites(d, ids, io).None?
    decreases |ids|
  {
    if n == |ids| {
      assert ids[..n] == ids;
    } else {
      var init := ids[..|ids| - 1];
      assert init[..n] == ids[..n];
      OverlayPrefixFails(d, init, n, io);
    }
  }

  /** Overlays need a database. */
  method ApplyOverlays(stage: Stage, store: Store, ids: seq<Id>, db: bool, io: Codecs) returns (r: Result<nat, Error>)
    modifies stage
    ensures var w := OverlaysWrites(store.State(), ids, io);
      && (r.Ok? <==> w.Some? && (db || ids == []))
      && (r.Ok? ==> r.value == |ids| && stage.tree == Applied(old(stage.tree), w.value.writes))
  {
    var count := 0;
    while count < |ids|
      invariant 0 <= count <= |ids| && (count > 0 ==> db)
      invariant var w := OverlaysWrites(store.State(), ids[..count], io);
        w.Some? && stage.tree == Applied(old(stage.tree), w.value.writes)
    {
      ghost var before := OverlaysWrites(store.State(), ids[..count], io).value.writes;
      assert ids[..count + 1][..count] == ids[..count];
      if !db {
        return Err(NoDatabase);
      }
      var bad := ExtractArchive(stage, store, ids[count], io);
      if bad.Some? {
        OverlayPrefixFails(store.State(), ids, count + 1, io);
        return Err(bad.value);
      }
      AppliedAppend(old(stage.tree), before, ArchiveWrites(Load(store.State(), ids[count]), io).value);
      count := count + 1;
    }
    assert ids[..count] == ids;
    return Ok(count);
  }

  const CONFIG_FILES := ["etc/hostapd.conf", "etc/nanodhcp/nanodhcp.conf", "etc/tinywifi/web.toml", "etc/init.d/S40network"]

  function ConfigFile(path: string, vals: map<string, string>, t: Tools): Member {
    Member(path, File(t.renderConfig(path, vals)))
  }

  function Rendered(paths: seq<string>, vals: map<string, string>, t: Tools): seq<Member> {
    seq(|paths|, i requires 0 <= i < |paths| => ConfigFile(paths[i], vals, t))
  }

  /** The four files for the distribution's values, if it has any; the defaults without a distribution. */
  function ConfigWrites(distribution: Option<string>, db: Option<Database>, t: Tools): seq<Member> {
    if db.None? then []
    else if distribution.None? then Rendered(CONFIG_FILES, map[], t)
    else if distribution.value !in db.value.configs || db.value.configs[distribution.value] == map[] then []
    else Rendered(CONFIG_FILES, db.value.configs[distribution.value], t)
  }

  method ApplyConfigs(stage: Stage, paths: seq<string>, vals: map<string, string>, t: Tools)
    modifies stage
    ensures stage.tree == Applied(old(stage.tree), Rendered(paths, vals, t))
  {
    var i := 0;
    while i < |paths|
      invariant 0 <= i <= |paths|
      invariant stage.tree == Applied(old(stage.tree), Rendered(paths[..i], vals, t))
    {
      AppliedSnoc(old(stage.tree), Rendered(paths[..i], vals, t), ConfigFile(paths[i], vals, t));
      assert Rendered(paths[..i + 1], vals, t) == Rendered(paths[..i], vals, t) + [ConfigFile(paths[i], vals, t)];
      stage.Write(paths[i], File(t.renderConfig(paths[i], vals)));
      i := i + 1;
    }
    assert paths[..i] == paths;
  }

  // ---------------------------------------------------------------------
  // Disabling services
  // ---------------------------------------------------------------------

  predicate IsDigit(c: char) {
    '0' <= c <= '9'
  }

  /** `p` is `etc/init.d/S<digit><digit>` followed by something that matches `service`. */
  predicate Disables(glob: (string, string) -> bool, service: string, p: string) {
    var n := |Services.INIT_D|;
    && Services.INIT_D <= p && |p| >= n + 3 && '/' !in p[n..]
    && p[n] == 'S' && IsDigit(p[n + 1]) && IsDigit(p[n + 2]) && glob(service, p[n + 3..])
  }

  predicate IsDisabled(glob: (string, string) -> bool, services: seq<string>, p: string) {
    exists s :: s in services && Disables(glob, s, p)
  }

  function Without(t: Tree, glob: (string, string) -> bool, services: seq<string>): Tree {
    map p | p in t && !IsDisabled(glob, services, p) :: t[p]
  }

  /** Only files and links can be unlinked. */
  ghost predicate Removable(t: Tree, glob: (string, string) -> bool, services: seq<string>) {
    forall p :: p in t && IsDisabled(glob, services, p) ==> !t[p].Dir?
  }

  lemma WithoutNext(t: Tree, glob: (string, string) -> bool, services: seq<string>, i: nat)
    requires i < |services|
    ensures Without(t, glob, services[..i + 1])
         == map p | p in Without(t, glob, services[..i]) && !Disables(glob, services[i], p) :: t[p]
  {
    forall p ensures IsDisabled(glob, services[..i + 1], p) <==>
        IsDisabled(glob, services[..i], p) || Disables(glob, services[i], p)
    {
      assert services[..i + 1] == services[..i] + [services[i]];
      assert services[i] in services[..i + 1];
      if IsDisabled(glob, services[..i], p) {
        var s :| s in services[..i] && Disables(glob, s, p);
        assert s in services[..i + 1];
      }
    }
  }

  method DisableService(stage: Stage, glob: (string, string) -> bool, service: string) returns (ok: bool)
    modifies stage
    ensures ok <==> forall p :: p in old(stage.tree) && Disables(glob, service, p) ==> !old(stage.tree)[p].Dir?
    ensures ok ==> stage.tree == map p | p in old(stage.tree) && !Disables(glob, service, p) :: old(stage.tree)[p]
  {
    var scripts := set p | p in stage.tree && Disables(glob, service, p);
    ghost var all := scripts;
    while scripts != {}
      invariant scripts <= all
      invariant forall p :: p in all - scripts ==> !old(stage.tree)[p].Dir?
      invariant stage.tree == old(stage.tree) - (all - scripts)
    {
      var script :| script in scripts;
      if stage.tree[script].Dir? {
        return false;
      }
      stage.Remove(script);
      scripts := scripts - {script};
    }
    return true;
  }

  method DisableServices(stage: Stage, glob: (string, string) -> bool, services: seq<string>) returns (ok: bool)
    modifies stage
    ensures ok <==> Removable(old(stage.tree), glob, services)
    ensures ok ==> stage.tree == Without(old(stage.tree), glob, services)
  {
    ghost var t := stage.tree;
    var i := 0;
    while i < |services|
      invariant 0 <= i <= |services|
      invariant stage.tree == Without(t, glob, services[..i])
      invariant Removable(t, glob, services[..i])
    {
      WithoutNext(t, glob, services, i);
      ghost var was := stage.tree;
      ok := DisableService(stage, glob, services[i]);
      if !ok {
        ghost var p :| p in was && Disables(glob, services[i], p) && was[p].Dir?;
        assert p in t && IsDisabled(glob, services, p);
        return;
      }
      RemovableNext(t, glob, services, i);
      i := i + 1;
    }
    assert services[..i] == services;
    return true;
  }

  lemma RemovableNext(t: Tree, glob: (string, string) -> bool, services: seq<string>, i: nat)
    requires i < |services| && Removable(t, glob, services[..i])
    requires forall p :: p in Without(t, glob, services[..i]) && Disables(glob, services[i], p) ==> !t[p].Dir?
    ensures Removable(t, glob, services[..i + 1])
  {
    forall p | p in t && IsDisabled(glob, services[..i + 1], p) ensures !t[p].Dir? {
      if !IsDisabled(glob, services[..i], p) {
        var s :| s in services[..i + 1] && Disables(glob, s, p);
        assert services[..i + 1] == services[..i] + [services[i]];
        assert s == services[i];
        assert p in Without(t, glob, services[..i]);
      }
    }
  }

  // ---------------------------------------------------------------------
  // The whole composition
  // ---------------------------------------------------------------------

  function ServiceTable(db: Option<Database>): Services.ServiceTable {
    if db.Some? then Some(db.value.services) else None
  }

  /** What the stages before the disable step write; `None` when one of them raises. */
  ghost function Layers(d: Disk, spec: Spec, db: Option<Database>, sha: Blob -> string, t: Tools): Option<seq<Member>> {
    var base := ArchiveWrites(Load(d, spec.base), t.io);
    var packages := PackagesWrites(d, spec.packages, sha, t.io);
    var overlays := OverlaysWrites(d, spec.overlays, t.io);
    if base.None? || packages.None? || overlays.None? || (db.None? && spec.overlays != []) then None
    else Some(base.value + packages.value.writes + overlays.value.writes + ConfigWrites(spec.distributionId, db, t))
  }

  ghost function BeforeServices(d: Disk, spec: Spec, db: Option<Database>, sha: Blob -> string, t: Tools): Option<Tree> {
    var layers := Layers(d, spec, db, sha, t);
    if layers.None? || !Removable(Applied(map[], layers.value), t.glob, spec.disabled) then None
    else Some(Without(Applied(map[], layers.value), t.glob, spec.disabled))
  }

  ghost function ServiceLayer(d: Disk, spec: Spec, db: Option<Database>, tree: Tree, t: Tools): Option<seq<Member>> {
    Services.ServicesWrites(tree, d, ServiceTable(db), spec.services, spec.initSystem, t.stubs)
  }

  /** The staging tree that is packed. */
  ghost function Staged(d: Disk, spec: Spec, db: Option<Database>, sha: Blob -> string, t: Tools): Option<Tree> {
    var tree := BeforeServices(d, spec, db, sha, t);
    if tree.None? then None
    else
      var services := ServiceLayer(d, spec, db, tree.value, t);
      if services.None? then None else Some(Applied(tree.value, services.value))
  }

  function Key(spec: Spec): string {
    "rootfs/" + spec.distribution + "/" + spec.profile + "/" + spec.board + "/composed.tar.gz"
  }

  function Describe(spec: Spec, archive: Blob, sha: Blob -> string, t: Tools): Content {
    var (inputHash, repro) := t.provenance(spec, archive);
    Content("rootfs", spec.distribution + "-" + spec.profile + "-" + spec.board, Some("latest"), Some(spec.arch),
            sha(archive), |archive|, Some("application/x-gzip"), "staging", Some(inputHash), Some(repro))
  }

  function Label(m: Manifest): string {
    Or(m.name, "?") + "-" + Or(m.version, "?")
  }

  /** The store after the call: untouched unless every stage succeeded. */
  ghost function Stored(d: Disk, spec: Spec, db: Option<Database>, sha: Blob -> string, t: Tools): Disk {
    var tree := Staged(d, spec, db, sha, t);
    if tree.None? then d
    else
      var archive := t.pack(tree.value);
      Ingested(d, Key(spec), Describe(spec, archive, sha, t), archive)
  }

  /** Runs the stages up to the disable step. */
  method StageLayers(stage: Stage, store: Store, spec: Spec, db: Option<Database>, t: Tools)
    returns (r: Result<seq<Manifest>, Error>)
    requires stage.tree == map[]
    modifies stage
    ensures var layers := Layers(store.State(), spec, db, store.sha, t);
      && (r.Ok? <==> layers.Some?)
      && (r.Ok? ==> stage.tree == Applied(map[], layers.value))
      && (r.Ok? ==> r.value == PackagesWrites(store.State(), spec.packages, store.sha, t.io).value.manifests)
  {
    ghost var d := store.State();
    var bad := ExtractArchive(stage, store, spec.base, t.io);
    if bad.Some? {
      return Err(bad.value);
    }
    r := InstallPackages(stage, store, spec.packages, t.io);
    if r.Err? {
      return;
    }
    var overlays := ApplyOverlays(stage, store, spec.overlays, db.Some?, t.io);
    if overlays.Err? {
      return Err(overlays.error);
    }
    if db.Some? {
      if spec.distributionId.None? {
        ApplyConfigs(stage, CONFIG_FILES, map[], t);
      } else if spec.distributionId.value in db.value.configs {
        var vals := db.value.configs[spec.distributionId.value];
        if vals != map[] {
          ApplyConfigs(stage, CONFIG_FILES, vals, t);
        }
      }
    }
    FourLayers(ArchiveWrites(Load(d, spec.base), t.io).value, PackagesWrites(d, spec.packages, store.sha, t.io).value.writes,
               OverlaysWrites(d, spec.overlays, t.io).value.writes, ConfigWrites(spec.distributionId, db, t));
  }

  lemma FourLayers(a: seq<Member>, b: seq<Member>, c: seq<Member>, e: seq<Member>)
    ensures Applied(map[], a + b + c + e) == Applied(Applied(Applied(Applied(map[], a), b), c), e)
  {
    AppliedAppend(map[], a + b + c, e);
    AppliedAppend(map[], a + b, c);
    AppliedAppend(map[], a, b);
  }

  /** All stages up to packing. */
  method StageRootfs(stage: Stage, store: Store, spec: Spec, db: Option<Database>, t: Tools)
    returns (r: Result<(seq<Manifest>, set<string>), Error>)
    requires stage.tree == map[]
    modifies stage
    ensures var staged := Staged(store.State(), spec, db, store.sha, t);
      && (r.Ok? <==> staged.Some?)
      && (r.Ok? ==> stage.tree == staged.value)
    ensures r.Ok? ==>
      && PackagesWrites(store.State(), spec.packages, store.sha, t.io).Some?
      && r.value.0 == PackagesWrites(store.State(), spec.packages, store.sha, t.io).value.manifests
      && r.value.1 == set s | s in spec.services
  {
    ghost var d := store.State();
    var manifests := StageLayers(stage, store, spec, db, t);
    if manifests.Err? {
      return Err(manifests.error);
    }
    var removed := DisableServices(stage, t.glob, spec.disabled);
    if !removed {
      return Err(NotAFile);
    }
    assert BeforeServices(d, spec, db, store.sha, t) == Some(stage.tree);
    var installed := Services.InstallServices(stage, store, ServiceTable(db), spec.services, spec.initSystem, t.stubs);
    if installed.Err? {
      return Err(installed.error);
    }
    Services.ReportNames(ServiceTable(db), spec.services, spec.initSystem);
    return Ok((manifests.value, installed.value.Keys));
  }

  /** A failure in any stage leaves the store as it was; otherwise one artifact is ingested, at the end. */
  method ComposeRootfs(store: Store, spec: Spec, db: Option<Database>, t: Tools) returns (r: Outcome)
    modifies store
    ensures store.State() == Stored(old(store.State()), spec, db, store.sha, t)
    ensures r.Failed? <==> Staged(old(store.State()), spec, db, store.sha, t).None?
    ensures r.Failed? ==> store.State() == old(store.State())
    ensures r.Composed? ==>
      && Present(store.rows, Key(spec)) && r.id == IdOf(store.rows, Key(spec))
      && PackagesWrites(old(store.State()), spec.packages, store.sha, t.io).Some?
      && r.packages == Map(Label, PackagesWrites(old(store.State()), spec.packages, store.sha, t.io).value.manifests)
      && r.overlays == |spec.overlays|
      && r.services == set s | s in spec.services
  {
    var stage := new Stage();
    var staged := StageRootfs(stage, store, spec, db, t);
    if staged.Err? {
      return Failed(staged.error);
    }
    var archive := t.pack(stage.tree);
    var id := store.Ingest(archive, Key(spec), Describe(spec, archive, store.sha, t), None);
    return Composed(id.value, Map(Label, staged.value.0), |spec.overlays|, staged.value.1);
  }
}
