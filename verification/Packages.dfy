/** Installing package artifacts into the staging tree. */
module Packages {
  import opened Wrappers
  import opened Bytes
  import opened Tables
  import opened ArtifactStore
  import opened Staging

  datatype Manifest = Manifest(name: Option<string>, version: Option<string>, arch: Option<string>, rest: map<string, string>)

  /** The file formats, as functions; `None` stands for the exception raised on malformed input. */
  datatype Codecs = Codecs(
    unzip: Blob -> Option<map<string, Blob>>,
    untar: Blob -> Option<seq<Member>>,
    decode: Blob -> Option<string>,
    parseManifest: Blob -> Option<Manifest>,
    printManifest: Manifest -> Blob,
    showId: Id -> string)

  // ---------------------------------------------------------------------
  // The checksum file
  // ---------------------------------------------------------------------

  /** The characters at which `str.splitlines` breaks. */
  predicate IsBreak(c: char) {
    var n := c as int;
    10 <= n <= 13 || 28 <= n <= 30 || n == 133 || n == 8232 || n == 8233
  }

  /** The characters that `str.strip` removes. */
  predicate IsSpace(c: char) {
    var n := c as int;
    9 <= n <= 13 || 28 <= n <= 32 || n == 133 || n == 160 || n == 5760 || 8192 <= n <= 8202
    || n == 8232 || n == 8233 || n == 8239 || n == 8287 || n == 12288
  }

  function Lines(s: string, from: nat, at: nat): seq<string>
    requires from <= at <= |s|
    decreases |s| - at
  {
    if at == |s| then [s[from..at]]
    else if IsBreak(s[at]) then [s[from..at]] + Lines(s, at + 1, at + 1)
    else Lines(s, from, at + 1)
  }

  function Strip(s: string): (r: string)
    ensures r != "" ==> !IsSpace(r[0]) && !IsSpace(r[|r| - 1])
    decreases |s|
  {
    if s == "" then s
    else if IsSpace(s[0]) then Strip(s[1..])
    else if IsSpace(s[|s| - 1]) then Strip(s[..|s| - 1])
    else s
  }

  /** Position of the first double blank, `|s|` when there is none. */
  function Gap(s: string): (i: nat)
    ensures i <= |s|
    ensures i < |s| ==> i + 1 < |s| && s[i] == ' ' && s[i + 1] == ' '
  {
    if s == "" then 0
    else if |s| > 1 && s[0] == ' ' && s[1] == ' ' then 0
    else 1 + Gap(s[1..])
  }

  /** The (member, digest) entry of a line; blank lines and comments have none. */
  function Entry(line: string): Option<(string, string)> {
    var l := Strip(line);
    if l == "" || l[0] == '#' then None
    else
      var i := Gap(l);
      if i == |l| then Some(("", Strip(l))) else Some((Strip(l[i + 2..]), Strip(l[..i])))
  }

  /** The digest listed for `member`, the last one if it is listed twice. */
  function Listed(lines: seq<string>, member: string): Option<string> {
    if lines == [] then None
    else
      var e := Entry(lines[|lines| - 1]);
      if e.Some? && e.value.0 == member then Some(e.value.1) else Listed(lines[..|lines| - 1], member)
  }

  method ParseChecksums(text: string) returns (checksums: map<string, string>)
    ensures forall m :: m in checksums <==> Listed(Lines(text, 0, 0), m).Some?
    ensures forall m :: m in checksums ==> Listed(Lines(text, 0, 0), m) == Some(checksums[m])
  {
    var lines := Lines(text, 0, 0);
    checksums := map[];
    var i := 0;
    while i < |lines|
      invariant 0 <= i <= |lines|
      invariant forall m :: m in checksums <==> Listed(lines[..i], m).Some?
      invariant forall m :: m in checksums ==> Listed(lines[..i], m) == Some(checksums[m])
    {
      assert lines[..i + 1][..i] == lines[..i];
      var e := Entry(lines[i]);
      if e.Some? {
        checksums := checksums[e.value.0 := e.value.1];
      }
      i := i + 1;
    }
    assert lines[..i] == lines;
  }

  /** Every listed member is present with the listed digest. */
  ghost predicate Intact(zip: map<string, Blob>, lines: seq<string>, sha: Blob -> string) {
    forall m :: Listed(lines, m).Some? ==> m in zip && sha(zip[m]) == Listed(lines, m).value
  }

  method VerifyChecksums(zip: map<string, Blob>, checksums: map<string, string>, sha: Blob -> string)
    returns (r: Option<Error>)
    ensures r.None? <==> forall m :: m in checksums ==> m in zip && sha(zip[m]) == checksums[m]
  {
    var rest := checksums.Keys;
    while rest != {}
      invariant rest <= checksums.Keys
      invariant forall m :: m in checksums && m !in rest ==> m in zip && sha(zip[m]) == checksums[m]
    {
      var m :| m in rest;
      if m !in zip {
        return Some(MemberMissing);
      }
      if sha(zip[m]) != checksums[m] {
        return Some(ChecksumMismatch);
      }
      rest := rest - {m};
    }
    return None;
  }

  // ---------------------------------------------------------------------
  // Package archives
  // ---------------------------------------------------------------------

  const MANIFEST := "manifest.json"
  const FILES := "files.tar.gz"
  const CHECKSUMS := "checksums.sha256"

  /** What a `.ofpkg` archive installs; `None` when it is refused. */
  ghost function Ofpkg(data: Blob, sha: Blob -> string, io: Codecs): Option<(seq<Member>, Manifest)> {
    var zip := io.unzip(data);
    if zip.None? || MANIFEST !in zip.value || FILES !in zip.value || CHECKSUMS !in zip.value then None
    else
      var manifest := io.parseManifest(zip.value[MANIFEST]);
      var text := io.decode(zip.value[CHECKSUMS]);
      if manifest.None? || text.None? || !Intact(zip.value, Lines(text.value, 0, 0), sha) then None
      else
        var files := io.untar(zip.value[FILES]);
        if files.None? then None else Some((files.value, manifest.value))
  }

  /** Checksums are verified before anything is written. */
  method InstallOfpkg(stage: Stage, data: Blob, sha: Blob -> string, io: Codecs) returns (r: Result<Manifest, Error>)
    modifies stage
    ensures r.Ok? <==> Ofpkg(data, sha, io).Some?
    ensures r.Ok? ==> stage.tree == Applied(old(stage.tree), Ofpkg(data, sha, io).value.0)
                      && r.value == Ofpkg(data, sha, io).value.1
    ensures r.Err? ==> stage.tree == old(stage.tree)
  {
    var zip := io.unzip(data);
    if zip.None? {
      return Err(BadArchive);
    }
    if MANIFEST !in zip.value || FILES !in zip.value || CHECKSUMS !in zip.value {
      return Err(MemberMissing);
    }
    var manifest := io.parseManifest(zip.value[MANIFEST]);
    if manifest.None? {
      return Err(BadManifest);
    }
    var text := io.decode(zip.value[CHECKSUMS]);
    if text.None? {
      return Err(BadChecksums);
    }
    var checksums := ParseChecksums(text.value);
    var bad := VerifyChecksums(zip.value, checksums, sha);
    if bad.Some? {
      return Err(bad.value);
    }
    var files := io.untar(zip.value[FILES]);
    if files.None? {
      return Err(BadArchive);
    }
    stage.ExtractAll(files.value);
    return Ok(manifest.value);
  }

  /** A package that lists its file archive refuses any other file archive under the same checksums. */
  lemma TamperedIsRefused(zip: map<string, Blob>, data: Blob, data': Blob, files': Blob, sha: Blob -> string, io: Codecs)
    requires Injective(sha) && Ofpkg(data, sha, io).Some? && io.unzip(data) == Some(zip)
    requires Listed(Lines(io.decode(zip[CHECKSUMS]).value, 0, 0), FILES).Some?
    requires io.unzip(data') == Some(zip[FILES := files'])
    ensures Ofpkg(data', sha, io).Some? <==> files' == zip[FILES]
  {
    var zip' := zip[FILES := files'];
    var lines := Lines(io.decode(zip[CHECKSUMS]).value, 0, 0);
    assert |FILES| != |CHECKSUMS|;
    assert zip'[CHECKSUMS] == zip[CHECKSUMS];
    if files' == zip[FILES] {
      assert zip' == zip;
    } else {
      assert sha(zip[FILES]) == Listed(lines, FILES).value;
      assert sha(zip'[FILES]) != Listed(lines, FILES).value;
    }
  }

  /** The checksum lines of a package. */
  function ChecksumLines(zip: map<string, Blob>, io: Codecs): seq<string>
    requires CHECKSUMS in zip && io.decode(zip[CHECKSUMS]).Some?
  {
    Lines(io.decode(zip[CHECKSUMS]).value, 0, 0)
  }

  /** A file archive that is not listed can be exchanged for any readable one. */
  lemma UnlistedIsAccepted(zip: map<string, Blob>, data: Blob, data': Blob, files': Blob, sha: Blob -> string, io: Codecs)
    requires Ofpkg(data, sha, io).Some? && io.unzip(data) == Some(zip)
    requires Listed(ChecksumLines(zip, io), FILES).None?
    requires io.unzip(data') == Some(zip[FILES := files']) && io.untar(files').Some?
    ensures Ofpkg(data', sha, io) == Some((io.untar(files').value, Ofpkg(data, sha, io).value.1))
  {
    var zip' := zip[FILES := files'];
    assert |FILES| != |CHECKSUMS| && |FILES| != |MANIFEST|;
    assert zip'[CHECKSUMS] == zip[CHECKSUMS] && zip'[MANIFEST] == zip[MANIFEST];
    assert Intact(zip', ChecksumLines(zip, io), sha);
  }

  /** An intact package refuses every other readable file archive exactly when it lists the archive. */
  lemma ProtectedExactly(zip: map<string, Blob>, data: Blob, repack: Blob -> Blob, other: Blob, sha: Blob -> string, io: Codecs)
    requires Injective(sha) && Ofpkg(data, sha, io).Some? && io.unzip(data) == Some(zip)
    requires forall f :: io.unzip(repack(f)) == Some(zip[FILES := f])
    requires other != zip[FILES] && io.untar(other).Some?
    ensures (forall f :: f != zip[FILES] && io.untar(f).Some? ==> Ofpkg(repack(f), sha, io).None?)
        <==> Listed(ChecksumLines(zip, io), FILES).Some?
  {
    if Listed(ChecksumLines(zip, io), FILES).Some? {
      forall f | f != zip[FILES] ensures Ofpkg(repack(f), sha, io).None? {
        TamperedIsRefused(zip, data, repack(f), f, sha, io);
      }
    } else {
      UnlistedIsAccepted(zip, data, repack(other), other, sha, io);
    }
  }

  // ---------------------------------------------------------------------
  // Raw destdir archives
  // ---------------------------------------------------------------------

  const DESTDIR := "destdir/"

  /** Where a member of a destdir archive lands; `None` for the directory itself. */
  function Landing(name: string): Option<string> {
    if DESTDIR <= name then (if name == DESTDIR then None else Some(name[|DESTDIR|..]))
    else if name == "destdir" || name == "" then None
    else Some(name)
  }

  function Landed(ms: seq<Member>): seq<Member> {
    if ms == [] then []
    else
      var rest := Landed(ms[..|ms| - 1]);
      var m := ms[|ms| - 1];
      var n := Landing(m.name);
      if n.Some? then rest + [Member(n.value, m.node)] else rest
  }

  method InstallDestdir(stage: Stage, data: Blob, io: Codecs) returns (r: Option<Error>)
    modifies stage
    ensures r.None? <==> io.untar(data).Some?
    ensures r.None? ==> stage.tree == Applied(old(stage.tree), Landed(io.untar(data).value))
    ensures r.Some? ==> stage.tree == old(stage.tree)
  {
    var members := io.untar(data);
    if members.None? {
      return Some(BadArchive);
    }
    var ms := members.value;
    var i := 0;
    while i < |ms|
      invariant 0 <= i <= |ms|
      invariant stage.tree == Applied(old(stage.tree), Landed(ms[..i]))
    {
      assert ms[..i + 1][..i] == ms[..i];
      var name := ms[i].name;
      ghost var done := Landed(ms[..i]);
      if DESTDIR <= name {
        name := name[|DESTDIR|..];
      } else if name == "destdir" {
        name := "";
      }
      if name != "" {
        AppliedSnoc(old(stage.tree), done, Member(name, ms[i].node));
        stage.Write(name, ms[i].node);
      }
      i := i + 1;
    }
    assert ms[..i] == ms;
    return None;
  }

  /** An archive rooted at `destdir/` is installed as if its root were the staging directory. */
  lemma {:induction false} DestdirIsRoot(ms: seq<Member>, p: string)
    requires p != "" && forall m :: m in ms ==> DESTDIR <= m.name
    ensures LastWrite(Landed(ms), p) == LastWrite(ms, DESTDIR + p)
  {
    if ms != [] {
      var m := ms[|ms| - 1];
      assert m in ms;
      DestdirIsRoot(ms[..|ms| - 1], p);
      assert m.name == DESTDIR + m.name[|DESTDIR|..];
      assert (DESTDIR + p)[|DESTDIR|..] == p;
      if m.name != DESTDIR {
        LastWriteAppend(Landed(ms[..|ms| - 1]), [Member(m.name[|DESTDIR|..], m.node)], p);
      }
    }
  }

  // ---------------------------------------------------------------------
  // One package and a list of packages
  // ---------------------------------------------------------------------

  function RecordPath(m: Manifest): string {
    "var/lib/osfabricum/installed/" + Or(m.name, "unknown") + "-" + Or(m.version, "0.0.0") + "-"
    + Or(m.arch, "noarch") + ".json"
  }

  function Record(m: Manifest, io: Codecs): Member {
    Member(RecordPath(m), File(io.printManifest(m)))
  }

  predicate IsOfpkg(row: Content) {
    row.mediaType == Some("application/zip") || row.kind == "package"
  }

  /** The manifest made up for a build output. */
  function Synthetic(row: Content, id: string): Manifest {
    Manifest(Some(row.name), Some(if row.version.Some? && row.version.value != "" then row.version.value else "0.0.0"),
             Some("noarch"), map["kind" := row.kind, "artifact_id" := id])
  }

  /** The writes of some packages or overlays, in order, and the manifests of the packages. */
  datatype Batch = Batch(writes: seq<Member>, manifests: seq<Manifest>)

  /** One batch after another; `None` stands for a failed installation. */
  function Then(a: Option<Batch>, b: Option<Batch>): Option<Batch> {
    if a.None? || b.None? then None
    else Some(Batch(a.value.writes + b.value.writes, a.value.manifests + b.value.manifests))
  }

  lemma ThenIsAssociative(a: Option<Batch>, b: Option<Batch>, c: Option<Batch>)
    ensures Then(Then(a, b), c) == Then(a, Then(b, c))
  {
    if a.Some? && b.Some? && c.Some? {
      assert (a.value.writes + b.value.writes) + c.value.writes == a.value.writes + (b.value.writes + c.value.writes);
      assert (a.value.manifests + b.value.manifests) + c.value.manifests
          == a.value.manifests + (b.value.manifests + c.value.manifests);
    }
  }

  lemma ThenNothing(a: Option<Batch>)
    ensures Then(a, Some(Batch([], []))) == a
  {
    if a.Some? {
      assert a.value.writes + [] == a.value.writes && a.value.manifests + [] == a.value.manifests;
    }
  }

  /** Everything that installing the artifact writes, its record last. */
  ghost function PackageWrites(loaded: Loaded, id: Id, sha: Blob -> string, io: Codecs): Option<Batch> {
    if !loaded.Found? then None
    else if IsOfpkg(loaded.row) then
      var p := Ofpkg(loaded.data, sha, io);
      if p.None? then None else Some(Batch(p.value.0 + [Record(p.value.1, io)], [p.value.1]))
    else
      var files := io.untar(loaded.data);
      var m := Synthetic(loaded.row, io.showId(id));
      if files.None? then None else Some(Batch(Landed(files.value) + [Record(m, io)], [m]))
  }

  ghost function PackagesWrites(d: Disk, ids: seq<Id>, sha: Blob -> string, io: Codecs): Option<Batch> {
    if ids == [] then Some(Batch([], []))
    else
      var n := |ids| - 1;
      Then(PackagesWrites(d, ids[..n], sha, io), PackageWrites(Load(d, ids[n]), ids[n], sha, io))
  }

  method InstallPackage(stage: Stage, store: Store, id: Id, io: Codecs) returns (r: Result<Manifest, Error>)
    modifies stage
    ensures var w := PackageWrites(Load(store.State(), id), id, store.sha, io);
      && (r.Ok? <==> w.Some?)
      && (r.Ok? ==> w.value.manifests == [r.value] && stage.tree == Applied(old(stage.tree), w.value.writes))
    ensures r.Err? ==> stage.tree == old(stage.tree)
    ensures Load(store.State(), id).NoRow? ==> r == Err(ArtifactMissing)
  {
    var loaded := store.Open(id);
    if loaded.NoRow? {
      return Err(ArtifactMissing);
    }
    if loaded.NoBlob? {
      return Err(BlobMissing);
    }
    var manifest: Manifest;
    ghost var files: seq<Member>;
    if IsOfpkg(loaded.row) {
      r := InstallOfpkg(stage, loaded.data, store.sha, io);
      if r.Err? {
        return;
      }
      manifest := r.value;
      files := Ofpkg(loaded.data, store.sha, io).value.0;
    } else {
      var bad := InstallDestdir(stage, loaded.data, io);
      if bad.Some? {
        return Err(bad.value);
      }
      manifest := Synthetic(loaded.row, io.showId(id));
      files := Landed(io.untar(loaded.data).value);
    }
    AppliedSnoc(old(stage.tree), files, Record(manifest, io));
    stage.Write(RecordPath(manifest), File(io.printManifest(manifest)));
    return Ok(manifest);
  }

  method InstallPackages(stage: Stage, store: Store, ids: seq<Id>, io: Codecs) returns (r: Result<seq<Manifest>, Error>)
    modifies stage
    ensures var w := PackagesWrites(store.State(), ids, store.sha, io);
      && (r.Ok? <==> w.Some?)
      && (r.Ok? ==> r.value == w.value.manifests && stage.tree == Applied(old(stage.tree), w.value.writes))
  {
    var manifests := [];
    var i := 0;
    while i < |ids|
      invariant 0 <= i <= |ids|
      invariant var w := PackagesWrites(store.State(), ids[..i], store.sha, io);
        w.Some? && manifests == w.value.manifests && stage.tree == Applied(old(stage.tree), w.value.writes)
    {
      ghost var before := PackagesWrites(store.State(), ids[..i], store.sha, io);
      ghost var last := PackageWrites(Load(store.State(), ids[i]), ids[i], store.sha, io);
      assert ids[..i + 1][..i] == ids[..i];
      var one := InstallPackage(stage, store, ids[i], io);
      if one.Err? {
        PrefixFails(store.State(), ids, i + 1, store.sha, io);
        return Err(one.error);
      }
      AppliedAppend(old(stage.tree), before.value.writes, last.value.writes);
      manifests := manifests + [one.value];
      i := i + 1;
    }
    assert ids[..i] == ids;
    return Ok(manifests);
  }

  lemma OneOfList(d: Disk, id: Id, sha: Blob -> string, io: Codecs)
    ensures PackagesWrites(d, [id], sha, io) == PackageWrites(Load(d, id), id, sha, io)
  {
    assert [id][..0] == [];
    var one := PackageWrites(Load(d, id), id, sha, io);
    if one.Some? {
      assert [] + one.value.writes == one.value.writes && [] + one.value.manifests == one.value.manifests;
    }
  }

  /** A list reports one manifest for each package, in order: the one that installing it alone reports. */
  lemma {:induction false} ManifestsInOrder(d: Disk, ids: seq<Id>, sha: Blob -> string, io: Codecs)
    requires PackagesWrites(d, ids, sha, io).Some?
    ensures ReportsAll(d, ids, sha, io, PackagesWrites(d, ids, sha, io).value.manifests)
    decreases |ids|
  {
    if ids != [] {
      var init, last := ids[..|ids| - 1], ids[|ids| - 1];
      var before, one := PackagesWrites(d, init, sha, io), PackageWrites(Load(d, last), last, sha, io);
      ThenSome(before, one);
      ManifestsInOrder(d, init, sha, io);
      OneManifest(Load(d, last), last, sha, io);
      assert ids == init + [last];
      ReportsSnoc(d, init, last, sha, io, before.value.manifests, one.value.manifests[0]);
    }
  }

  lemma ThenSome(a: Option<Batch>, b: Option<Batch>)
    requires Then(a, b).Some?
    ensures a.Some? && b.Some?
    ensures |b.value.manifests| == 1 ==> Then(a, b).value.manifests == a.value.manifests + [b.value.manifests[0]]
  {
  }

  lemma ReportsSnoc(d: Disk, ids: seq<Id>, id: Id, sha: Blob -> string, io: Codecs, ms: seq<Manifest>, m: Manifest)
    requires ReportsAll(d, ids, sha, io, ms) && Reports(d, id, sha, io, m)
    ensures ReportsAll(d, ids + [id], sha, io, ms + [m])
  {
  }

  /** One manifest for each artifact, in order. */
  ghost predicate ReportsAll(d: Disk, ids: seq<Id>, sha: Blob -> string, io: Codecs, ms: seq<Manifest>) {
    |ms| == |ids| && forall i :: 0 <= i < |ids| ==> Reports(d, ids[i], sha, io, ms[i])
  }

  /** Installing the artifact alone reports the manifest. */
  ghost predicate Reports(d: Disk, id: Id, sha: Blob -> string, io: Codecs, m: Manifest) {
    var one := PackageWrites(Load(d, id), id, sha, io);
    one.Some? && one.value.manifests == [m]
  }

  lemma OneManifest(loaded: Loaded, id: Id, sha: Blob -> string, io: Codecs)
    ensures var one := PackageWrites(loaded, id, sha, io); one.Some? ==> |one.value.manifests| == 1
  {
  }

  /** One package that cannot be installed fails the whole list. */
  lemma {:induction false} PrefixFails(d: Disk, ids: seq<Id>, n: nat, sha: Blob -> string, io: Codecs)
    requires n <= |ids| && PackagesWrites(d, ids[..n], sha, io).None?
    ensures PackagesWrites(d, ids, sha, io).None?
    decreases |ids|
  {
    if n == |ids| {
      assert ids[..n] == ids;
    } else {
      var init := ids[..|ids| - 1];
      assert init[..n] == ids[..n];
      PrefixFails(d, init, n, sha, io);
    }
  }

  lemma PackagesSnoc(d: Disk, ids: seq<Id>, id: Id, sha: Blob -> string, io: Codecs)
    ensures PackagesWrites(d, ids + [id], sha, io)
         == Then(PackagesWrites(d, ids, sha, io), PackageWrites(Load(d, id), id, sha, io))
  {
    assert (ids + [id])[..|ids|] == ids;
  }

  /** Installing a list in two halves is installing the whole list. */
  lemma {:induction false} PackagesSplit(d: Disk, a: seq<Id>, b: seq<Id>, sha: Blob -> string, io: Codecs)
    ensures PackagesWrites(d, a + b, sha, io) == Then(PackagesWrites(d, a, sha, io), PackagesWrites(d, b, sha, io))
  {
    if b == [] {
      assert a + b == a;
      ThenNothing(PackagesWrites(d, a, sha, io));
    } else {
      var init, last := b[..|b| - 1], b[|b| - 1];
      assert b == init + [last];
      assert a + b == (a + init) + [last];
      PackagesSplit(d, a, init, sha, io);
      PackagesSnoc(d, a + init, last, sha, io);
      PackagesSnoc(d, init, last, sha, io);
      ThenIsAssociative(PackagesWrites(d, a, sha, io), PackagesWrites(d, init, sha, io), PackageWrites(Load(d, last), last, sha, io));
    }
  }

  // ---------------------------------------------------------------------
  // What a checksum file says, line by line
  // ---------------------------------------------------------------------

  predicate BreakFree(s: string) {
    forall i :: 0 <= i < |s| ==> !IsBreak(s[i])
  }

  lemma {:induction false} LinesScan(s: string, from: nat, at: nat, to: nat)
    requires from <= at <= to <= |s| && BreakFree(s[at..to])
    ensures Lines(s, from, at) == Lines(s, from, to)
    decreases |s| - at
  {
    if at < to {
      assert s[at] == s[at..to][0];
      assert s[at + 1..to] == s[at..to][1..];
      LinesScan(s, from, at + 1, to);
    }
  }

  lemma {:induction false} LinesShift(p: string, s: string, from: nat, at: nat)
    requires from <= at <= |s|
    ensures Lines(p + s, |p| + from, |p| + at) == Lines(s, from, at)
    decreases |s| - at
  {
    assert (p + s)[|p| + from..|p| + at] == s[from..at];
    if at < |s| {
      assert (p + s)[|p| + at] == s[at];
      if IsBreak(s[at]) {
        LinesShift(p, s, at + 1, at + 1);
      } else {
        LinesShift(p, s, from, at + 1);
      }
    }
  }

  /** A text is split at its line ends, each of which is dropped. */
  lemma LinesSplit(a: string, s: string)
    requires BreakFree(a)
    ensures Lines(a + "\n" + s, 0, 0) == [a] + Lines(s, 0, 0)
    ensures Lines(a, 0, 0) == [a]
  {
    var t, p := a + "\n" + s, a + "\n";
    assert t[0..|a|] == a && t[|a|] == '\n';
    LinesScan(t, 0, 0, |a|);
    assert t == p + s;
    LinesShift(p, s, 0, 0);
    assert a[0..|a|] == a;
    LinesScan(a, 0, 0, |a|);
  }

  /** The characters that are stripped from both ends of a line. */
  lemma StripsExactly(c: char)
    ensures var n := c as int;
      var blank := n in {9, 10, 11, 12, 13, 28, 29, 30, 31, 32, 133, 160, 5760, 8232, 8233, 8239, 8287, 12288}
                   || n in {8192, 8193, 8194, 8195, 8196, 8197, 8198, 8199, 8200, 8201, 8202};
      Strip([c]) == if blank then "" else [c]
  {
    assert [c][1..] == "";
  }

  /** The characters that end a line. */
  lemma BreaksExactly(c: char)
    ensures Lines([c], 0, 0) == if c as int in {10, 11, 12, 13, 28, 29, 30, 133, 8232, 8233} then ["", ""] else [[c]]
  {
    var s := [c];
    assert s[0..0] == "" && s[1..1] == "" && s[0..1] == s;
    if IsBreak(c) {
      assert Lines(s, 1, 1) == [""];
    } else {
      assert Lines(s, 0, 1) == [s];
    }
  }

  /** No blanks, and not the start of a comment. */
  predicate Word(s: string) {
    s != "" && s[0] != '#' && forall i :: 0 <= i < |s| ==> !IsSpace(s[i]) && !IsBreak(s[i])
  }

  lemma StripsNothing(s: string)
    requires s != "" ==> !IsSpace(s[0]) && !IsSpace(s[|s| - 1])
    ensures Strip(s) == s
  {
  }

  lemma {:induction false} GapIs(d: string, rest: string)
    requires forall i :: 0 <= i < |d| ==> d[i] != ' '
    ensures Gap(d + "  " + rest) == |d|
  {
    var s := d + "  " + rest;
    if d == "" {
      assert s[0] == ' ' && s[1] == ' ';
    } else {
      assert s[0] == d[0] && s[1..] == d[1..] + "  " + rest;
      GapIs(d[1..], rest);
    }
  }

  lemma EntryOfPair(d: string, m: string)
    requires Word(d) && Word(m)
    ensures Entry(d + "  " + m) == Some((m, d)) && BreakFree(d + "  " + m)
  {
    var l := d + "  " + m;
    assert IsSpace(' ') && !IsBreak(' ');
    assert l[0] == d[0] && l[|l| - 1] == m[|m| - 1];
    StripsNothing(l);
    GapIs(d, m);
    assert l[|d| + 2..] == m && l[..|d|] == d;
    StripsNothing(m);
    StripsNothing(d);
  }

  /** A checksum file with one line for each (digest, member). */
  function Listing(pairs: seq<(string, string)>): string {
    if pairs == [] then "" else pairs[0].0 + "  " + pairs[0].1 + "\n" + Listing(pairs[1..])
  }

  function PairLines(pairs: seq<(string, string)>): seq<string> {
    seq(|pairs|, i requires 0 <= i < |pairs| => pairs[i].0 + "  " + pairs[i].1)
  }

  predicate Words(pairs: seq<(string, string)>) {
    forall i :: 0 <= i < |pairs| ==> Word(pairs[i].0) && Word(pairs[i].1)
  }

  lemma {:induction false} LinesOfListing(pairs: seq<(string, string)>)
    requires Words(pairs)
    ensures Lines(Listing(pairs), 0, 0) == PairLines(pairs) + [""]
  {
    if pairs == [] {
      LinesSplit("", "");
      assert PairLines(pairs) == [];
    } else {
      var line := pairs[0].0 + "  " + pairs[0].1;
      EntryOfPair(pairs[0].0, pairs[0].1);
      LinesOfListing(pairs[1..]);
      LinesSplit(line, Listing(pairs[1..]));
      assert PairLines(pairs) == [line] + PairLines(pairs[1..]);
    }
  }

  lemma ListedSnoc(lines: seq<string>, line: string, m: string)
    ensures Listed(lines + [line], m)
         == (var e := Entry(line); if e.Some? && e.value.0 == m then Some(e.value.1) else Listed(lines, m))
  {
    assert (lines + [line])[..|lines|] == lines;
  }

  ghost predicate DistinctMembers(pairs: seq<(string, string)>) {
    forall i, j :: 0 <= i < j < |pairs| ==> pairs[i].1 != pairs[j].1
  }

  lemma PairLinesSnoc(pairs: seq<(string, string)>)
    requires pairs != []
    ensures var n := |pairs| - 1; PairLines(pairs) == PairLines(pairs[..n]) + [pairs[n].0 + "  " + pairs[n].1]
  {
  }

  lemma LastPair(pairs: seq<(string, string)>, m: string)
    requires Words(pairs) && pairs != []
    ensures var n := |pairs| - 1;
      Listed(PairLines(pairs), m) == if pairs[n].1 == m then Some(pairs[n].0) else Listed(PairLines(pairs[..n]), m)
  {
    var n := |pairs| - 1;
    PairLinesSnoc(pairs);
    EntryOfPair(pairs[n].0, pairs[n].1);
    ListedSnoc(PairLines(pairs[..n]), pairs[n].0 + "  " + pairs[n].1, m);
  }

  lemma {:induction false} ListedPair(pairs: seq<(string, string)>, i: nat)
    requires Words(pairs) && DistinctMembers(pairs) && i < |pairs|
    ensures Listed(PairLines(pairs), pairs[i].1) == Some(pairs[i].0)
    decreases pairs
  {
    LastPair(pairs, pairs[i].1);
    if i < |pairs| - 1 {
      ListedPair(pairs[..|pairs| - 1], i);
    }
  }

  lemma {:induction false} UnlistedMember(pairs: seq<(string, string)>, m: string)
    requires Words(pairs) && forall i :: 0 <= i < |pairs| ==> pairs[i].1 != m
    ensures Listed(PairLines(pairs), m) == None
    decreases pairs
  {
    if pairs == [] {
      assert PairLines(pairs) == [];
    } else {
      LastPair(pairs, m);
      UnlistedMember(pairs[..|pairs| - 1], m);
    }
  }

  /** Every member of the list is in the archive with its digest. */
  ghost predicate Vouched(zip: map<string, Blob>, pairs: seq<(string, string)>, sha: Blob -> string) {
    forall i :: 0 <= i < |pairs| ==> pairs[i].1 in zip && sha(zip[pairs[i].1]) == pairs[i].0
  }

  lemma IntactPairs(zip: map<string, Blob>, pairs: seq<(string, string)>, sha: Blob -> string)
    requires Words(pairs) && DistinctMembers(pairs)
    ensures Intact(zip, Lines(Listing(pairs), 0, 0), sha) <==> Vouched(zip, pairs, sha)
  {
    var lines := Lines(Listing(pairs), 0, 0);
    LinesOfListing(pairs);
    if Intact(zip, lines, sha) {
      forall i | 0 <= i < |pairs| ensures pairs[i].1 in zip && sha(zip[pairs[i].1]) == pairs[i].0 {
        ListedPair(pairs, i);
        CommentsListNothing(PairLines(pairs), "", pairs[i].1);
      }
    }
    if Vouched(zip, pairs, sha) {
      forall m | Listed(lines, m).Some? ensures m in zip && sha(zip[m]) == Listed(lines, m).value {
        CommentsListNothing(PairLines(pairs), "", m);
        if i :| 0 <= i < |pairs| && pairs[i].1 == m {
          ListedPair(pairs, i);
        } else {
          UnlistedMember(pairs, m);
        }
      }
    }
  }

  /** A package whose checksum file has one line for each member is installed exactly when it is complete and
      readable and every one of these members is there with its digest. */
  lemma ChecksumsDecide(zip: map<string, Blob>, data: Blob, pairs: seq<(string, string)>, sha: Blob -> string, io: Codecs)
    requires io.unzip(data) == Some(zip) && CHECKSUMS in zip
    requires io.decode(zip[CHECKSUMS]) == Some(Listing(pairs)) && Words(pairs) && DistinctMembers(pairs)
    ensures Ofpkg(data, sha, io).Some? <==>
      && MANIFEST in zip && io.parseManifest(zip[MANIFEST]).Some?
      && FILES in zip && io.untar(zip[FILES]).Some?
      && Vouched(zip, pairs, sha)
  {
    IntactPairs(zip, pairs, sha);
    OfpkgSome(zip, data, Listing(pairs), sha, io);
  }

  lemma OfpkgSome(zip: map<string, Blob>, data: Blob, text: string, sha: Blob -> string, io: Codecs)
    requires io.unzip(data) == Some(zip) && CHECKSUMS in zip && io.decode(zip[CHECKSUMS]) == Some(text)
    ensures Ofpkg(data, sha, io).Some? <==>
      && MANIFEST in zip && io.parseManifest(zip[MANIFEST]).Some?
      && FILES in zip && io.untar(zip[FILES]).Some?
      && Intact(zip, Lines(text, 0, 0), sha)
  {
  }

  lemma {:induction false} NoGap(s: string)
    requires forall i :: 0 <= i < |s| ==> s[i] != ' '
    ensures Gap(s) == |s|
  {
    if s != "" {
      NoGap(s[1..]);
    }
  }

  /** A line that is a single word lists that word as the digest of the member with the empty name. */
  lemma SingleWord(zip: map<string, Blob>, data: Blob, w: string, sha: Blob -> string, io: Codecs)
    requires io.unzip(data) == Some(zip) && CHECKSUMS in zip && io.decode(zip[CHECKSUMS]) == Some(w) && Word(w)
    ensures Ofpkg(data, sha, io).Some? ==> "" in zip && sha(zip[""]) == w
  {
    assert IsSpace(' ');
    LinesSplit(w, "");
    StripsNothing(w);
    NoGap(w);
    assert [w][..0] == [];
    assert Listed([w], "") == Some(w);
    OfpkgSome(zip, data, w, sha, io);
  }

  /** An installed package brings the members of its file archive and its manifest. */
  lemma InstallsItsFiles(zip: map<string, Blob>, data: Blob, sha: Blob -> string, io: Codecs)
    requires io.unzip(data) == Some(zip) && Ofpkg(data, sha, io).Some?
    ensures MANIFEST in zip && FILES in zip
    ensures Ofpkg(data, sha, io) == Some((io.untar(zip[FILES]).value, io.parseManifest(zip[MANIFEST]).value))
  {
  }

  /** Blank lines and comments list nothing. */
  lemma CommentsListNothing(lines: seq<string>, text: string, m: string)
    ensures Listed(lines + ["#" + text], m) == Listed(lines, m)
    ensures Listed(lines + [""], m) == Listed(lines, m)
  {
    ListedSnoc(lines, "#" + text, m);
    ListedSnoc(lines, "", m);
    CommentStays(text);
  }

  lemma {:induction false} CommentStays(text: string)
    ensures Strip("#" + text) != "" && Strip("#" + text)[0] == '#'
  {
    var s := "#" + text;
    assert !IsSpace('#') && s[0] == '#';
    if text != "" && IsSpace(s[|s| - 1]) {
      assert s[..|s| - 1] == "#" + text[..|text| - 1];
      CommentStays(text[..|text| - 1]);
    }
  }

  // ---------------------------------------------------------------------
  // Build outputs
  // ---------------------------------------------------------------------

  /** A name below `destdir/` loses that prefix, the directory itself lands nowhere, other names stay. */
  lemma LandingIs(name: string)
    ensures name != "" ==> Landing("destdir/" + name) == Some(name)
    ensures Landing("destdir/") == None && Landing("destdir") == None && Landing("") == None
    ensures name != "" && name != "destdir" && !("destdir/" <= name) ==> Landing(name) == Some(name)
  {
    var t := "destdir/" + name;
    assert t[|DESTDIR|..] == name;
    assert |"destdir"| < |DESTDIR|;
  }

  /** The record of a build output names it, its version or "0.0.0", and no architecture. */
  lemma BuildOutputRecord(row: Content, data: Blob, id: Id, sha: Blob -> string, io: Codecs)
    requires row.mediaType != Some("application/zip") && row.kind != "package" && io.untar(data).Some?
    ensures var version := if row.version.Some? && row.version.value != "" then row.version.value else "0.0.0";
      var w := PackageWrites(Found(row, data), id, sha, io);
      && w.Some? && |w.value.manifests| == 1
      && w.value.manifests[0] ==
           Manifest(Some(row.name), Some(version), Some("noarch"), map["kind" := row.kind, "artifact_id" := io.showId(id)])
      && w.value.writes != []
      && var record := w.value.writes[|w.value.writes| - 1];
         && record.name == "var/lib/osfabricum/installed/" + row.name + "-" + version + "-" + "noarch" + ".json"
         && record.node == File(io.printManifest(w.value.manifests[0]))
  {
  }

  /** The record of a package has its manifest's name, version and architecture, or the defaults. */
  lemma PackageRecord(row: Content, data: Blob, id: Id, sha: Blob -> string, io: Codecs)
    requires row.mediaType == Some("application/zip") || row.kind == "package"
    requires Ofpkg(data, sha, io).Some?
    ensures var (files, m) := Ofpkg(data, sha, io).value;
      var w := PackageWrites(Found(row, data), id, sha, io);
      && w.Some? && w.value.manifests == [m]
      && w.value.writes == files + [Member(RecordPath(m), File(io.printManifest(m)))]
      && (m.name.Some? && m.version.Some? && m.arch.Some? ==>
            RecordPath(m) == "var/lib/osfabricum/installed/" + m.name.value + "-" + m.version.value + "-" + m.arch.value + ".json")
      && (m.name.None? && m.version.None? && m.arch.None? ==>
            RecordPath(m) == "var/lib/osfabricum/installed/" + "unknown" + "-" + "0.0.0" + "-" + "noarch" + ".json")
  {
  }
}
