/** Fetching registered sources through the artifact store, which acts as a verified cache until rows are collected. */
module Fetch {
  import opened Wrappers
  import opened Bytes
  import opened Ordering
  import opened Tables
  import opened ArtifactStore
  import opened GarbageCollection

  datatype Source = Source(
    id: string,
    uri: string,
    kind: string,
    ref: Option<string>,
    expected: Option<string>,
    name: Option<string>)

  /** What the outside world answers; `None` stands for a failed download. */
  datatype Network = Network(http: string -> Option<Blob>, git: (string, string) -> Option<Blob>)

  datatype Error = NotFound | NotCached | UnsupportedType | DownloadFailed | HashMismatch

  // ---------------------------------------------------------------------
  // Looking a source up by URI, id or name
  // ---------------------------------------------------------------------

  function First(sources: seq<Source>, p: Source -> bool): (i: nat)
    ensures i <= |sources|
    ensures i < |sources| ==> p(sources[i])
    ensures forall j :: 0 <= j < i ==> !p(sources[j])
  {
    if sources == [] then 0 else if p(sources[0]) then 0 else 1 + First(sources[1..], p)
  }

  function HasUri(x: string): Source -> bool { (s: Source) => s.uri == x }
  function HasId(x: string): Source -> bool { (s: Source) => s.id == x }
  function HasName(x: string): Source -> bool { (s: Source) => s.name == Some(x) }

  function Lookup(sources: seq<Source>, x: string): Option<Source> {
    var u, i, n := First(sources, HasUri(x)), First(sources, HasId(x)), First(sources, HasName(x));
    if u < |sources| then Some(sources[u])
    else if i < |sources| then Some(sources[i])
    else if n < |sources| then Some(sources[n])
    else None
  }

  /** The first source of the URI; without one the first of the id; without one the first of the name. */
  lemma FindsFirst(sources: seq<Source>, x: string, k: nat)
    requires k < |sources|
    ensures var s := sources[k];
      var noUri := forall j :: 0 <= j < |sources| ==> sources[j].uri != x;
      var noId := forall j :: 0 <= j < |sources| ==> sources[j].id != x;
      && (s.uri == x && (forall j :: 0 <= j < k ==> sources[j].uri != x) ==> Lookup(sources, x) == Some(s))
      && (noUri && s.id == x && (forall j :: 0 <= j < k ==> sources[j].id != x) ==> Lookup(sources, x) == Some(s))
      && (noUri && noId && s.name == Some(x) && (forall j :: 0 <= j < k ==> sources[j].name != Some(x)) ==>
            Lookup(sources, x) == Some(s))
  {
    var u, i, n := First(sources, HasUri(x)), First(sources, HasId(x)), First(sources, HasName(x));
    assert u < |sources| ==> sources[u].uri == x;
    assert i < |sources| ==> sources[i].id == x;
  }

  /** Tries URIs, then ids, then scans the names. */
  method LookupSource(sources: seq<Source>, x: string) returns (r: Option<Source>)
    ensures r == Lookup(sources, x)
    ensures r.None? <==> forall s :: s in sources ==> s.uri != x && s.id != x && s.name != Some(x)
    ensures r.Some? ==> r.value in sources && (r.value.uri == x || r.value.id == x || r.value.name == Some(x))
    ensures r.Some? ==> r.value.uri == x || (forall s :: s in sources ==> s.uri != x)
    ensures r.Some? ==> r.value.uri == x || r.value.id == x || (forall s :: s in sources ==> s.id != x)
  {
    var u := First(sources, HasUri(x));
    if u < |sources| {
      return Some(sources[u]);
    }
    var i := First(sources, HasId(x));
    if i < |sources| {
      return Some(sources[i]);
    }
    var n := 0;
    while n < |sources|
      invariant 0 <= n <= |sources|
      invariant forall j :: 0 <= j < n ==> sources[j].name != Some(x)
    {
      if sources[n].name == Some(x) {
        var m := First(sources, HasName(x));
        assert m == n;
        return Some(sources[n]);
      }
      n := n + 1;
    }
    return None;
  }

  // ---------------------------------------------------------------------
  // Store keys and hashes
  // ---------------------------------------------------------------------

  predicate NoSlash(s: string) {
    '/' !in s
  }

  /** `s.rsplit("/", 1)[-1]` */
  function LastSegment(s: string): (r: string)
    ensures NoSlash(r)
    ensures r == s || (|r| < |s| && s[|s| - |r| - 1] == '/' && s[|s| - |r|..] == r)
  {
    if NoSlash(s) then s else LastSegment(s[1..])
  }

  /** Python's `value or default` on an optional text. */
  function OrIfEmpty(s: Option<string>, default: string): string {
    if Truthy(s) then s.value else default
  }

  function Filename(s: Source): string {
    if s.kind == "git" then OrIfEmpty(s.ref, "archive") + ".tar.gz"
    else OrIfEmpty(Some(LastSegment(s.uri)), "archive")
  }

  const SOURCE_PREFIX := "source/"

  function StoreKey(s: Source): string {
    SOURCE_PREFIX + s.id + "/" + Filename(s)
  }

  predicate EndsWith(s: string, suffix: string) {
    |suffix| <= |s| && s[|s| - |suffix|..] == suffix
  }

  function MediaTypeFor(filename: string): string {
    if EndsWith(filename, ".tar.gz") || EndsWith(filename, ".tgz") then "application/x-gzip"
    else if EndsWith(filename, ".tar.bz2") then "application/x-bzip2"
    else if EndsWith(filename, ".tar.zst") then "application/zstd"
    else if EndsWith(filename, ".zip") then "application/zip"
    else "application/octet-stream"
  }

  function NormaliseHash(raw: string): string {
    if "sha256:" <= raw then raw[7..] else raw
  }

  /** A source without an expected hash accepts every download. */
  predicate Accepts(s: Source, digest: string) {
    s.expected.Some? && s.expected.value != "" ==> digest == NormaliseHash(s.expected.value)
  }

  // ---------------------------------------------------------------------
  // Fetching
  // ---------------------------------------------------------------------

  function Download(s: Source, net: Network): Result<Blob, Error> {
    if s.kind == "git" then Arrived(net.git(s.uri, OrIfEmpty(s.ref, "main")))
    else if s.kind == "http" || s.kind == "https" then Arrived(net.http(s.uri))
    else Err(UnsupportedType)
  }

  function Arrived(data: Option<Blob>): Result<Blob, Error> {
    if data.Some? then Ok(data.value) else Err(DownloadFailed)
  }

  function Describe(s: Source, data: Blob, sha: Blob -> string): Content {
    Content("source", OrIfEmpty(s.name, LastSegment(s.uri)), s.ref, None, sha(data), |data|,
            Some(MediaTypeFor(LastSegment(StoreKey(s)))), "cache-hot", None, None)
  }

  function Fetched(d: Disk, sources: seq<Source>, x: string, offline: bool, net: Network, sha: Blob -> string)
    : (Disk, Result<Id, Error>)
  {
    var found := Lookup(sources, x);
    if found.None? then (d, Err(NotFound))
    else
      var key := StoreKey(found.value);
      if Present(d.rows, key) then (d, Ok(IdOf(d.rows, key)))
      else if offline then (d, Err(NotCached))
      else
        var download := Download(found.value, net);
        if download.Err? then (d, Err(download.error))
        else if !Accepts(found.value, sha(download.value)) then (d, Err(HashMismatch))
        else
          var d' := Ingested(d, key, Describe(found.value, download.value, sha), download.value);
          (d', Ok(IdOf(d'.rows, key)))
  }

  method FetchSource(store: Store, sources: seq<Source>, x: string, offline: bool, net: Network)
    returns (r: Result<Id, Error>)
    modifies store
    ensures store.State() == Fetched(old(store.State()), sources, x, offline, net, store.sha).0
    ensures r == Fetched(old(store.State()), sources, x, offline, net, store.sha).1
    ensures r.Err? ==> store.State() == old(store.State())
  {
    var found := LookupSource(sources, x);
    if found.None? {
      return Err(NotFound);
    }
    var src := found.value;
    var key := StoreKey(src);
    var i := Find(store.rows, key);
    if i < |store.rows| {
      return Ok(store.rows[i].id);
    }
    if offline {
      return Err(NotCached);
    }
    var data := DownloadSource(src, net);
    if data.Err? {
      return Err(data.error);
    }
    var actual := store.sha(data.value);
    if src.expected.Some? && src.expected.value != "" {
      if actual != NormaliseHash(src.expected.value) {
        return Err(HashMismatch);
      }
    }
    var id := store.Ingest(data.value, key, Describe(src, data.value, store.sha), None);
    return Ok(id.value);
  }

  /** Git sources come as an archive of their reference, the main branch by default. */
  method DownloadSource(src: Source, net: Network) returns (r: Result<Blob, Error>)
    ensures r == Download(src, net)
  {
    var data: Option<Blob>;
    if src.kind == "git" {
      data := net.git(src.uri, OrIfEmpty(src.ref, "main"));
    } else if src.kind == "http" || src.kind == "https" {
      data := net.http(src.uri);
    } else {
      return Err(UnsupportedType);
    }
    return if data.None? then Err(DownloadFailed) else Ok(data.value);
  }

  // ---------------------------------------------------------------------
  // Store keys tell sources apart
  // ---------------------------------------------------------------------

  /** Where two such texts split at different places, the longer first part and the other's second part
      contain the slash. */
  lemma SlashInside(a: string, x: string, b: string, y: string)
    requires a + "/" + x == b + "/" + y && |a| < |b|
    ensures !NoSlash(b) && !NoSlash(x)
  {
    var s, t := a + "/" + x, b + "/" + y;
    assert b[|a|] == t[|a|] == s[|a|];
    assert x[|b| - |a| - 1] == s[|b|] == t[|b|];
  }

  lemma SplitAtLength(a: string, x: string, b: string, y: string)
    requires a + "/" + x == b + "/" + y && |a| == |b|
    ensures a == b && x == y
  {
    var s, t := a + "/" + x, b + "/" + y;
    assert a == s[..|a|] && b == t[..|b|];
    assert x == s[|a| + 1..] && y == t[|b| + 1..];
  }

  lemma SplitAtSlash(a: string, x: string, b: string, y: string)
    requires a + "/" + x == b + "/" + y
    requires (NoSlash(a) && NoSlash(b)) || (NoSlash(x) && NoSlash(y))
    ensures a == b && x == y
  {
    if |a| < |b| {
      SlashInside(a, x, b, y);
    } else if |b| < |a| {
      SlashInside(b, y, a, x);
    } else {
      SplitAtLength(a, x, b, y);
    }
  }

  /** `inner` continues `outer` behind a slash. */
  predicate Under(outer: string, inner: string) {
    outer + "/" <= inner
  }

  predicate Nested(i: string, j: string) {
    Under(i, j) || Under(j, i)
  }

  /** Where two such texts split at different places, the longer first part continues the shorter one. */
  lemma LongerContinues(a: string, x: string, b: string, y: string)
    requires a + "/" + x == b + "/" + y && |a| < |b|
    ensures Under(a, b)
  {
    var s, t := a + "/" + x, b + "/" + y;
    assert b == t[..|b|] == s[..|b|];
    assert (a + "/")[..] == s[..|a| + 1];
    assert b[..|a| + 1] == a + "/";
  }

  lemma KeyTail(s: Source)
    ensures StoreKey(s)[|SOURCE_PREFIX|..] == s.id + "/" + Filename(s)
  {
  }

  /** A store key determines id and file name, unless one id continues the other behind a slash and a
      file name has a slash. */
  lemma KeyDeterminesId(a: Source, b: Source)
    requires StoreKey(a) == StoreKey(b)
    requires !Nested(a.id, b.id) || (NoSlash(Filename(a)) && NoSlash(Filename(b)))
    ensures a.id == b.id && Filename(a) == Filename(b)
  {
    KeyTail(a);
    KeyTail(b);
    if NoSlash(Filename(a)) && NoSlash(Filename(b)) {
      SplitAtSlash(a.id, Filename(a), b.id, Filename(b));
    } else if |a.id| < |b.id| {
      LongerContinues(a.id, Filename(a), b.id, Filename(b));
    } else if |b.id| < |a.id| {
      LongerContinues(b.id, Filename(b), a.id, Filename(a));
    } else {
      SplitAtLength(a.id, Filename(a), b.id, Filename(b));
    }
  }

  function Git(id: string, ref: string): Source {
    Source(id, "", "git", Some(ref), None, None)
  }

  /** Behind a nested id, the rest of the longer id can move into the ref. */
  lemma NestedCollides(i: string, j: string)
    requires Under(i, j)
    ensures var rest := j[|i| + 1..]; StoreKey(Git(i, rest + "/x")) == StoreKey(Git(j, "x"))
  {
    var rest, x := j[|i| + 1..], "x" + ".tar.gz";
    assert j == i + "/" + rest;
    assert Filename(Git(i, rest + "/x")) == rest + "/" + x;
    assert Filename(Git(j, "x")) == x;
    Regroup(SOURCE_PREFIX, i, rest, x);
  }

  lemma Regroup(p: string, i: string, rest: string, x: string)
    ensures p + i + "/" + (rest + "/" + x) == p + (i + "/" + rest) + "/" + x
  {
  }

  /** Two ids keep their sources' keys apart, whatever the rest of the sources, exactly when neither
      continues the other behind a slash. */
  lemma KeysApartExactly(i: string, j: string)
    requires i != j
    ensures (forall a: Source, b: Source :: a.id == i && b.id == j ==> StoreKey(a) != StoreKey(b)) <==> !Nested(i, j)
  {
    if !Nested(i, j) {
      forall a: Source, b: Source | a.id == i && b.id == j ensures StoreKey(a) != StoreKey(b) {
        if StoreKey(a) == StoreKey(b) {
          KeyDeterminesId(a, b);
        }
      }
    } else if Under(i, j) {
      NestedCollides(i, j);
      assert Git(i, j[|i| + 1..] + "/x").id == i && Git(j, "x").id == j;
    } else {
      NestedCollides(j, i);
      assert Git(j, i[|j| + 1..] + "/x").id == j && Git(i, "x").id == i;
    }
  }

  ghost predicate DistinctIds(sources: seq<Source>) {
    forall i, j :: 0 <= i < j < |sources| ==> sources[i].id != sources[j].id
  }

  /** No id continues another one behind a slash; ids without a slash never do. */
  ghost predicate Unnested(sources: seq<Source>) {
    forall a, b :: a in sources && b in sources ==> !Under(a.id, b.id)
  }

  lemma UnderHasSlash(outer: string, inner: string)
    requires Under(outer, inner)
    ensures !NoSlash(inner)
  {
    assert inner[|outer|] == (outer + "/")[|outer|];
  }

  lemma SlashFreeIsUnnested(sources: seq<Source>)
    requires forall s :: s in sources ==> NoSlash(s.id)
    ensures Unnested(sources)
  {
    forall a, b | a in sources && b in sources ensures !Under(a.id, b.id) {
      if Under(a.id, b.id) {
        UnderHasSlash(a.id, b.id);
      }
    }
  }

  lemma KeysAreDistinct(sources: seq<Source>, a: Source, b: Source)
    requires DistinctIds(sources) && Unnested(sources) && a in sources && b in sources
    ensures StoreKey(a) == StoreKey(b) <==> a == b
  {
    if StoreKey(a) == StoreKey(b) {
      KeyDeterminesId(a, b);
    }
  }

  // ---------------------------------------------------------------------
  // Runs: any mix of fetches, ingests by other producers, and garbage collections
  // ---------------------------------------------------------------------

  datatype Op =
    | FetchOne(x: string, offline: bool, net: Network)
    | IngestOther(key: string, content: Content, data: Blob)
    | Collect(doomed: set<Id>)

  function Apply(d: Disk, sources: seq<Source>, op: Op, sha: Blob -> string): Disk {
    match op
    case FetchOne(x, offline, net) => Fetched(d, sources, x, offline, net, sha).0
    case IngestOther(key, c, data) => Ingested(d, key, c.(sha := sha(data), size := |data|), data)
    case Collect(doomed) => Collected(d, doomed)
  }

  function Run(d: Disk, sources: seq<Source>, ops: seq<Op>, sha: Blob -> string): Disk
    decreases ops
  {
    if ops == [] then d else Run(Apply(d, sources, ops[0], sha), sources, ops[1..], sha)
  }

  /** Other producers use their own key spaces. */
  predicate Foreign(op: Op) {
    op.IngestOther? ==> !(SOURCE_PREFIX <= op.key)
  }

  /** No collection of the run selects the row with key `id`. */
  ghost predicate Spared(ops: seq<Op>, id: Id) {
    forall op :: op in ops && op.Collect? ==> id !in op.doomed
  }

  /** Every cached artifact has the digest its source expects. */
  ghost predicate Trusted(d: Disk, sources: seq<Source>) {
    forall s, r :: s in sources && r in d.rows && r.key == StoreKey(s) ==> Accepts(s, r.val.sha)
  }

  lemma StoreKeyHasPrefix(s: Source)
    ensures SOURCE_PREFIX <= StoreKey(s)
  {
  }

  /** Every step but a collection ingests nothing, or one blob: a fetched one that its source accepts and
      whose key was free, or one under a foreign key. */
  lemma StepIngests(d: Disk, sources: seq<Source>, op: Op, sha: Blob -> string)
    returns (key: string, c: Content, data: Blob, src: Source)
    requires !op.Collect?
    ensures var d' := Apply(d, sources, op, sha);
      d' == d || (
        && d' == Ingested(d, key, c, data) && c.sha == sha(data)
        && (op.IngestOther? ==> key == op.key)
        && (op.FetchOne? ==> src in sources && key == StoreKey(src) && Accepts(src, c.sha) && !Present(d.rows, key)))
  {
    match op
    case IngestOther(k, content, bytes) =>
      key, c, data, src := k, content.(sha := sha(bytes), size := |bytes|), bytes, Git("", "");
    case FetchOne(x, offline, net) =>
      src, data := FetchIngests(d, sources, x, offline, net, sha);
      key, c := StoreKey(src), Describe(src, data, sha);
  }

  /** A fetch that changes the store has ingested an accepted download under an absent key. */
  lemma FetchIngests(d: Disk, sources: seq<Source>, x: string, offline: bool, net: Network, sha: Blob -> string)
    returns (src: Source, data: Blob)
    ensures var d' := Fetched(d, sources, x, offline, net, sha).0;
      d' == d || (
        && d' == Ingested(d, StoreKey(src), Describe(src, data, sha), data)
        && src in sources && Accepts(src, sha(data)) && !Present(d.rows, StoreKey(src)))
  {
    var found := Lookup(sources, x);
    if found.Some? && Download(found.value, net).Ok? {
      src, data := found.value, Download(found.value, net).value;
    } else {
      src, data := Git("", ""), [];
    }
  }

  /** Rows of an ingested table are rows of the old one, or carry the ingested key. */
  lemma RowsAfterIngest(d: Disk, key: string, c: Content, data: Blob, r: Row<string, Content>)
    requires r in Ingested(d, key, c, data).rows
    ensures r in d.rows || r.key == key
    ensures !Present(d.rows, key) && r !in d.rows ==> r.val == c
  {
  }

  lemma StepKeepsTrusted(d: Disk, sources: seq<Source>, op: Op, sha: Blob -> string)
    requires DistinctIds(sources) && Unnested(sources) && Foreign(op)
    requires Trusted(d, sources)
    ensures Trusted(Apply(d, sources, op, sha), sources)
  {
    var d' := Apply(d, sources, op, sha);
    if op.Collect? {
      FilterMembers(d.rows, Survives(op.doomed));
    } else if d' != d {
      var key, c, data, src := StepIngests(d, sources, op, sha);
      forall s, r | s in sources && r in d'.rows && r.key == StoreKey(s) ensures Accepts(s, r.val.sha) {
        RowsAfterIngest(d, key, c, data, r);
        StoreKeyHasPrefix(s);
        if op.FetchOne? && r !in d.rows {
          KeysAreDistinct(sources, src, s);
        }
      }
    }
  }

  lemma IngestAside(d: Disk, key: string, c: Content, data: Blob, k: string)
    requires k != key
    ensures var d' := Ingested(d, key, c, data);
      && (Present(d'.rows, k) <==> Present(d.rows, k))
      && ValueOf(d'.rows, k) == ValueOf(d.rows, k)
      && IdOf(d'.rows, k) == IdOf(d.rows, k)
  {
    PutFinds(d.rows, Uuid(d.next), key, c, Refresh, k);
    PutFinds(d.rows, Uuid(d.next), key, c, Refresh, key);
  }

  lemma FreshRow(d: Disk, key: string, c: Content, data: Blob)
    requires !Present(d.rows, key)
    ensures Present(Ingested(d, key, c, data).rows, key) && ValueOf(Ingested(d, key, c, data).rows, key) == Some(c)
    ensures IdOf(Ingested(d, key, c, data).rows, key) == Uuid(d.next)
  {
    PutFinds(d.rows, Uuid(d.next), key, c, Refresh, key);
  }

  /** Over every run, cached artifacts keep the digests that their sources expect. */
  lemma {:induction false} RunKeepsTrusted(d: Disk, sources: seq<Source>, ops: seq<Op>, sha: Blob -> string)
    requires DistinctIds(sources) && Unnested(sources) && (forall op :: op in ops ==> Foreign(op))
    requires Trusted(d, sources)
    ensures Trusted(Run(d, sources, ops, sha), sources)
    decreases ops
  {
    if ops != [] {
      StepKeepsTrusted(d, sources, ops[0], sha);
      RunKeepsTrusted(Apply(d, sources, ops[0], sha), sources, ops[1..], sha);
    }
  }

  /** Ids without a slash, such as UUIDs, need no further condition. */
  lemma SlashFreeRunKeepsTrusted(d: Disk, sources: seq<Source>, ops: seq<Op>, sha: Blob -> string)
    requires DistinctIds(sources) && (forall s :: s in sources ==> NoSlash(s.id)) && (forall op :: op in ops ==> Foreign(op))
    requires Trusted(d, sources)
    ensures Trusted(Run(d, sources, ops, sha), sources)
  {
    SlashFreeIsUnnested(sources);
    RunKeepsTrusted(d, sources, ops, sha);
  }

  lemma StepKeepsSound(d: Disk, sources: seq<Source>, op: Op, sha: Blob -> string)
    requires Sound(d, sha)
    ensures Sound(Apply(d, sources, op, sha), sha) && d.next <= Apply(d, sources, op, sha).next
  {
    if op.Collect? {
      CollectKeepsSound(d, op.doomed, sha);
    } else if Apply(d, sources, op, sha) != d {
      var key, c, data, src := StepIngests(d, sources, op, sha);
      IngestKeepsSound(d, key, c, data, sha);
    }
  }

  /** Over every run, rows, references and blobs agree: no remaining row ever loses its blob. */
  lemma {:induction false} RunKeepsSound(d: Disk, sources: seq<Source>, ops: seq<Op>, sha: Blob -> string)
    requires Sound(d, sha)
    ensures Sound(Run(d, sources, ops, sha), sha)
    decreases ops
  {
    if ops != [] {
      StepKeepsSound(d, sources, ops[0], sha);
      RunKeepsSound(Apply(d, sources, ops[0], sha), sources, ops[1..], sha);
    }
  }

  /** A cached row with key `id`, and nothing else about it. */
  predicate Holds(d: Disk, key: string, id: Id) {
    Present(d.rows, key) && IdOf(d.rows, key) == id
  }

  /** One step drops a cached row exactly by collecting it, and never changes it otherwise. */
  lemma StepKeepsCached(d: Disk, sources: seq<Source>, s: Source, op: Op, sha: Blob -> string)
    requires Sound(d, sha) && Present(d.rows, StoreKey(s)) && Foreign(op)
    ensures var d', id := Apply(d, sources, op, sha), IdOf(d.rows, StoreKey(s));
      && (Present(d'.rows, StoreKey(s)) <==> Spared([op], id))
      && (Present(d'.rows, StoreKey(s)) ==>
            IdOf(d'.rows, StoreKey(s)) == id && ValueOf(d'.rows, StoreKey(s)) == ValueOf(d.rows, StoreKey(s)))
  {
    assert op in [op];
    if op.Collect? {
      CollectedExactly(d, op.doomed, StoreKey(s), sha);
    } else if Apply(d, sources, op, sha) != d {
      var key, c, data, src := StepIngests(d, sources, op, sha);
      StoreKeyHasPrefix(s);
      IngestAside(d, key, c, data, StoreKey(s));
    }
  }

  /** An id that was given out and is gone never comes back. */
  lemma StepKeepsAbsent(d: Disk, sources: seq<Source>, k: string, id: nat, op: Op, sha: Blob -> string)
    requires Sound(d, sha) && id < d.next && !Holds(d, k, Uuid(id))
    ensures !Holds(Apply(d, sources, op, sha), k, Uuid(id))
  {
    if op.Collect? {
      CollectedExactly(d, op.doomed, k, sha);
    } else if Apply(d, sources, op, sha) != d {
      var key, c, data, src := StepIngests(d, sources, op, sha);
      PutFinds(d.rows, Uuid(d.next), key, c, Refresh, k);
    }
  }

  lemma {:induction false} RunKeepsAbsent(d: Disk, sources: seq<Source>, k: string, id: nat, ops: seq<Op>, sha: Blob -> string)
    requires Sound(d, sha) && id < d.next && !Holds(d, k, Uuid(id))
    ensures !Holds(Run(d, sources, ops, sha), k, Uuid(id))
    decreases ops
  {
    if ops != [] {
      StepKeepsSound(d, sources, ops[0], sha);
      StepKeepsAbsent(d, sources, k, id, ops[0], sha);
      RunKeepsAbsent(Apply(d, sources, ops[0], sha), sources, k, id, ops[1..], sha);
    }
  }

  lemma SparedFirst(ops: seq<Op>, id: Id)
    requires ops != []
    ensures Spared(ops, id) <==> Spared([ops[0]], id) && Spared(ops[1..], id)
  {
    assert ops == [ops[0]] + ops[1..];
    assert forall op :: op in ops <==> op == ops[0] || op in ops[1..];
  }

  /** Over every run, a cached source keeps its artifact exactly when no collection selects its row; a
      kept row is the same row, and one that was collected never returns under its id. */
  lemma {:induction false} RunKeepsCached(d: Disk, sources: seq<Source>, s: Source, ops: seq<Op>, sha: Blob -> string)
    requires Sound(d, sha) && Present(d.rows, StoreKey(s)) && forall op :: op in ops ==> Foreign(op)
    ensures var d', id := Run(d, sources, ops, sha), IdOf(d.rows, StoreKey(s));
      && (Holds(d', StoreKey(s), id) <==> Spared(ops, id))
      && (Holds(d', StoreKey(s), id) ==> ValueOf(d'.rows, StoreKey(s)) == ValueOf(d.rows, StoreKey(s)))
    decreases ops
  {
    if ops != [] {
      var id := IdOf(d.rows, StoreKey(s));
      var d1 := Apply(d, sources, ops[0], sha);
      SparedFirst(ops, id);
      StepKeepsCached(d, sources, s, ops[0], sha);
      StepKeepsSound(d, sources, ops[0], sha);
      if Present(d1.rows, StoreKey(s)) {
        RunKeepsCached(d1, sources, s, ops[1..], sha);
      } else {
        assert d.rows[Find(d.rows, StoreKey(s))].id.n < d.next;
        RunKeepsAbsent(d1, sources, StoreKey(s), id.n, ops[1..], sha);
      }
    }
  }

  // ---------------------------------------------------------------------
  // The promises to callers
  // ---------------------------------------------------------------------

  lemma SuccessIsCached(d: Disk, sources: seq<Source>, x: string, offline: bool, net: Network, sha: Blob -> string)
    ensures var (d', r) := Fetched(d, sources, x, offline, net, sha);
      r.Ok? ==> Lookup(sources, x).Some? && Holds(d', StoreKey(Lookup(sources, x).value), r.value)
  {
    var found := Lookup(sources, x);
    if found.Some? && Download(found.value, net).Ok? {
      var key, data := StoreKey(found.value), Download(found.value, net).value;
      IngestKeepsRows(d, key, Describe(found.value, data, sha), data, key);
    }
  }

  /** Once fetched, a source yields the same artifact exactly until a collection selects its row:
      whatever else happened in between, online or offline, whatever the network would answer, and then
      without touching the store. */
  lemma FetchedUntilCollected(d: Disk, sources: seq<Source>, x: string, offline: bool, net: Network,
                              between: seq<Op>, offline': bool, net': Network, sha: Blob -> string)
    requires Sound(d, sha) && forall op :: op in between ==> Foreign(op)
    ensures var (d1, r) := Fetched(d, sources, x, offline, net, sha);
      var d2 := Run(d1, sources, between, sha);
      r.Ok? ==>
        && (Fetched(d2, sources, x, offline', net', sha).1 == r <==> Spared(between, r.value))
        && (Spared(between, r.value) ==> Fetched(d2, sources, x, offline', net', sha).0 == d2)
  {
    var (d1, r) := Fetched(d, sources, x, offline, net, sha);
    if r.Ok? {
      var s := Lookup(sources, x).value;
      var d2 := Run(d1, sources, between, sha);
      SuccessIsCached(d, sources, x, offline, net, sha);
      StepKeepsSound(d, sources, FetchOne(x, offline, net), sha);
      RunKeepsCached(d1, sources, s, between, sha);
      if !Spared(between, r.value) {
        RunKeepsSound(d1, sources, between, sha);
        assert d1.rows[Find(d1.rows, StoreKey(s))].id.n < d1.next;
        RunNext(d1, sources, between, sha);
        StepKeepsAbsent(d2, sources, StoreKey(s), r.value.n, FetchOne(x, offline', net'), sha);
        SuccessIsCached(d2, sources, x, offline', net', sha);
      }
    }
  }

  lemma {:induction false} RunNext(d: Disk, sources: seq<Source>, ops: seq<Op>, sha: Blob -> string)
    requires Sound(d, sha)
    ensures d.next <= Run(d, sources, ops, sha).next
    decreases ops
  {
    if ops != [] {
      StepKeepsSound(d, sources, ops[0], sha);
      RunNext(Apply(d, sources, ops[0], sha), sources, ops[1..], sha);
    }
  }

  /** Offline calls never change the store, and succeed exactly on what is cached. */
  lemma OfflineOnlyReads(d: Disk, sources: seq<Source>, x: string, net: Network, sha: Blob -> string)
    ensures Fetched(d, sources, x, true, net, sha).0 == d
    ensures Fetched(d, sources, x, true, net, sha).1.Ok? <==>
      exists s :: s in sources && Lookup(sources, x) == Some(s) && Present(d.rows, StoreKey(s))
  {
    if Lookup(sources, x).Some? {
      assert Lookup(sources, x).value in sources;
    }
  }

  /** What a successful fetch leaves under the source's key has the digest that the source expects. */
  lemma FetchDelivers(d: Disk, sources: seq<Source>, x: string, offline: bool, net: Network, sha: Blob -> string)
    requires DistinctIds(sources) && Unnested(sources) && Sound(d, sha) && Trusted(d, sources)
    ensures var (d', r) := Fetched(d, sources, x, offline, net, sha);
      r.Ok? ==>
        && Lookup(sources, x).Some?
        && var s := Lookup(sources, x).value;
           Read(d', StoreKey(s)).Some? && Accepts(s, sha(Read(d', StoreKey(s)).value))
  {
    var op := FetchOne(x, offline, net);
    var d' := Apply(d, sources, op, sha);
    StepKeepsSound(d, sources, op, sha);
    StepKeepsTrusted(d, sources, op, sha);
    SuccessIsCached(d, sources, x, offline, net, sha);
    if Fetched(d, sources, x, offline, net, sha).1.Ok? {
      var row := d'.rows[Find(d'.rows, StoreKey(Lookup(sources, x).value))];
      assert Resolves(d', row) && row in d'.rows;
      assert Lookup(sources, x).value in sources;
    }
  }

  // ---------------------------------------------------------------------
  // With nested ids, two sources can share a key
  // ---------------------------------------------------------------------

  function Outer(): Source {
    Source("a", "u", "git", Some("b/x"), None, None)
  }

  function Inner(expected: string): Source {
    Source("a/b", "v", "git", Some("x"), Some(expected), None)
  }

  lemma SlashCollides(expected: string)
    ensures StoreKey(Outer()) == StoreKey(Inner(expected)) && Outer().id != Inner(expected).id
  {
    var tail := Filename(Inner(expected));
    assert "b/x" == "b/" + "x";
    assert Filename(Outer()) == "b/" + tail;
    assert "a/b" == "a" + "/" + "b";
    assert StoreKey(Outer()) == SOURCE_PREFIX + "a" + "/" + "b/" + tail;
    assert StoreKey(Inner(expected)) == SOURCE_PREFIX + "a" + "/" + "b" + "/" + tail;
    assert "b/" == "b" + "/";
  }

  /** The second source is then served the first one's artifact, whatever hash it expects. */
  lemma SharedKeyServesWrongBlob(d: Disk, net: Network, expected: string, sha: Blob -> string)
    requires expected != "" && !Present(d.rows, StoreKey(Outer()))
    requires net.git("u", "b/x").Some? && sha(net.git("u", "b/x").value) != NormaliseHash(expected)
    ensures var sources := [Outer(), Inner(expected)];
      var (d1, r1) := Fetched(d, sources, "u", false, net, sha);
      var (d2, r2) := Fetched(d1, sources, "v", false, net, sha);
      r1.Ok? && r2 == r1 && !Trusted(d2, sources)
  {
    var sources := [Outer(), Inner(expected)];
    assert sources[0].uri == "u" && sources[1].uri == "v" && "u" != "v";
    assert First(sources, HasUri("u")) == 0;
    assert First(sources, HasUri("v")) == 1;
    SlashCollides(expected);
    var data := net.git("u", "b/x").value;
    FreshRow(d, StoreKey(Outer()), Describe(Outer(), data, sha), data);
    assert Inner(expected) in sources;
  }

  // ---------------------------------------------------------------------
  // Names, hashes and downloads, in the source's words
  // ---------------------------------------------------------------------

  /** The file name in a store key: the reference of a git source, the last part of any other URI, or "archive". */
  lemma StoreKeyIs(s: Source, path: string, file: string)
    ensures s.kind == "git" && s.ref == Some(file) && file != "" ==> StoreKey(s) == "source/" + s.id + "/" + (file + ".tar.gz")
    ensures s.kind == "git" && (s.ref == None || s.ref == Some("")) ==> StoreKey(s) == "source/" + s.id + "/" + "archive.tar.gz"
    ensures s.kind != "git" && NoSlash(file) && file != "" && (s.uri == path + "/" + file || s.uri == file) ==>
      StoreKey(s) == "source/" + s.id + "/" + file
    ensures s.kind != "git" && (s.uri == path + "/" || s.uri == "") ==> StoreKey(s) == "source/" + s.id + "/" + "archive"
  {
    if s.kind != "git" {
      if NoSlash(file) && s.uri == path + "/" + file {
        LastSegmentIs(path, file);
      }
      if s.uri == path + "/" {
        LastSegmentIs(path, "");
        assert path + "/" + "" == path + "/";
      }
    } else {
      assert "archive" + ".tar.gz" == "archive.tar.gz";
    }
  }

  /** The last segment is the text behind the last slash. */
  lemma LastSegmentIs(path: string, file: string)
    requires NoSlash(file)
    ensures LastSegment(path + "/" + file) == file
  {
    var s, r := path + "/" + file, LastSegment(path + "/" + file);
    assert s[|path|] == '/' && s[|path| + 1..] == file;
    SegmentLength(s, r, |path|);
    assert s[|s| - |r|..] == r;
  }

  lemma SegmentLength(s: string, r: string, at: nat)
    requires at < |s| && s[at] == '/' && NoSlash(s[at + 1..]) && NoSlash(r)
    requires r == s || (|r| < |s| && s[|s| - |r| - 1] == '/' && s[|s| - |r|..] == r)
    ensures r != s && |r| == |s| - at - 1
  {
    assert forall k :: at < k < |s| ==> s[k] == s[at + 1..][k - at - 1];
    assert forall k :: |s| - |r| <= k < |s| ==> s[k] == r[k - (|s| - |r|)];
  }

  /** A download is accepted without an expected hash, and otherwise exactly with that hash, whether or not it
      is written with its algorithm. */
  lemma AcceptsExactly(s: Source, h: string, digest: string)
    ensures s.expected == None || s.expected == Some("") ==> Accepts(s, digest)
    ensures s.expected == Some("sha256:" + h) ==> (Accepts(s, digest) <==> digest == h)
    ensures s.expected == Some(h) && h != "" && !("sha256:" <= h) ==> (Accepts(s, digest) <==> digest == h)
  {
    assert ("sha256:" + h)[7..] == h;
  }

  /** A successful fetch of an absent source has downloaded it over its own protocol: the row describes the
      source and the bytes, as something that a collection may take. */
  lemma FetchStores(d: Disk, sources: seq<Source>, x: string, net: Network, sha: Blob -> string)
    requires var (d', r) := Fetched(d, sources, x, false, net, sha);
      r.Ok? && Lookup(sources, x).Some? && !Present(d.rows, StoreKey(Lookup(sources, x).value))
    ensures var (d', r) := Fetched(d, sources, x, false, net, sha);
      var s := Lookup(sources, x).value;
      var row := ValueOf(d'.rows, StoreKey(s));
      exists data :: Downloads(s, net, data) && row.Some? && Describes(row.value, s, data, sha)
  {
    var s := Lookup(sources, x).value;
    var data := Download(s, net).value;
    var c := Describe(s, data, sha);
    FreshRow(d, StoreKey(s), c, data);
    assert Downloads(s, net, data);
    NamesSource(s, data, sha);
  }

  ghost predicate Downloads(s: Source, net: Network, data: Blob) {
    && (s.kind == "git" && s.ref.Some? && s.ref.value != "" ==> net.git(s.uri, s.ref.value) == Some(data))
    && (s.kind == "git" && (s.ref.None? || s.ref.value == "") ==> net.git(s.uri, "main") == Some(data))
    && (s.kind != "git" ==> (s.kind == "http" || s.kind == "https") && net.http(s.uri) == Some(data))
  }

  ghost predicate Describes(c: Content, s: Source, data: Blob, sha: Blob -> string) {
    && c.kind == "source" && c.retention == "cache-hot" && c.version == s.ref && c.arch == None
    && c.sha == sha(data) && c.size == |data| && c.inputHash == None && c.repro == None
    && (s.name.Some? && s.name.value != "" ==> c.name == s.name.value)
    && (s.name.None? || s.name.value == "" ==> c.name == LastSegment(s.uri))
    && (s.kind == "git" ==> c.mediaType == Some("application/x-gzip"))
  }

  lemma NamesSource(s: Source, data: Blob, sha: Blob -> string)
    ensures Describes(Describe(s, data, sha), s, data, sha)
  {
    if s.kind == "git" {
      GitMediaType(s);
    }
  }

  lemma GitMediaType(s: Source)
    requires s.kind == "git"
    ensures MediaTypeFor(LastSegment(StoreKey(s))) == "application/x-gzip"
  {
    var key, tail := StoreKey(s), ".tar.gz";
    assert key == SOURCE_PREFIX + s.id + "/" + OrIfEmpty(s.ref, "archive") + tail;
    SegmentKeepsTail(key, tail);
  }

  /** A slash-free ending is part of the last segment. */
  lemma SegmentKeepsTail(s: string, tail: string)
    requires EndsWith(s, tail) && NoSlash(tail)
    ensures EndsWith(LastSegment(s), tail)
  {
    var r := LastSegment(s);
    NoSlashInTail(s, tail);
    if r != s {
      assert |tail| <= |r|;
      TailOfSegment(s, r, tail);
    }
  }

  lemma NoSlashInTail(s: string, tail: string)
    requires EndsWith(s, tail) && NoSlash(tail)
    ensures forall n :: |s| - |tail| <= n < |s| ==> s[n] != '/'
  {
    forall n | |s| - |tail| <= n < |s| ensures s[n] != '/' {
      assert s[n] == s[|s| - |tail|..][n - (|s| - |tail|)];
    }
  }

  lemma TailOfSegment(s: string, r: string, tail: string)
    requires EndsWith(s, tail) && EndsWith(s, r) && |tail| <= |r|
    ensures EndsWith(r, tail)
  {
    assert r[|r| - |tail|..] == s[|s| - |tail|..];
  }

  /** Media types by the ending of the file name, whatever comes before it. */
  lemma MediaTypes(stem: string)
    ensures MediaTypeFor(stem + ".tar.gz") == MediaTypeFor(stem + ".tgz") == "application/x-gzip"
    ensures MediaTypeFor(stem + ".tar.bz2") == "application/x-bzip2"
    ensures MediaTypeFor(stem + ".tar.zst") == "application/zstd"
    ensures MediaTypeFor(stem + ".zip") == "application/zip"
    ensures stem != "" && stem[|stem| - 1] !in {'z', '2', 't', 'p'} ==> MediaTypeFor(stem) == "application/octet-stream"
  {
    assert EndsWith(stem + ".tar.gz", ".tar.gz") && EndsWith(stem + ".tgz", ".tgz");
    OtherEndings(stem + ".tar.bz2", ".tar.bz2");
    OtherEndings(stem + ".tar.zst", ".tar.zst");
    OtherEndings(stem + ".zip", ".zip");
    if stem != "" {
      OtherEndings(stem, "");
    }
  }

  /** A text ending in `e` has no other of the known endings with a different last character. */
  lemma OtherEndings(s: string, e: string)
    requires EndsWith(s, e) && s != ""
    ensures EndsWith(s, ".tar.gz") || EndsWith(s, ".tgz") ==> s[|s| - 1] == 'z'
    ensures EndsWith(s, ".tar.bz2") ==> s[|s| - 1] == '2'
    ensures EndsWith(s, ".tar.zst") ==> s[|s| - 1] == 't'
    ensures EndsWith(s, ".zip") ==> s[|s| - 1] == 'p'
    ensures e != "" ==> s[|s| - 1] == e[|e| - 1]
  {
    LastChar(s, ".tar.gz");
    LastChar(s, ".tgz");
    LastChar(s, ".tar.bz2");
    LastChar(s, ".tar.zst");
    LastChar(s, ".zip");
    LastChar(s, e);
  }

  lemma LastChar(s: string, e: string)
    ensures EndsWith(s, e) && e != "" ==> s[|s| - 1] == e[|e| - 1]
  {
    if EndsWith(s, e) && e != "" {
      assert s[|s| - |e|..][|e| - 1] == s[|s| - 1];
    }
  }

  /** The ways in which a fetch fails, in the order in which they are noticed. */
  lemma FetchFails(d: Disk, sources: seq<Source>, x: string, offline: bool, net: Network, sha: Blob -> string)
    ensures var found, r := Lookup(sources, x), Fetched(d, sources, x, offline, net, sha).1;
      && (found.None? ==> r == Err(NotFound))
      && (found.Some? && Present(d.rows, StoreKey(found.value)) ==> r == Ok(IdOf(d.rows, StoreKey(found.value))))
      && (found.Some? && !Present(d.rows, StoreKey(found.value)) ==>
            var s := found.value;
            && (offline ==> r == Err(NotCached))
            && (!offline && s.kind != "git" && s.kind != "http" && s.kind != "https" ==> r == Err(UnsupportedType))
            && (!offline && (s.kind == "http" || s.kind == "https") && net.http(s.uri).None? ==> r == Err(DownloadFailed))
            && (!offline ==> forall data :: Downloads(s, net, data) ==>
                  if Accepts(s, sha(data)) then r.Ok? else r == Err(HashMismatch)))
  {
    var found := Lookup(sources, x);
    if found.Some? {
      forall data | Downloads(found.value, net, data) ensures Download(found.value, net) == Ok(data) {
        DownloadsIs(found.value, net, data);
      }
    }
  }

  lemma DownloadsIs(s: Source, net: Network, data: Blob)
    requires Downloads(s, net, data)
    ensures Download(s, net) == Ok(data)
  {
  }
}
