/** The artifact store: blobs under their digest, named references to them, and one metadata row per store key. */
module ArtifactStore {
  import opened Wrappers
  import opened Bytes
  import opened Tables

  datatype Content = Content(
    kind: string,
    name: string,
    version: Option<string>,
    arch: Option<string>,
    sha: string,
    size: nat,
    mediaType: Option<string>,
    retention: string,
    inputHash: Option<string>,
    repro: Option<string>)

  /** Everything that an ingest can change; `next` numbers the row ids. */
  datatype Disk = Disk(next: nat, rows: Table<string, Content>, blobs: map<string, Blob>, refs: map<string, string>)

  /** What an existing row takes from a new ingest: nothing for the same digest, otherwise digest, size
      and whatever provenance was supplied. */
  function Refresh(had: Content, got: Content): Content {
    if had.sha == got.sha then had
    else had.(sha := got.sha, size := got.size,
              inputHash := if got.inputHash.Some? then got.inputHash else had.inputHash,
              repro := if got.repro.Some? then got.repro else had.repro)
  }

  /** The disk after `data`, described by `c`, is ingested under `key`. */
  function Ingested(d: Disk, key: string, c: Content, data: Blob): Disk {
    Disk(if Present(d.rows, key) then d.next else d.next + 1,
         Put(d.rows, Uuid(d.next), key, c, Refresh),
         if c.sha in d.blobs then d.blobs else d.blobs[c.sha := data],
         d.refs[key := c.sha])
  }

  /** What looking up an artifact by id and opening its blob gives. */
  datatype Loaded = NoRow | NoBlob | Found(row: Content, data: Blob)

  function Load(d: Disk, id: Id): Loaded {
    var i := FindId(d.rows, id);
    if i == |d.rows| then NoRow
    else if d.rows[i].val.sha !in d.blobs then NoBlob
    else Found(d.rows[i].val, d.blobs[d.rows[i].val.sha])
  }

  class Store {
    const sha: Blob -> string
    var next: nat
    var rows: Table<string, Content>
    var blobs: map<string, Blob>
    var refs: map<string, string>

    constructor (sha: Blob -> string)
      ensures this.sha == sha && State() == Disk(0, [], map[], map[])
    {
      this.sha := sha;
      next, rows, blobs, refs := 0, [], map[], map[];
    }

    function State(): Disk
      reads this
    {
      Disk(next, rows, blobs, refs)
    }

    method Open(id: Id) returns (r: Loaded)
      ensures r == Load(State(), id)
    {
      var i := FindId(rows, id);
      if i == |rows| {
        return NoRow;
      }
      var row := rows[i].val;
      if row.sha !in blobs {
        return NoBlob;
      }
      return Found(row, blobs[row.sha]);
    }

    /** Stores a blob and points `key` at it; the row of a known key keeps its identity. `c.sha` and
        `c.size` are filled in here. */
    method Ingest(data: Blob, key: string, c: Content, expected: Option<string>) returns (r: Option<Id>)
      modifies this
      ensures r.None? <==> expected.Some? && expected.value != sha(data)
      ensures r.None? ==> State() == old(State())
      ensures r.Some? ==>
        && State() == Ingested(old(State()), key, c.(sha := sha(data), size := |data|), data)
        && r.value == IdOf(rows, key) && Present(rows, key)
    {
      var actual := sha(data);
      if expected.Some? && expected.value != actual {
        return None;
      }
      if actual !in blobs {
        blobs := blobs[actual := data];
      }
      refs := refs[key := actual];
      var id := UpdateRow(key, c.(sha := actual, size := |data|));
      return Some(id);
    }

    /** The database half of an ingest: updates the row of the key, or adds one. */
    method UpdateRow(key: string, c: Content) returns (id: Id)
      modifies this`rows, this`next
      ensures rows == Put(old(rows), Uuid(old(next)), key, c, Refresh)
      ensures next == if Present(old(rows), key) then old(next) else old(next) + 1
      ensures Present(rows, key) && id == IdOf(rows, key)
    {
      PutFinds(rows, Uuid(next), key, c, Refresh, key);
      var i := Find(rows, key);
      if i < |rows| {
        var existing := rows[i];
        if existing.val.sha == c.sha {
          assert rows[i := existing] == rows;
          return existing.id;
        }
        var v := existing.val.(sha := c.sha, size := c.size);
        if c.inputHash.Some? {
          v := v.(inputHash := c.inputHash);
        }
        if c.repro.Some? {
          v := v.(repro := c.repro);
        }
        rows := rows[i := existing.(val := v)];
        return existing.id;
      }
      rows := rows + [Row(Uuid(next), key, c)];
      next := next + 1;
      return rows[i].id;
    }
  }

  // ---------------------------------------------------------------------
  // What every ingest keeps
  // ---------------------------------------------------------------------

  /** Keys and ids are unique, blobs carry their own digest, and every row, its reference and its blob agree. */
  ghost predicate Sound(d: Disk, sha: Blob -> string) {
    && (forall i :: 0 <= i < |d.rows| ==> Find(d.rows, d.rows[i].key) == i)
    && (forall i, j :: 0 <= i < j < |d.rows| ==> d.rows[i].id != d.rows[j].id)
    && (forall i :: 0 <= i < |d.rows| ==> d.rows[i].id.Uuid? && d.rows[i].id.n < d.next)
    && (forall h :: h in d.blobs ==> sha(d.blobs[h]) == h)
    && (forall i :: 0 <= i < |d.rows| ==> Resolves(d, d.rows[i]))
  }

  predicate Resolves(d: Disk, r: Row<string, Content>) {
    r.val.sha in d.blobs && r.key in d.refs && d.refs[r.key] == r.val.sha
  }

  lemma IngestKeepsSound(d: Disk, key: string, c: Content, data: Blob, sha: Blob -> string)
    requires Sound(d, sha) && c.sha == sha(data)
    ensures Sound(Ingested(d, key, c, data), sha)
  {
    var d' := Ingested(d, key, c, data);
    IngestKeepsIds(d, key, c, data, sha);
    forall i | 0 <= i < |d'.rows| ensures Find(d'.rows, d'.rows[i].key) == i && Resolves(d', d'.rows[i]) {
      RowAfterIngest(d, key, c, data, i, sha);
      PutFinds(d.rows, Uuid(d.next), key, c, Refresh, d'.rows[i].key);
    }
  }

  lemma IngestKeepsIds(d: Disk, key: string, c: Content, data: Blob, sha: Blob -> string)
    requires Sound(d, sha) && c.sha == sha(data)
    ensures var d' := Ingested(d, key, c, data);
      && (forall i, j :: 0 <= i < j < |d'.rows| ==> d'.rows[i].id != d'.rows[j].id)
      && (forall i :: 0 <= i < |d'.rows| ==> d'.rows[i].id.Uuid? && d'.rows[i].id.n < d'.next)
      && (forall h :: h in d'.blobs ==> sha(d'.blobs[h]) == h)
  {
  }

  /** Each row after an ingest is the ingested one or an untouched earlier one. */
  lemma RowAfterIngest(d: Disk, key: string, c: Content, data: Blob, i: nat, sha: Blob -> string)
    requires Sound(d, sha) && c.sha == sha(data)
    requires i < |Ingested(d, key, c, data).rows|
    ensures var d' := Ingested(d, key, c, data);
      && (i < |d.rows| ==> d'.rows[i].key == d.rows[i].key && d'.rows[i].id == d.rows[i].id)
      && (d'.rows[i].key == key ==> i == Find(d.rows, key) && d'.rows[i].val.sha == c.sha)
      && (d'.rows[i].key != key ==> i < |d.rows| && d'.rows[i] == d.rows[i])
      && Resolves(d', d'.rows[i])
  {
    if i < |d.rows| {
      assert Find(d.rows, d.rows[i].key) == i;
      assert Resolves(d, d.rows[i]);
    }
  }

  /** The bytes that a store key leads to. */
  function Read(d: Disk, key: string): Option<Blob> {
    if key in d.refs && d.refs[key] in d.blobs then Some(d.blobs[d.refs[key]]) else None
  }

  /** Reading a key gives the last bytes ingested under it; every other key reads as before. */
  lemma ReadAfterIngest(d: Disk, key: string, c: Content, data: Blob, sha: Blob -> string)
    requires Sound(d, sha) && Injective(sha) && c.sha == sha(data)
    ensures Read(Ingested(d, key, c, data), key) == Some(data)
    ensures forall k :: k != key && Read(d, k).Some? ==> Read(Ingested(d, key, c, data), k) == Read(d, k)
  {
  }

  /** The row of a known key keeps its id, and an ingest under one key leaves every other row alone. */
  lemma IngestKeepsRows(d: Disk, key: string, c: Content, data: Blob, k: string)
    ensures var d' := Ingested(d, key, c, data);
      && Present(d'.rows, key)
      && (Present(d.rows, k) ==> Present(d'.rows, k) && IdOf(d'.rows, k) == IdOf(d.rows, k))
      && (k != key ==> ValueOf(d'.rows, k) == ValueOf(d.rows, k))
  {
    PutFinds(d.rows, Uuid(d.next), key, c, Refresh, key);
    PutFinds(d.rows, Uuid(d.next), key, c, Refresh, k);
  }

  /** The table stays as it is exactly when the key's row already has the digest; a new digest is
      written into the row. */
  lemma RowUnchangedExactly(d: Disk, key: string, c: Content, data: Blob)
    requires Present(d.rows, key)
    ensures Ingested(d, key, c, data).rows == d.rows <==> ValueOf(d.rows, key).value.sha == c.sha
    ensures Present(Ingested(d, key, c, data).rows, key) && ValueOf(Ingested(d, key, c, data).rows, key).value.sha == c.sha
  {
    var n := Find(d.rows, key);
    PutFinds(d.rows, Uuid(d.next), key, c, Refresh, key);
    if d.rows[n].val.sha == c.sha {
      assert d.rows[n := d.rows[n]] == d.rows;
    } else {
      assert Ingested(d, key, c, data).rows[n].val.sha != d.rows[n].val.sha;
    }
  }

  /** Ingesting the same bytes again changes nothing. */
  lemma IngestTwice(d: Disk, key: string, c: Content, data: Blob)
    ensures Ingested(Ingested(d, key, c, data), key, c, data) == Ingested(d, key, c, data)
  {
    var once := Ingested(d, key, c, data);
    PutFinds(d.rows, Uuid(d.next), key, c, Refresh, key);
    var n := Find(d.rows, key);
    assert once.rows[n].val.sha == c.sha;
    assert once.rows[n := once.rows[n]] == once.rows;
    assert once.refs[key := c.sha] == once.refs;
  }

  /** The id that the row of `key` has after an ingest under it. */
  function KeyId(d: Disk, key: string): Id {
    if Present(d.rows, key) then IdOf(d.rows, key) else Uuid(d.next)
  }

  /** An ingest under one key leaves every other artifact, present or missing, as it was loaded before. */
  lemma IngestKeepsLoads(d: Disk, key: string, c: Content, data: Blob, id: Id, sha: Blob -> string)
    requires Sound(d, sha) && c.sha == sha(data)
    requires id != KeyId(d, key)
    ensures Load(Ingested(d, key, c, data), id) == Load(d, id)
  {
    IngestKeepsPosition(d, key, c, data, id, sha);
    var i := FindId(d.rows, id);
    if i < |d.rows| {
      assert Resolves(d, d.rows[i]);
    }
  }

  lemma IngestKeepsPosition(d: Disk, key: string, c: Content, data: Blob, id: Id, sha: Blob -> string)
    requires Sound(d, sha) && id != KeyId(d, key)
    ensures var rows, i := Ingested(d, key, c, data).rows, FindId(d.rows, id);
      if i < |d.rows| then FindId(rows, id) == i && rows[i] == d.rows[i] else FindId(rows, id) == |rows|
  {
    var rows, i := Ingested(d, key, c, data).rows, FindId(d.rows, id);
    forall j | 0 <= j < |d.rows| ensures rows[j].id == d.rows[j].id && (d.rows[j].id == id ==> rows[j] == d.rows[j]) {
    }
    if i == |d.rows| {
      assert forall j :: 0 <= j < |rows| ==> rows[j].id != id;
    }
  }

  /** A new key gets the row as described; the row of a known key takes digest, size and the provenance that was
      supplied, if the digest is new, and keeps everything else. */
  lemma IngestStoresRow(d: Disk, key: string, c: Content, data: Blob)
    ensures var v, had := ValueOf(Ingested(d, key, c, data).rows, key), ValueOf(d.rows, key);
      && v.Some?
      && (had.None? ==> v.value == c)
      && (had.Some? && had.value.sha == c.sha ==> v == had)
      && (had.Some? && had.value.sha != c.sha ==>
            && v.value.sha == c.sha && v.value.size == c.size
            && v.value.inputHash == (if c.inputHash.Some? then c.inputHash else had.value.inputHash)
            && v.value.repro == (if c.repro.Some? then c.repro else had.value.repro)
            && v.value.kind == had.value.kind && v.value.name == had.value.name && v.value.version == had.value.version
            && v.value.arch == had.value.arch && v.value.mediaType == had.value.mediaType
            && v.value.retention == had.value.retention)
  {
    PutFinds(d.rows, Uuid(d.next), key, c, Refresh, key);
  }

  /** The blob is stored under its digest, and the key's reference points at it. */
  lemma IngestStoresBlob(d: Disk, key: string, c: Content, data: Blob, sha: Blob -> string)
    requires Sound(d, sha) && Injective(sha) && c.sha == sha(data)
    ensures var end := Ingested(d, key, c, data);
      && end.refs == d.refs[key := sha(data)]
      && sha(data) in end.blobs && end.blobs[sha(data)] == data
      && forall h :: h != sha(data) ==> (h in end.blobs <==> h in d.blobs) && (h in d.blobs ==> end.blobs[h] == d.blobs[h])
  {
  }

  /** Loading finds a row by its id, and the blob that the row's digest names. */
  lemma LoadIs(d: Disk, i: nat)
    requires i < |d.rows| && forall j :: 0 <= j < |d.rows| && d.rows[j].id == d.rows[i].id ==> j == i
    ensures var c := d.rows[i].val;
      Load(d, d.rows[i].id) == if c.sha in d.blobs then Found(c, d.blobs[c.sha]) else NoBlob
  {
    assert FindId(d.rows, d.rows[i].id) == i;
  }

  lemma LoadMissing(d: Disk, id: Id)
    requires forall j :: 0 <= j < |d.rows| ==> d.rows[j].id != id
    ensures Load(d, id) == NoRow
  {
  }
}
