/** Deleting artifacts from the store, for any selection of rows, and sweeping blobs that nothing refers to. */
module GarbageCollection {
  import opened Wrappers
  import opened Bytes
  import opened Ordering
  import opened Tables
  import opened ArtifactStore

  type ArtifactRow = Row<string, Content>

  function Survives(doomed: set<Id>): ArtifactRow -> bool { (r: ArtifactRow) => r.id !in doomed }
  function HasSha(h: string): ArtifactRow -> bool { (r: ArtifactRow) => r.val.sha == h }

  function Referenced(rows: seq<ArtifactRow>): set<string> {
    set r | r in rows :: r.val.sha
  }

  function DoomedKeys(rows: seq<ArtifactRow>, doomed: set<Id>): set<string> {
    set r | r in rows && r.id in doomed :: r.key
  }

  /** The rows in `doomed` and their references are gone, and so is every blob without a row. */
  function Collected(d: Disk, doomed: set<Id>): Disk {
    var kept := Filter(d.rows, Survives(doomed));
    Disk(d.next, kept, map h | h in d.blobs && h in Referenced(kept) :: d.blobs[h], d.refs - DoomedKeys(d.rows, doomed))
  }

  lemma AtMostOne<T>(s: seq<T>, x: T, y: T)
    requires |s| <= 1 && x in s && y in s
    ensures x == y
  {
  }

  /** A digest with only one row has no row besides that one. */
  lemma LastReference(rows: seq<ArtifactRow>, gone: ArtifactRow, doomed: set<Id>)
    requires gone in rows && gone.id in doomed
    requires |Filter(rows, HasSha(gone.val.sha))| <= 1
    ensures gone.val.sha !in Referenced(Filter(rows, Survives(doomed)))
  {
    var same := Filter(rows, HasSha(gone.val.sha));
    FilterMembers(rows, HasSha(gone.val.sha));
    FilterMembers(rows, Survives(doomed));
    forall r | r in rows && r.id !in doomed ensures r.val.sha != gone.val.sha {
      if r in same {
        AtMostOne(same, r, gone);
      }
    }
  }

  /** Deletes the rows selected for collection, with their references and last blobs, then sweeps. */
  method CollectGarbage(store: Store, doomed: set<Id>, dryRun: bool)
    modifies store
    ensures store.State() == if dryRun then old(store.State()) else Collected(old(store.State()), doomed)
  {
    if dryRun {
      return;
    }
    ghost var d := store.State();
    var i := 0;
    while i < |store.rows|
      invariant 0 <= i <= |store.rows| && store.rows == d.rows && store.next == d.next
      invariant store.refs == d.refs - DoomedKeys(d.rows[..i], doomed)
      invariant Shrunk(d, doomed, store.blobs)
    {
      var art := store.rows[i];
      DoomedNext(d, doomed, i);
      if art.id in doomed {
        Dereference(store, art, doomed, d);
      }
      i := i + 1;
    }
    assert d.rows[..i] == d.rows;
    store.rows := Filter(store.rows, Survives(doomed));
    Sweep(store, Referenced(store.rows));
    assert store.State() == Collected(d, doomed);
  }

  /** Removes the reference of a row, and its blob if no other row has it. */
  method Dereference(store: Store, art: ArtifactRow, ghost doomed: set<Id>, ghost d: Disk)
    requires art in store.rows && store.rows == d.rows && art.id in doomed && Shrunk(d, doomed, store.blobs)
    modifies store`refs, store`blobs
    ensures store.refs == old(store.refs) - {art.key} && Shrunk(d, doomed, store.blobs)
  {
    store.refs := store.refs - {art.key};
    if |Filter(store.rows, HasSha(art.val.sha))| <= 1 {
      LastReference(d.rows, art, doomed);
      store.blobs := store.blobs - {art.val.sha};
    }
  }

  /** Some blobs are gone, but none that a surviving row refers to. */
  ghost predicate Shrunk(d: Disk, doomed: set<Id>, blobs: map<string, Blob>) {
    && (forall h :: h in blobs ==> h in d.blobs && blobs[h] == d.blobs[h])
    && (forall h :: h in d.blobs && h in Referenced(Filter(d.rows, Survives(doomed))) ==> h in blobs)
  }

  lemma DoomedNext(d: Disk, doomed: set<Id>, i: nat)
    requires i < |d.rows|
    ensures DoomedKeys(d.rows[..i + 1], doomed)
         == DoomedKeys(d.rows[..i], doomed) + (if d.rows[i].id in doomed then {d.rows[i].key} else {})
  {
    assert d.rows[..i + 1] == d.rows[..i] + [d.rows[i]];
  }

  /** Removes every blob file whose digest is not in `referenced`. */
  method Sweep(store: Store, referenced: set<string>)
    modifies store`blobs
    ensures store.blobs == map h | h in old(store.blobs) && h in referenced :: old(store.blobs)[h]
  {
    var files := store.blobs.Keys;
    while files != {}
      invariant files <= old(store.blobs).Keys
      invariant forall h :: h in store.blobs <==> h in old(store.blobs) && (h in files || h in referenced)
      invariant forall h :: h in store.blobs ==> store.blobs[h] == old(store.blobs)[h]
    {
      var h :| h in files;
      if h !in referenced {
        store.blobs := store.blobs - {h};
      }
      files := files - {h};
    }
  }

  // ---------------------------------------------------------------------
  // Laws
  // ---------------------------------------------------------------------

  lemma SoundKeys(d: Disk, sha: Blob -> string)
    requires Sound(d, sha)
    ensures DistinctKeys(d.rows)
  {
    forall i, j | 0 <= i < j < |d.rows| ensures d.rows[i].key != d.rows[j].key {
      assert Find(d.rows, d.rows[j].key) == j;
    }
  }

  /** No remaining row loses its blob or its reference, whatever is collected. */
  lemma CollectKeepsSound(d: Disk, doomed: set<Id>, sha: Blob -> string)
    requires Sound(d, sha)
    ensures Sound(Collected(d, doomed), sha)
  {
    var d' := Collected(d, doomed);
    SoundKeys(d, sha);
    FilterFinds(d.rows, Survives(doomed), "");
    FilterKeepsPairs(d.rows, Survives(doomed), IdsApart());
    forall i, j | 0 <= i < j < |d'.rows| ensures d'.rows[i].id != d'.rows[j].id {
      assert IdsApart<string, Content>()(d'.rows[i], d'.rows[j]);
    }
    forall i | 0 <= i < |d'.rows|
      ensures Find(d'.rows, d'.rows[i].key) == i && d'.rows[i].id.Uuid? && d'.rows[i].id.n < d'.next && Resolves(d', d'.rows[i])
    {
      var r := d'.rows[i];
      FindIs(d'.rows, r.key, i);
      SurvivorResolves(d, doomed, r, sha);
    }
  }

  lemma SurvivorResolves(d: Disk, doomed: set<Id>, r: ArtifactRow, sha: Blob -> string)
    requires Sound(d, sha) && r in Collected(d, doomed).rows
    ensures r.id.Uuid? && r.id.n < d.next && Resolves(Collected(d, doomed), r)
  {
    FilterMembers(d.rows, Survives(doomed));
    var i :| 0 <= i < |d.rows| && d.rows[i] == r;
    assert Resolves(d, d.rows[i]);
    forall q | q in d.rows && q.id in doomed ensures q.key != r.key {
      var j :| 0 <= j < |d.rows| && d.rows[j] == q;
      assert Find(d.rows, q.key) == j && Find(d.rows, r.key) == i;
    }
  }

  /** A key loses its row exactly when the row is collected; otherwise it reads as before. */
  lemma CollectedExactly(d: Disk, doomed: set<Id>, key: string, sha: Blob -> string)
    requires Sound(d, sha)
    ensures var d' := Collected(d, doomed);
      && (Present(d'.rows, key) <==> Present(d.rows, key) && IdOf(d.rows, key) !in doomed)
      && (Present(d'.rows, key) ==>
            IdOf(d'.rows, key) == IdOf(d.rows, key) && ValueOf(d'.rows, key) == ValueOf(d.rows, key)
            && Read(d', key) == Read(d, key) && Read(d, key).Some?)
  {
    SoundKeys(d, sha);
    FilterFinds(d.rows, Survives(doomed), key);
    var d' := Collected(d, doomed);
    if Present(d'.rows, key) {
      var r := d'.rows[Find(d'.rows, key)];
      SurvivorResolves(d, doomed, r, sha);
      assert Resolves(d, d.rows[Find(d.rows, key)]);
    }
  }

  /** Collecting the same selection again changes nothing. */
  lemma CollectTwice(d: Disk, doomed: set<Id>)
    ensures Collected(Collected(d, doomed), doomed) == Collected(d, doomed)
  {
    var once := Collected(d, doomed);
    FilterMembers(d.rows, Survives(doomed));
    FilterAll(once.rows, Survives(doomed));
    assert DoomedKeys(once.rows, doomed) == {};
    assert Collected(once, doomed).blobs == once.blobs;
  }
}
