/** Database tables as rows in insertion order, addressed by natural key, and the algebra of
    get-or-create and update steps over them. */
module Tables {
  import opened Wrappers
  import opened Ordering

  /** A primary key. `Blank` is the empty string that the source stores for an unknown reference;
      `Uuid(n)` is the n-th freshly generated key. */
  datatype Id = Blank | Uuid(n: nat)

  datatype Row<+K, +V> = Row(id: Id, key: K, val: V)

  type Table<+K, +V> = seq<Row<K, V>>

  /** `select(...).where(key == k).first()`: index of the first row with key `k`, `|t|` when there is none. */
  function Find<K(==), V>(t: Table<K, V>, k: K): (i: nat)
    ensures i <= |t|
    ensures forall j :: 0 <= j < i ==> t[j].key != k
    ensures i < |t| ==> t[i].key == k
  {
    if t == [] then 0
    else if t[0].key == k then 0
    else 1 + Find(t[1..], k)
  }

  /** Position of the row with id `id`, `|t|` when there is none. */
  function FindId<K, V>(t: Table<K, V>, id: Id): (i: nat)
    ensures i <= |t|
    ensures i < |t| ==> t[i].id == id
    ensures forall j :: 0 <= j < i ==> t[j].id != id
  {
    if t == [] then 0 else if t[0].id == id then 0 else 1 + FindId(t[1..], id)
  }

  predicate Present<K(==), V>(t: Table<K, V>, k: K) {
    Find(t, k) < |t|
  }

  function ValueOf<K(==), V>(t: Table<K, V>, k: K): Option<V> {
    if Present(t, k) then Some(t[Find(t, k)].val) else None
  }

  function IdOf<K(==), V>(t: Table<K, V>, k: K): Id {
    if Present(t, k) then t[Find(t, k)].id else Blank
  }

  lemma FindIs<K, V>(t: Table<K, V>, k: K, i: nat)
    requires i < |t| && t[i].key == k
    requires forall j :: 0 <= j < i ==> t[j].key != k
    ensures Find(t, k) == i
  {
  }

  /** Get-or-create with an update rule: an existing row takes `merge(old, v)`, otherwise a row is added. */
  function Put<K(==), V>(t: Table<K, V>, id: Id, k: K, v: V, merge: (V, V) -> V): Table<K, V> {
    var i := Find(t, k);
    if i < |t| then t[i := t[i].(val := merge(t[i].val, v))] else t + [Row(id, k, v)]
  }

  /** An upsert keeps every row where it was and puts its own key at most at the end. */
  lemma PutFinds<K, V>(t: Table<K, V>, id: Id, k: K, v: V, merge: (V, V) -> V, j: K)
    ensures var t' := Put(t, id, k, v, merge);
      && (Present(t', j) <==> Present(t, j) || j == k)
      && (Present(t', j) ==> Find(t', j) == Find(t, j))
  {
    var t' := Put(t, id, k, v, merge);
    if Present(t, j) || j == k {
      FindIs(t', j, Find(t, j));
    }
  }

  // ---------------------------------------------------------------------
  // What a log of upserts does to one key
  // ---------------------------------------------------------------------

  /** The value at key `k` after the upserts of `log`, starting from `o`. */
  function Folded<K(==), V>(o: Option<V>, log: seq<(K, V)>, k: K, merge: (V, V) -> V): Option<V>
    decreases log
  {
    if log == [] then o
    else Folded(Absorb(o, log[0], k, merge), log[1..], k, merge)
  }

  function Absorb<K(==), V>(o: Option<V>, e: (K, V), k: K, merge: (V, V) -> V): Option<V> {
    if e.0 != k then o
    else if o.None? then Some(e.1)
    else Some(merge(o.value, e.1))
  }

  lemma {:induction false} FoldedAppend<K, V>(o: Option<V>, a: seq<(K, V)>, b: seq<(K, V)>, k: K, merge: (V, V) -> V)
    ensures Folded(o, a + b, k, merge) == Folded(Folded(o, a, k, merge), b, k, merge)
    decreases a
  {
    if a == [] {
      assert a + b == b;
    } else {
      assert (a + b)[0] == a[0] && (a + b)[1..] == a[1..] + b;
      FoldedAppend(Absorb(o, a[0], k, merge), a[1..], b, k, merge);
    }
  }

  /** An update rule is a band when it is associative and idempotent. */
  ghost predicate Band<V(!new)>(merge: (V, V) -> V) {
    && (forall a :: merge(a, a) == a)
    && (forall a, b, c :: merge(merge(a, b), c) == merge(a, merge(b, c)))
  }

  /** Folding a log onto a present value is one merge with what the log folds to on its own. */
  lemma {:induction false} FoldedIsOneMerge<K, V(!new)>(a: V, log: seq<(K, V)>, k: K, merge: (V, V) -> V)
    requires Band(merge)
    ensures Folded(Some(a), log, k, merge)
         == Some(var p := Folded(None, log, k, merge); if p.None? then a else merge(a, p.value))
  {
    if log != [] {
      if log[0].0 == k {
        var v := log[0].1;
        FoldedIsOneMerge(merge(a, v), log[1..], k, merge);
        FoldedIsOneMerge(v, log[1..], k, merge);
      } else {
        FoldedIsOneMerge(a, log[1..], k, merge);
      }
    }
  }

  /** Replaying a log of band updates changes nothing. */
  lemma FoldedTwice<K, V(!new)>(o: Option<V>, log: seq<(K, V)>, k: K, merge: (V, V) -> V)
    requires Band(merge)
    ensures Folded(Folded(o, log, k, merge), log, k, merge) == Folded(o, log, k, merge)
  {
    var p := Folded(None, log, k, merge);
    if o.Some? {
      FoldedIsOneMerge(o.value, log, k, merge);
    }
    if Folded(o, log, k, merge).Some? {
      FoldedIsOneMerge(Folded(o, log, k, merge).value, log, k, merge);
    }
  }

  ghost predicate Declares<K, V>(log: seq<(K, V)>, k: K) {
    exists e :: e in log && e.0 == k
  }

  lemma {:induction false} FoldedPresence<K, V>(o: Option<V>, log: seq<(K, V)>, k: K, merge: (V, V) -> V)
    ensures Folded(o, log, k, merge).Some? <==> o.Some? || Declares(log, k)
    decreases log
  {
    if log != [] {
      FoldedPresence(Absorb(o, log[0], k, merge), log[1..], k, merge);
      assert forall e :: e in log <==> e == log[0] || e in log[1..];
    }
  }

  // ---------------------------------------------------------------------
  // What a log of upserts does to a whole table
  // ---------------------------------------------------------------------

  /** `t1` is `t0` after the upserts of `log`: rows keep their position, identity and key, rows hidden
      behind an earlier row with the same key keep their value, new rows have new keys, and the
      value at every key is the folded one. */
  ghost predicate Evolves<K(!new), V>(t0: Table<K, V>, t1: Table<K, V>, log: seq<(K, V)>, merge: (V, V) -> V) {
    && |t0| <= |t1|
    && (forall i :: 0 <= i < |t0| ==> t1[i].id == t0[i].id && t1[i].key == t0[i].key)
    && (forall i :: 0 <= i < |t0| && Find(t0, t0[i].key) != i ==> t1[i] == t0[i])
    && (forall i :: |t0| <= i < |t1| ==> Find(t1, t1[i].key) == i)
    && (forall k :: ValueOf(t1, k) == Folded(ValueOf(t0, k), log, k, merge))
  }

  lemma EvolvesKeepsIds<K(!new), V>(t0: Table<K, V>, t1: Table<K, V>, log: seq<(K, V)>, merge: (V, V) -> V, k: K)
    requires Evolves(t0, t1, log, merge)
    ensures Present(t0, k) ==> Find(t1, k) == Find(t0, k) && IdOf(t1, k) == IdOf(t0, k) && Present(t1, k)
  {
    if Present(t0, k) {
      FindIs(t1, k, Find(t0, k));
    }
  }

  lemma EvolvesTrans<K(!new), V>(t0: Table<K, V>, t1: Table<K, V>, t2: Table<K, V>,
                                 a: seq<(K, V)>, b: seq<(K, V)>, merge: (V, V) -> V)
    requires Evolves(t0, t1, a, merge) && Evolves(t1, t2, b, merge)
    ensures Evolves(t0, t2, a + b, merge)
  {
    forall i | 0 <= i < |t0| && Find(t0, t0[i].key) != i ensures t2[i] == t0[i] {
      EvolvesKeepsIds(t0, t1, a, merge, t0[i].key);
    }
    forall i | |t0| <= i < |t2| ensures Find(t2, t2[i].key) == i {
      if i < |t1| {
        EvolvesKeepsIds(t1, t2, b, merge, t1[i].key);
      }
    }
    forall k ensures ValueOf(t2, k) == Folded(ValueOf(t0, k), a + b, k, merge) {
      FoldedAppend(ValueOf(t0, k), a, b, k, merge);
    }
  }

  lemma PutEvolves<K(!new), V>(t: Table<K, V>, id: Id, k: K, v: V, merge: (V, V) -> V)
    ensures Evolves(t, Put(t, id, k, v, merge), [(k, v)], merge)
    ensures Present(Put(t, id, k, v, merge), k)
  {
    var t1 := Put(t, id, k, v, merge);
    var n := Find(t, k);
    FindIs(t1, k, n);
    forall j ensures ValueOf(t1, j) == Folded(ValueOf(t, j), [(k, v)], j, merge) {
      assert [(k, v)][1..] == [];
      if j != k {
        if Present(t, j) {
          FindIs(t1, j, Find(t, j));
        }
      }
    }
  }

  /** Replaying the log that produced a table, under a band update rule, reproduces it row for row. */
  lemma ReplayIsIdentity<K(!new), V(!new)>(t0: Table<K, V>, t1: Table<K, V>, t2: Table<K, V>,
                                           log: seq<(K, V)>, merge: (V, V) -> V)
    requires Band(merge)
    requires Evolves(t0, t1, log, merge) && Evolves(t1, t2, log, merge)
    ensures t1 == t2
  {
    if |t1| < |t2| {
      var k := t2[|t1|].key;
      assert ValueOf(t2, k).Some?;
      FoldedPresence(ValueOf(t1, k), log, k, merge);
      FoldedPresence(ValueOf(t0, k), log, k, merge);
      EvolvesKeepsIds(t1, t2, log, merge, k);
      assert false;
    }
    forall i | 0 <= i < |t1| ensures t2[i] == t1[i] {
      var k := t1[i].key;
      if Find(t1, k) == i {
        FoldedTwice(ValueOf(t0, k), log, k, merge);
        EvolvesKeepsIds(t1, t2, log, merge, k);
      }
    }
  }

  /** The update rule of a plain upsert. */
  function Replace<V>(had: V, got: V): V {
    got
  }

  /** An upsert stores the value under its key and no other. */
  lemma PutStores<K(!new), V>(t: Table<K, V>, id: Id, k: K, v: V)
    ensures var t' := Put(t, id, k, v, Replace);
      ValueOf(t', k) == Some(v) && forall j :: j != k ==> ValueOf(t', j) == ValueOf(t, j)
  {
    PutFinds(t, id, k, v, Replace, k);
    forall j | j != k ensures ValueOf(Put(t, id, k, v, Replace), j) == ValueOf(t, j) {
      PutFinds(t, id, k, v, Replace, j);
    }
  }

  /** An upsert is invisible to a selection that refuses its key. */
  lemma FilterPut<K(!new), V(!new)>(t: Table<K, V>, k: K, v: V, p: Row<K, V> -> bool)
    requires forall r: Row<K, V> :: r.key == k ==> !p(r)
    ensures Filter(Put(t, Blank, k, v, Replace), p) == Filter(t, p)
  {
    var i := Find(t, k);
    if i < |t| {
      FilterUpdate(t, i, t[i].(val := v), p);
    } else {
      FilterAppendRefused(t, Row(Blank, k, v), p);
    }
  }

  // ---------------------------------------------------------------------
  // Deleting rows
  // ---------------------------------------------------------------------

  ghost predicate DistinctKeys<K, V>(t: Table<K, V>) {
    forall i, j :: 0 <= i < j < |t| ==> t[i].key != t[j].key
  }

  function KeysApart<K(==), V>(): (Row<K, V>, Row<K, V>) -> bool { (r: Row<K, V>, q: Row<K, V>) => r.key != q.key }
  function IdsApart<K, V>(): (Row<K, V>, Row<K, V>) -> bool { (r: Row<K, V>, q: Row<K, V>) => r.id != q.id }

  lemma FindMember<K, V>(t: Table<K, V>, r: Row<K, V>)
    requires DistinctKeys(t) && r in t
    ensures Present(t, r.key) && t[Find(t, r.key)] == r
  {
    var i :| 0 <= i < |t| && t[i] == r;
    FindIs(t, r.key, i);
  }

  /** With unique keys, a deletion removes the row of `k` exactly when it is selected, and changes no other. */
  lemma FilterFinds<K(!new), V(!new)>(t: Table<K, V>, p: Row<K, V> -> bool, k: K)
    requires DistinctKeys(t)
    ensures DistinctKeys(Filter(t, p))
    ensures Present(Filter(t, p), k) <==> Present(t, k) && p(t[Find(t, k)])
    ensures Present(Filter(t, p), k) ==> Filter(t, p)[Find(Filter(t, p), k)] == t[Find(t, k)]
  {
    var kept := Filter(t, p);
    var apart := KeysApart<K, V>();
    FilterKeepsPairs(t, p, apart);
    forall i, j | 0 <= i < j < |kept| ensures kept[i].key != kept[j].key {
      assert apart(kept[i], kept[j]);
    }
    FilterMembers(t, p);
    if Present(kept, k) {
      FindMember(t, kept[Find(kept, k)]);
    }
    if Present(t, k) && p(t[Find(t, k)]) {
      FindMember(kept, t[Find(t, k)]);
    }
  }

  lemma PutKeepsDistinct<K, V>(t: Table<K, V>, id: Id, k: K, v: V, merge: (V, V) -> V)
    requires DistinctKeys(t)
    ensures DistinctKeys(Put(t, id, k, v, merge))
  {
  }
}
