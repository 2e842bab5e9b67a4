/** Key-wise diff reports: classification of keys, exactness and metric laws. */
module Diff {
  import opened Wrappers
  import opened Ordering
  import opened SortedSets

  type Data = map<string, string>

  datatype Summary = Summary(added: seq<string>, removed: seq<string>, changed: seq<string>)

  // The three classes of keys, as sets.

  function Added(a: Data, b: Data): set<string> {
    b.Keys - a.Keys
  }

  function Removed(a: Data, b: Data): set<string> {
    a.Keys - b.Keys
  }

  function Changed(a: Data, b: Data): set<string> {
    set k | k in a.Keys && k in b.Keys && a[k] != b[k]
  }

  function Unchanged(a: Data, b: Data): set<string> {
    set k | k in a.Keys && k in b.Keys && a[k] == b[k]
  }

  /** Every key that the report mentions. */
  function Reported(a: Data, b: Data): set<string> {
    Added(a, b) + Removed(a, b) + Changed(a, b)
  }

  ghost function Seen(keys: seq<string>, i: nat, kind: set<string>): set<string>
    requires i <= |keys|
  {
    set k | k in keys[..i] && k in kind
  }

  /** Visiting the next key extends the list of its class and no other. */
  lemma SeenNext(keys: seq<string>, i: nat, kind: set<string>, s: seq<string>)
    requires i < |keys| && Lists(s, Seen(keys, i, kind))
    requires forall j :: 0 <= j < i ==> keys[j] != keys[i] && StrLeq(keys[j], keys[i])
    ensures Lists(if keys[i] in kind then s + [keys[i]] else s, Seen(keys, i + 1, kind))
  {
    var k := keys[i];
    assert keys[..i + 1] == keys[..i] + [k];
    assert Seen(keys, i + 1, kind) == if k in kind then Seen(keys, i, kind) + {k} else Seen(keys, i, kind);
    forall j | 0 <= j < |s| ensures s[j] != k && StrLeq(s[j], k) {
      assert s[j] in Seen(keys, i, kind);
    }
  }

  lemma ClassifyNext(a: Data, b: Data, keys: seq<string>, i: nat, r: Summary)
    requires i < |keys| && Lists(keys, a.Keys + b.Keys) && Filed(a, b, keys, i, r)
    ensures var k := keys[i];
      Filed(a, b, keys, i + 1,
            if k !in a then r.(added := r.added + [k])
            else if k !in b then r.(removed := r.removed + [k])
            else if a[k] != b[k] then r.(changed := r.changed + [k])
            else r)
  {
    assert keys[i] in keys;
    SeenNext(keys, i, Added(a, b), r.added);
    SeenNext(keys, i, Removed(a, b), r.removed);
    SeenNext(keys, i, Changed(a, b), r.changed);
  }

  /** The first `i` keys are filed. */
  ghost predicate Filed(a: Data, b: Data, keys: seq<string>, i: nat, r: Summary)
    requires i <= |keys|
  {
    && Lists(r.added, Seen(keys, i, Added(a, b)))
    && Lists(r.removed, Seen(keys, i, Removed(a, b)))
    && Lists(r.changed, Seen(keys, i, Changed(a, b)))
  }

  /** Visits all keys in order and files each under at most one heading. */
  method Classify(a: Data, b: Data) returns (r: Summary)
    ensures Lists(r.added, Added(a, b))
    ensures Lists(r.removed, Removed(a, b))
    ensures Lists(r.changed, Changed(a, b))
  {
    var keys := SortedKeys(a.Keys + b.Keys);
    r := Summary([], [], []);
    var i := 0;
    while i < |keys|
      invariant 0 <= i <= |keys|
      invariant Filed(a, b, keys, i, r)
    {
      var k := keys[i];
      ClassifyNext(a, b, keys, i, r);
      if k !in a {
        r := r.(added := r.added + [k]);
      } else if k !in b {
        r := r.(removed := r.removed + [k]);
      } else if a[k] != b[k] {
        r := r.(changed := r.changed + [k]);
      }
      i := i + 1;
    }
    SeenAll(keys, Added(a, b));
    SeenAll(keys, Removed(a, b));
    SeenAll(keys, Changed(a, b));
  }

  lemma SeenAll(keys: seq<string>, kind: set<string>)
    requires forall k :: k in kind ==> k in keys
    ensures Seen(keys, |keys|, kind) == kind
  {
    assert keys[..|keys|] == keys;
  }

  // ---------------------------------------------------------------------
  // Laws
  // ---------------------------------------------------------------------

  /** The three classes and the unchanged keys split all keys. */
  lemma KeysArePartitioned(a: Data, b: Data)
    ensures Added(a, b) + Removed(a, b) + Changed(a, b) + Unchanged(a, b) == a.Keys + b.Keys
    ensures Added(a, b) !! Removed(a, b) !! Changed(a, b) !! Unchanged(a, b)
  {
  }

  /** The rows of the report: what was added with its value, what was removed with its value, and what
      changed with the old and the new value. */
  datatype Report = Report(added: Data, removed: Data, changed: map<string, (string, string)>)

  function ReportOf(a: Data, b: Data): Report {
    Report(map k | k in Added(a, b) :: b[k], map k | k in Removed(a, b) :: a[k], map k | k in Changed(a, b) :: (a[k], b[k]))
  }

  /** The report lists exactly what the summary lists. */
  lemma ReportCovers(a: Data, b: Data)
    ensures var r := ReportOf(a, b);
      r.added.Keys == Added(a, b) && r.removed.Keys == Removed(a, b) && r.changed.Keys == Changed(a, b)
  {
  }

  /** Applies the rows of a report: deletes, overwrites with the new values, adds. */
  function Patch(a: Data, r: Report): Data {
    (a - r.removed.Keys) + (map k | k in r.changed :: r.changed[k].1) + r.added
  }

  /** Takes the rows of a report back: deletes what was added, restores the old values. */
  function Unpatch(b: Data, r: Report): Data {
    (b - r.added.Keys) + (map k | k in r.changed :: r.changed[k].0) + r.removed
  }

  /** The rows of the report alone turn either side into the other. */
  lemma PatchIsExact(a: Data, b: Data)
    ensures Patch(a, ReportOf(a, b)) == b
    ensures Unpatch(b, ReportOf(a, b)) == a
  {
    PatchedIs(a, b);
    UnpatchedIs(a, b);
  }

  lemma PatchedIs(a: Data, b: Data)
    ensures Patch(a, ReportOf(a, b)) == b
  {
    var p := Patch(a, ReportOf(a, b));
    assert p.Keys == b.Keys;
    forall k | k in b.Keys ensures p[k] == b[k] {
    }
  }

  lemma UnpatchedIs(a: Data, b: Data)
    ensures Unpatch(b, ReportOf(a, b)) == a
  {
    var q := Unpatch(b, ReportOf(a, b));
    assert q.Keys == a.Keys;
    forall k | k in a.Keys ensures q[k] == a[k] {
    }
  }

  /** Nothing can be left out: any set of keys outside of which `a` and `b` agree contains the report. */
  lemma ReportIsMinimal(a: Data, b: Data, keys: set<string>)
    requires forall k :: k !in keys ==> (k in a <==> k in b) && (k in a && k in b ==> a[k] == b[k])
    ensures Reported(a, b) <= keys
  {
  }

  lemma SwapExchanges(a: Data, b: Data)
    ensures Added(b, a) == Removed(a, b) && Removed(b, a) == Added(a, b) && Changed(b, a) == Changed(a, b)
  {
  }

  lemma SubsetCardinality<T>(a: set<T>, b: set<T>)
    requires a <= b
    ensures |a| <= |b|
  {
    var rest := b - a;
    assert b == a + rest;
  }

  lemma UnionCardinality<T>(a: set<T>, b: set<T>)
    ensures |a + b| <= |a| + |b|
  {
    var rest := b - a;
    assert a + b == a + rest;
    SubsetCardinality(rest, b);
  }

  lemma ReportedIffDifferent(a: Data, b: Data, k: string)
    ensures k in Reported(a, b) <==> !((k in a <==> k in b) && (k in a && k in b ==> a[k] == b[k]))
  {
  }

  /** The number of reported keys is a distance: zero only for equal data, symmetric, and triangular. */
  lemma ReportIsMetric(a: Data, b: Data, c: Data)
    ensures Reported(a, b) == {} <==> a == b
    ensures |Reported(a, b)| == |Reported(b, a)|
    ensures Reported(a, c) <= Reported(a, b) + Reported(b, c)
    ensures |Reported(a, c)| <= |Reported(a, b)| + |Reported(b, c)|
  {
    EmptyReport(a, b);
    ReportIsSymmetric(a, b);
    ReportIsTriangular(a, b, c);
    SubsetCardinality(Reported(a, c), Reported(a, b) + Reported(b, c));
    UnionCardinality(Reported(a, b), Reported(b, c));
  }

  lemma ReportIsSymmetric(a: Data, b: Data)
    ensures Reported(a, b) == Reported(b, a)
  {
    SwapExchanges(a, b);
  }

  lemma ReportIsTriangular(a: Data, b: Data, c: Data)
    ensures Reported(a, c) <= Reported(a, b) + Reported(b, c)
  {
    forall k | k in Reported(a, c) ensures k in Reported(a, b) + Reported(b, c) {
      ReportedIffDifferent(a, c, k);
      ReportedIffDifferent(a, b, k);
      ReportedIffDifferent(b, c, k);
    }
  }

  lemma EmptyReport(a: Data, b: Data)
    ensures Reported(a, b) == {} <==> a == b
  {
    if Reported(a, b) == {} {
      forall k ensures (k in a <==> k in b) && (k in a && k in b ==> a[k] == b[k]) {
        ReportedIffDifferent(a, b, k);
      }
      assert a.Keys == b.Keys;
    } else {
      var k :| k in Reported(a, b);
      ReportedIffDifferent(a, b, k);
    }
  }
}
