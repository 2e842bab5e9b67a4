/** Text order and the stable sort behind the source's `sorted(...)` and `ORDER BY`. */
module Ordering {

  // ---------------------------------------------------------------------
  // Lexicographic order on text
  // ---------------------------------------------------------------------

  predicate StrLeq(a: string, b: string) {
    a == [] || (b != [] && (a[0] < b[0] || (a[0] == b[0] && StrLeq(a[1..], b[1..]))))
  }

  lemma {:induction false} StrLeqTotal(a: string, b: string)
    ensures StrLeq(a, b) || StrLeq(b, a)
  {
    if a != [] && b != [] && a[0] == b[0] {
      StrLeqTotal(a[1..], b[1..]);
    }
  }

  lemma {:induction false} StrLeqTransitive(a: string, b: string, c: string)
    requires StrLeq(a, b) && StrLeq(b, c)
    ensures StrLeq(a, c)
  {
    if a != [] && a[0] == b[0] && b[0] == c[0] {
      StrLeqTransitive(a[1..], b[1..], c[1..]);
    }
  }

  lemma {:induction false} StrLeqAntisymmetric(a: string, b: string)
    requires StrLeq(a, b) && StrLeq(b, a)
    ensures a == b
  {
    if a != [] {
      StrLeqAntisymmetric(a[1..], b[1..]);
      assert a == [a[0]] + a[1..] && b == [b[0]] + b[1..];
    }
  }

  lemma {:induction false} StrLeqReflexive(a: string)
    ensures StrLeq(a, a)
  {
    StrLeqTotal(a, a);
  }

  // ---------------------------------------------------------------------
  // Stable insertion sort by any total preorder
  // ---------------------------------------------------------------------

  ghost predicate TotalPreorder<T(!new)>(leq: (T, T) -> bool) {
    && (forall x, y :: leq(x, y) || leq(y, x))
    && (forall x, y, z :: leq(x, y) && leq(y, z) ==> leq(x, z))
  }

  ghost predicate Sorted<T(!new)>(s: seq<T>, leq: (T, T) -> bool) {
    forall i, j :: 0 <= i < j < |s| ==> leq(s[i], s[j])
  }

  /** No two positions of `s` are tied under `leq`. */
  ghost predicate TieFree<T(!new)>(s: seq<T>, leq: (T, T) -> bool) {
    forall i, j :: 0 <= i < j < |s| ==> !(leq(s[i], s[j]) && leq(s[j], s[i]))
  }

  /** Elements of `s` tie only with themselves. */
  ghost predicate TiesAreEqual<T(!new)>(s: seq<T>, leq: (T, T) -> bool) {
    forall x, y :: x in s && y in s && leq(x, y) && leq(y, x) ==> x == y
  }

  function Insert<T>(x: T, s: seq<T>, leq: (T, T) -> bool): seq<T> {
    if s == [] then [x]
    else if leq(x, s[0]) then [x] + s
    else [s[0]] + Insert(x, s[1..], leq)
  }

  function SortBy<T>(s: seq<T>, leq: (T, T) -> bool): seq<T> {
    if s == [] then [] else Insert(s[0], SortBy(s[1..], leq), leq)
  }

  lemma {:induction false} InsertPermutes<T>(x: T, s: seq<T>, leq: (T, T) -> bool)
    ensures multiset(Insert(x, s, leq)) == multiset{x} + multiset(s)
    ensures |Insert(x, s, leq)| == |s| + 1
  {
    if s != [] {
      assert s == [s[0]] + s[1..];
      InsertPermutes(x, s[1..], leq);
    }
  }

  lemma {:induction false} SortPermutes<T>(s: seq<T>, leq: (T, T) -> bool)
    ensures multiset(SortBy(s, leq)) == multiset(s)
    ensures |SortBy(s, leq)| == |s|
  {
    if s != [] {
      assert s == [s[0]] + s[1..];
      SortPermutes(s[1..], leq);
      InsertPermutes(s[0], SortBy(s[1..], leq), leq);
    }
  }

  lemma MemberOfPermutation<T>(s: seq<T>, t: seq<T>, x: T)
    requires multiset(s) == multiset(t)
    ensures x in s <==> x in t
  {
    assert x in s <==> x in multiset(s);
    assert x in t <==> x in multiset(t);
  }

  lemma {:induction false} InsertSorts<T(!new)>(x: T, s: seq<T>, leq: (T, T) -> bool)
    requires TotalPreorder(leq) && Sorted(s, leq)
    ensures Sorted(Insert(x, s, leq), leq)
  {
    if s != [] && !leq(x, s[0]) {
      var rest := Insert(x, s[1..], leq);
      InsertSorts(x, s[1..], leq);
      forall j | 0 <= j < |rest| ensures leq(s[0], rest[j]) {
        InsertPermutes(x, s[1..], leq);
        assert rest[j] in multiset(rest);
        assert rest[j] == x || rest[j] in s[1..];
      }
    }
  }

  lemma {:induction false} SortSorts<T(!new)>(s: seq<T>, leq: (T, T) -> bool)
    requires TotalPreorder(leq)
    ensures Sorted(SortBy(s, leq), leq)
  {
    if s != [] {
      SortSorts(s[1..], leq);
      InsertSorts(s[0], SortBy(s[1..], leq), leq);
    }
  }

  lemma {:induction false} SortOfSorted<T(!new)>(s: seq<T>, leq: (T, T) -> bool)
    requires Sorted(s, leq)
    ensures SortBy(s, leq) == s
  {
    if s != [] {
      SortOfSorted(s[1..], leq);
      assert s == [s[0]] + s[1..];
      if |s| > 1 {
        assert leq(s[0], s[1]);
      }
    }
  }

  lemma TailPermutation<T>(s: seq<T>, t: seq<T>)
    requires s != [] && t != [] && s[0] == t[0]
    requires multiset(s) == multiset(t)
    ensures multiset(s[1..]) == multiset(t[1..])
  {
    assert s == [s[0]] + s[1..] && t == [t[0]] + t[1..];
    assert multiset(s[1..]) == multiset(s) - multiset{s[0]};
    assert multiset(t[1..]) == multiset(t) - multiset{t[0]};
  }

  lemma SortedHeadsAgree<T(!new)>(s: seq<T>, t: seq<T>, leq: (T, T) -> bool)
    requires s != [] && t != []
    requires TotalPreorder(leq) && Sorted(s, leq) && Sorted(t, leq) && TiesAreEqual(s, leq)
    requires multiset(s) == multiset(t)
    ensures s[0] == t[0]
  {
    MemberOfPermutation(s, t, s[0]);
    MemberOfPermutation(s, t, t[0]);
    var i :| 0 <= i < |s| && s[i] == t[0];
    var j :| 0 <= j < |t| && t[j] == s[0];
    assert leq(s[0], s[0]) && leq(t[0], t[0]);
  }

  /** Two sorted arrangements of the same elements are the same sequence when only equal elements tie. */
  lemma {:induction false} SortedUnique<T(!new)>(s: seq<T>, t: seq<T>, leq: (T, T) -> bool)
    requires TotalPreorder(leq) && Sorted(s, leq) && Sorted(t, leq) && TiesAreEqual(s, leq)
    requires multiset(s) == multiset(t)
    ensures s == t
  {
    assert |s| == |multiset(s)| && |t| == |multiset(t)|;
    if s != [] {
      assert t != [];
      SortedHeadsAgree(s, t, leq);
      TailPermutation(s, t);
      SortedUnique(s[1..], t[1..], leq);
    }
  }

  /** The order in which rows arrive does not matter when only equal rows tie. */
  lemma SortIgnoresArrivalOrder<T(!new)>(s: seq<T>, t: seq<T>, leq: (T, T) -> bool)
    requires TotalPreorder(leq) && TiesAreEqual(s, leq)
    requires multiset(s) == multiset(t)
    ensures SortBy(s, leq) == SortBy(t, leq)
  {
    SortPermutes(s, leq);
    SortPermutes(t, leq);
    SortSorts(s, leq);
    SortSorts(t, leq);
    forall x ensures x in SortBy(s, leq) <==> x in s {
      MemberOfPermutation(SortBy(s, leq), s, x);
    }
    SortedUnique(SortBy(s, leq), SortBy(t, leq), leq);
  }

  lemma {:induction false} TieFreePermutation<T(!new)>(s: seq<T>, t: seq<T>, leq: (T, T) -> bool)
    requires TotalPreorder(leq) && TieFree(s, leq) && multiset(s) == multiset(t)
    ensures TieFree(t, leq)
  {
    forall i, j | 0 <= i < j < |t| ensures !(leq(t[i], t[j]) && leq(t[j], t[i])) {
      MemberOfPermutation(s, t, t[i]);
      MemberOfPermutation(s, t, t[j]);
      var a :| 0 <= a < |s| && s[a] == t[i];
      var b :| 0 <= b < |s| && s[b] == t[j];
      if a == b {
        // the element would occur twice in t, hence twice in s, tying with itself
        TwiceInSeq(t, i, j);
        OnceInTieFree(s, a, leq);
      }
    }
  }

  lemma TwiceInSeq<T>(t: seq<T>, i: nat, j: nat)
    requires i < j < |t| && t[i] == t[j]
    ensures multiset(t)[t[i]] >= 2
  {
    assert t == t[..j] + [t[j]] + t[j + 1..];
    assert t[..j][i] == t[i];
    assert t[i] in multiset(t[..j]);
  }

  lemma OnceInTieFree<T(!new)>(s: seq<T>, a: nat, leq: (T, T) -> bool)
    requires TotalPreorder(leq) && TieFree(s, leq) && a < |s|
    ensures multiset(s)[s[a]] == 1
  {
    assert s == s[..a] + [s[a]] + s[a + 1..];
    assert leq(s[a], s[a]);
    assert s[a] !in s[..a];
    assert s[a] !in s[a + 1..];
    assert s[a] !in multiset(s[..a]) && s[a] !in multiset(s[a + 1..]);
  }

  function Map<T, U>(f: T -> U, s: seq<T>): seq<U> {
    seq(|s|, i requires 0 <= i < |s| => f(s[i]))
  }

  /** What `f` gives for each element, one after the other. */
  function Concat<T, U>(f: T -> seq<U>, s: seq<T>): seq<U> {
    if s == [] then [] else Concat(f, s[..|s| - 1]) + f(s[|s| - 1])
  }

  lemma ConcatOne<T, U>(f: T -> seq<U>, x: T)
    ensures Concat(f, [x]) == f(x)
  {
    assert [x][..0] == [] && Concat(f, []) + f(x) == f(x);
  }

  lemma {:induction false} ConcatAppend<T, U>(f: T -> seq<U>, a: seq<T>, b: seq<T>)
    ensures Concat(f, a + b) == Concat(f, a) + Concat(f, b)
    decreases |b|
  {
    if b == [] {
      assert a + b == a && Concat(f, a) + [] == Concat(f, a);
    } else {
      var n := |b| - 1;
      assert (a + b)[..|a| + n] == a + b[..n];
      ConcatAppend(f, a, b[..n]);
    }
  }

  lemma {:induction false} InsertMap<T(!new), U>(f: T -> U, x: T, s: seq<T>, leqT: (T, T) -> bool, leqU: (U, U) -> bool)
    requires forall y :: y in s ==> (leqU(f(x), f(y)) <==> leqT(x, y))
    ensures Insert(f(x), Map(f, s), leqU) == Map(f, Insert(x, s, leqT))
  {
    if s != [] {
      assert s[0] in s;
      assert Map(f, s)[1..] == Map(f, s[1..]);
      if !leqT(x, s[0]) {
        InsertMap(f, x, s[1..], leqT, leqU);
      }
    }
  }

  /** Sorting commutes with any relabelling that keeps the order of keys. */
  lemma {:induction false} SortMap<T(!new), U>(f: T -> U, s: seq<T>, leqT: (T, T) -> bool, leqU: (U, U) -> bool)
    requires forall x, y :: x in s && y in s ==> (leqU(f(x), f(y)) <==> leqT(x, y))
    ensures SortBy(Map(f, s), leqU) == Map(f, SortBy(s, leqT))
  {
    if s != [] {
      assert Map(f, s)[1..] == Map(f, s[1..]);
      SortMap(f, s[1..], leqT, leqU);
      SortPermutes(s[1..], leqT);
      forall y | y in SortBy(s[1..], leqT) ensures y in s {
        MemberOfPermutation(SortBy(s[1..], leqT), s[1..], y);
      }
      assert s[0] in s;
      InsertMap(f, s[0], SortBy(s[1..], leqT), leqT, leqU);
    }
  }

  function Filter<T>(s: seq<T>, p: T -> bool): seq<T> {
    if s == [] then [] else if p(s[0]) then [s[0]] + Filter(s[1..], p) else Filter(s[1..], p)
  }

  lemma {:induction false} FilterMembers<T(!new)>(s: seq<T>, p: T -> bool)
    ensures forall x :: x in Filter(s, p) <==> x in s && p(x)
  {
    if s != [] {
      FilterMembers(s[1..], p);
      assert forall x :: x in s <==> x == s[0] || x in s[1..];
    }
  }

  lemma {:induction false} FilterPermutes<T(!new)>(s: seq<T>, p: T -> bool, x: T)
    ensures multiset(Filter(s, p))[x] == if p(x) then multiset(s)[x] else 0
  {
    if s != [] {
      FilterPermutes(s[1..], p, x);
      assert s == [s[0]] + s[1..];
    }
  }

  lemma FilterCons<T>(x: T, s: seq<T>, p: T -> bool)
    ensures Filter([x] + s, p) == if p(x) then [x] + Filter(s, p) else Filter(s, p)
  {
    assert ([x] + s)[1..] == s;
  }

  lemma BelowAll<T(!new)>(x: T, s: seq<T>, leq: (T, T) -> bool)
    requires TotalPreorder(leq) && Sorted(s, leq) && s != [] && leq(x, s[0])
    ensures forall y :: y in s ==> leq(x, y)
  {
    forall y | y in s ensures leq(x, y) {
      var i :| 0 <= i < |s| && s[i] == y;
      assert i == 0 || leq(s[0], s[i]);
    }
  }

  lemma {:induction false} InsertFilter<T(!new)>(x: T, s: seq<T>, leq: (T, T) -> bool, p: T -> bool)
    requires TotalPreorder(leq) && Sorted(s, leq)
    ensures Filter(Insert(x, s, leq), p) == if p(x) then Insert(x, Filter(s, p), leq) else Filter(s, p)
  {
    if s == [] {
      FilterCons(x, [], p);
    } else if leq(x, s[0]) {
      BelowAll(x, s, leq);
      FilterMembers(s, p);
      FilterCons(x, s, p);
    } else {
      InsertFilter(x, s[1..], leq, p);
      FilterCons(s[0], Insert(x, s[1..], leq), p);
    }
  }

  /** A stable sort and a selection commute. */
  lemma {:induction false} SortFilter<T(!new)>(s: seq<T>, leq: (T, T) -> bool, p: T -> bool)
    requires TotalPreorder(leq)
    ensures Filter(SortBy(s, leq), p) == SortBy(Filter(s, p), leq)
  {
    if s != [] {
      SortFilter(s[1..], leq, p);
      SortSorts(s[1..], leq);
      InsertFilter(s[0], SortBy(s[1..], leq), leq, p);
      var rest := Filter(s[1..], p);
      if p(s[0]) {
        assert Filter(s, p) == [s[0]] + rest;
        assert ([s[0]] + rest)[1..] == rest;
      }
    }
  }

  lemma {:induction false} FilterUpdate<T>(s: seq<T>, i: nat, x: T, p: T -> bool)
    requires i < |s| && !p(s[i]) && !p(x)
    ensures Filter(s[i := x], p) == Filter(s, p)
    decreases s
  {
    if i > 0 {
      FilterUpdate(s[1..], i - 1, x, p);
      assert s[i := x][1..] == s[1..][i - 1 := x];
    } else {
      assert s[i := x][1..] == s[1..];
    }
  }

  lemma {:induction false} FilterAppendRefused<T>(s: seq<T>, x: T, p: T -> bool)
    requires !p(x)
    ensures Filter(s + [x], p) == Filter(s, p)
  {
    if s == [] {
      assert s + [x] == [x] && [x][1..] == [];
    } else {
      assert (s + [x])[0] == s[0] && (s + [x])[1..] == s[1..] + [x];
      FilterAppendRefused(s[1..], x, p);
    }
  }

  lemma {:induction false} FilterSnoc<T>(s: seq<T>, x: T, p: T -> bool)
    ensures Filter(s + [x], p) == if p(x) then Filter(s, p) + [x] else Filter(s, p)
  {
    if s == [] {
      assert s + [x] == [x] && [x][1..] == [];
    } else {
      assert (s + [x])[0] == s[0] && (s + [x])[1..] == s[1..] + [x];
      FilterSnoc(s[1..], x, p);
    }
  }

  lemma {:induction false} FilterAppend<T>(s: seq<T>, t: seq<T>, p: T -> bool)
    ensures Filter(s + t, p) == Filter(s, p) + Filter(t, p)
  {
    if s == [] {
      assert s + t == t;
    } else {
      assert (s + t)[0] == s[0] && (s + t)[1..] == s[1..] + t;
      FilterAppend(s[1..], t, p);
    }
  }

  lemma {:induction false} FilterAll<T>(s: seq<T>, p: T -> bool)
    requires forall x :: x in s ==> p(x)
    ensures Filter(s, p) == s
  {
    if s != [] {
      assert s[0] in s;
      FilterAll(s[1..], p);
    }
  }

  lemma {:induction false} FilterNone<T>(s: seq<T>, p: T -> bool)
    requires forall x :: x in s ==> !p(x)
    ensures Filter(s, p) == []
  {
    if s != [] {
      assert s[0] in s;
      FilterNone(s[1..], p);
    }
  }

  /** A selection from a wider one. */
  lemma {:induction false} FilterWithin<T>(s: seq<T>, wide: T -> bool, p: T -> bool)
    requires forall x :: x in s && p(x) ==> wide(x)
    ensures Filter(Filter(s, wide), p) == Filter(s, p)
  {
    if s != [] {
      FilterWithin(s[1..], wide, p);
      assert s[0] in s;
      if wide(s[0]) {
        FilterCons(s[0], Filter(s[1..], wide), p);
      }
    }
  }

  /** Selecting from a prefix that grows by one element. */
  lemma FilterNext<T>(s: seq<T>, i: nat, p: T -> bool)
    requires i < |s|
    ensures Filter(s[..i + 1], p) == if p(s[i]) then Filter(s[..i], p) + [s[i]] else Filter(s[..i], p)
  {
    assert s[..i + 1] == s[..i] + [s[i]];
    FilterSnoc(s[..i], s[i], p);
  }

  ghost predicate Pairwise<T>(s: seq<T>, apart: (T, T) -> bool) {
    forall i, j :: 0 <= i < j < |s| ==> apart(s[i], s[j])
  }

  /** What holds between any two positions of `s` holds between any two of a selection from it. */
  lemma {:induction false} FilterKeepsPairs<T(!new)>(s: seq<T>, p: T -> bool, apart: (T, T) -> bool)
    requires Pairwise(s, apart)
    ensures Pairwise(Filter(s, p), apart)
  {
    if s != [] {
      FilterKeepsPairs(s[1..], p, apart);
      var rest := Filter(s[1..], p);
      FilterMembers(s[1..], p);
      forall j | 0 <= j < |rest| ensures apart(s[0], rest[j]) {
        assert rest[j] in s[1..];
        var k :| 0 <= k < |s[1..]| && s[1..][k] == rest[j];
        assert apart(s[0], s[k + 1]);
      }
      var f := Filter(s, p);
      forall i, j | 0 <= i < j < |f| ensures apart(f[i], f[j]) {
        if p(s[0]) {
          assert f[j] == rest[j - 1] && (i == 0 || f[i] == rest[i - 1]);
        }
      }
    }
  }

  /** A sorted selection has the selected members, in order. */
  lemma SortedSelection<T(!new)>(s: seq<T>, p: T -> bool, leq: (T, T) -> bool)
    requires TotalPreorder(leq)
    ensures var kept := SortBy(Filter(s, p), leq);
      (forall x :: x in kept <==> x in s && p(x)) && forall i, j :: 0 <= i < j < |kept| ==> leq(kept[i], kept[j])
  {
    var kept := SortBy(Filter(s, p), leq);
    FilterMembers(s, p);
    SortPermutes(Filter(s, p), leq);
    SortSorts(Filter(s, p), leq);
    forall x ensures x in kept <==> x in Filter(s, p) {
      MemberOfPermutation(kept, Filter(s, p), x);
    }
  }
}
