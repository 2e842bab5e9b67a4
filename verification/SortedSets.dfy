/** `sorted(set(...))` over names. */
module SortedSets {
  import opened Ordering

  /** `s` lists the elements of `keys`, each once, in strict order. */
  ghost predicate Lists(s: seq<string>, keys: set<string>) {
    && (forall k :: k in s <==> k in keys)
    && (forall i, j :: 0 <= i < j < |s| ==> s[i] != s[j] && StrLeq(s[i], s[j]))
  }

  /** The smallest remaining key, so that a set can be visited in order. */
  method Smallest(keys: set<string>) returns (k: string)
    requires keys != {}
    ensures k in keys && forall j :: j in keys ==> StrLeq(k, j)
  {
    k :| k in keys;
    StrLeqReflexive(k);
    var rest := keys - {k};
    while rest != {}
      invariant rest <= keys && k in keys
      invariant forall j :: j in keys && j !in rest ==> StrLeq(k, j)
    {
      var j :| j in rest;
      if !StrLeq(k, j) {
        StrLeqTotal(k, j);
        forall x | x in keys && x !in rest ensures StrLeq(j, x) {
          StrLeqTransitive(j, k, x);
        }
        k := j;
      }
      StrLeqReflexive(j);
      rest := rest - {j};
    }
  }

  /** `sorted(set(...))` */
  method SortedKeys(keys: set<string>) returns (s: seq<string>)
    ensures Lists(s, keys)
  {
    s := [];
    var rest := keys;
    while rest != {}
      invariant rest <= keys
      invariant Lists(s, keys - rest)
      invariant forall k, j :: k in s && j in rest ==> StrLeq(k, j)
    {
      var k := Smallest(rest);
      s := s + [k];
      rest := rest - {k};
    }
  }
}
