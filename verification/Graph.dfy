/** Dependency graphs: full, rooted, reverse, and the layer chain. */
module Graph {
  import opened Wrappers
  import opened Ordering
  import opened SortedSets

  type Id = nat

  /** One dependency row: a package version needs `depName`. */
  datatype Dependency = Dependency(version: Id, depName: string, depType: string)

  datatype Db = Db(packages: map<Id, string>, versions: map<Id, Id>, deps: seq<Dependency>)

  datatype Edge = Edge(src: string, dst: string, kind: string)

  /** The edge of a row; rows whose version or package is gone have none. */
  function EdgeOf(db: Db, d: Dependency): Option<Edge> {
    if d.version in db.versions && db.versions[d.version] in db.packages
    then Some(Edge(db.packages[db.versions[d.version]], d.depName, d.depType))
    else None
  }

  /** All edges, in row order. */
  function AllEdges(db: Db, deps: seq<Dependency>): seq<Edge> {
    if deps == [] then []
    else
      var rest := AllEdges(db, deps[..|deps| - 1]);
      var e := EdgeOf(db, deps[|deps| - 1]);
      if e.Some? then rest + [e.value] else rest
  }

  function Touches(n: string): Edge -> bool { (e: Edge) => e.src == n || e.dst == n }
  function Into(n: string): Edge -> bool { (e: Edge) => e.dst == n }
  function NeedsName(n: string): Dependency -> bool { (d: Dependency) => d.depName == n }

  function Endpoints(edges: seq<Edge>): set<string> {
    (set e | e in edges :: e.src) + (set e | e in edges :: e.dst)
  }

  /** The edges shown for a root, or all of them. */
  function Shown(db: Db, root: Option<string>): seq<Edge> {
    if root.Some? then Filter(AllEdges(db, db.deps), Touches(root.value)) else AllEdges(db, db.deps)
  }

  lemma EndpointsSnoc(edges: seq<Edge>, e: Edge)
    ensures Endpoints(edges + [e]) == Endpoints(edges) + {e.src, e.dst}
  {
    assert forall x :: x in edges + [e] <==> x in edges || x == e;
    assert e in edges + [e];
  }

  /** The root and the endpoints of the shown edges. */
  method Reachable(root: string, edges: seq<Edge>) returns (reachable: set<string>)
    ensures reachable == {root} + Endpoints(edges)
  {
    reachable := {root};
    var i := 0;
    while i < |edges|
      invariant 0 <= i <= |edges|
      invariant reachable == {root} + Endpoints(edges[..i])
    {
      assert edges[..i + 1] == edges[..i] + [edges[i]];
      EndpointsSnoc(edges[..i], edges[i]);
      reachable := reachable + {edges[i].src} + {edges[i].dst};
      i := i + 1;
    }
    assert edges[..|edges|] == edges;
  }

  method PackageGraph(db: Db, root: Option<string>) returns (nodes: seq<string>, edges: seq<Edge>)
    ensures edges == Shown(db, root)
    ensures root.Some? ==> Lists(nodes, {root.value} + Endpoints(edges))
    ensures root.None? ==> Lists(nodes, db.packages.Values + Endpoints(edges))
  {
    var nodesSet := db.packages.Values;
    edges := [];
    ghost var all: seq<Edge> := [];
    var i := 0;
    while i < |db.deps|
      invariant 0 <= i <= |db.deps|
      invariant all == AllEdges(db, db.deps[..i])
      invariant nodesSet == db.packages.Values + Endpoints(all)
      invariant edges == if root.Some? then Filter(all, Touches(root.value)) else all
    {
      var dep := db.deps[i];
      AllEdgesNext(db, db.deps, i);
      i := i + 1;
      if dep.version !in db.versions {
        continue;
      }
      var pkg := db.versions[dep.version];
      if pkg !in db.packages {
        continue;
      }
      var e := Edge(db.packages[pkg], dep.depName, dep.depType);
      nodesSet := nodesSet + {e.src} + {e.dst};
      EndpointsSnoc(all, e);
      if root.Some? {
        FilterSnoc(all, e, Touches(root.value));
      }
      if root.None? || e.src == root.value || e.dst == root.value {
        edges := edges + [e];
      }
      all := all + [e];
    }
    assert db.deps[..|db.deps|] == db.deps;
    if root.Some? {
      var reachable := Reachable(root.value, edges);
      nodes := SortedKeys(reachable);
    } else {
      nodes := SortedKeys(nodesSet);
    }
  }

  /** Selects the rows that name the node first, then resolves them. */
  method PackageReverse(db: Db, node: string) returns (nodes: seq<string>, edges: seq<Edge>)
    ensures edges == Filter(AllEdges(db, db.deps), Into(node))
    ensures Lists(nodes, {node} + Endpoints(edges))
  {
    var deps := Filter(db.deps, NeedsName(node));
    FilterMembers(db.deps, NeedsName(node));
    var nodesSet := {node};
    edges := [];
    var i := 0;
    while i < |deps|
      invariant 0 <= i <= |deps|
      invariant edges == AllEdges(db, deps[..i])
      invariant nodesSet == {node} + Endpoints(edges)
    {
      var dep := deps[i];
      assert dep in deps && dep.depName == node;
      AllEdgesNext(db, deps, i);
      i := i + 1;
      if dep.version !in db.versions {
        continue;
      }
      var pkg := db.versions[dep.version];
      if pkg !in db.packages {
        continue;
      }
      var e := Edge(db.packages[pkg], node, dep.depType);
      IntoSnoc(edges, e, node);
      nodesSet := nodesSet + {e.src};
      edges := edges + [e];
    }
    assert deps[..|deps|] == deps;
    SelectThenResolve(db, db.deps, node);
    nodes := SortedKeys(nodesSet);
  }

  lemma AllEdgesNext(db: Db, deps: seq<Dependency>, i: nat)
    requires i < |deps|
    ensures var e := EdgeOf(db, deps[i]);
      AllEdges(db, deps[..i + 1]) == if e.Some? then AllEdges(db, deps[..i]) + [e.value] else AllEdges(db, deps[..i])
  {
    assert deps[..i + 1][..i] == deps[..i];
  }

  lemma IntoSnoc(edges: seq<Edge>, e: Edge, node: string)
    requires e.dst == node
    ensures {node} + Endpoints(edges + [e]) == {node} + Endpoints(edges) + {e.src}
  {
    EndpointsSnoc(edges, e);
  }

  /** Selecting rows by name and resolving them gives the full graph's edges into the node, in the same order. */
  lemma {:induction false} SelectThenResolve(db: Db, deps: seq<Dependency>, node: string)
    ensures AllEdges(db, Filter(deps, NeedsName(node))) == Filter(AllEdges(db, deps), Into(node))
    decreases deps
  {
    if deps != [] {
      var init, d := deps[..|deps| - 1], deps[|deps| - 1];
      SelectThenResolve(db, init, node);
      assert deps == init + [d];
      FilterSnoc(init, d, NeedsName(node));
      var kept := Filter(init, NeedsName(node));
      assert (kept + [d])[..|kept|] == kept;
      if EdgeOf(db, d).Some? {
        FilterSnoc(AllEdges(db, init), EdgeOf(db, d).value, Into(node));
      }
    }
  }

  // ---------------------------------------------------------------------
  // Rooted and reverse graphs against the full graph
  // ---------------------------------------------------------------------

  /** An edge is shown for exactly its two endpoints, with its full multiplicity. */
  lemma ShownAtEndpoints(db: Db, e: Edge, n: string)
    ensures multiset(Shown(db, Some(n)))[e] == if n == e.src || n == e.dst then multiset(AllEdges(db, db.deps))[e] else 0
  {
    FilterPermutes(AllEdges(db, db.deps), Touches(n), e);
  }

  /** The reverse graph of a node is the part of its rooted graph that points at it. */
  lemma ReverseInsideRooted(db: Db, n: string)
    ensures Filter(AllEdges(db, db.deps), Into(n)) == Filter(Shown(db, Some(n)), Into(n))
  {
    FilterTwice(AllEdges(db, db.deps), Touches(n), Into(n));
  }

  lemma {:induction false} FilterTwice<T(!new)>(s: seq<T>, p: T -> bool, q: T -> bool)
    requires forall x :: q(x) ==> p(x)
    ensures Filter(Filter(s, p), q) == Filter(s, q)
  {
    if s != [] {
      FilterTwice(s[1..], p, q);
      if p(s[0]) {
        FilterCons(s[0], Filter(s[1..], p), q);
      }
    }
  }

  function SelfLoop(): Edge -> bool { (e: Edge) => e.src == e.dst }

  /** Total number of edges over the rooted graphs of all `nodes`. */
  function RootedTotal(edges: seq<Edge>, nodes: seq<string>): nat {
    if nodes == [] then 0 else |Filter(edges, Touches(nodes[0]))| + RootedTotal(edges, nodes[1..])
  }

  /** How many entries of `nodes` an edge touches. */
  function TouchCount(e: Edge, nodes: seq<string>): nat {
    if nodes == [] then 0 else (if nodes[0] == e.src || nodes[0] == e.dst then 1 else 0) + TouchCount(e, nodes[1..])
  }

  lemma {:induction false} RootedTotalCons(e: Edge, edges: seq<Edge>, nodes: seq<string>)
    ensures RootedTotal([e] + edges, nodes) == TouchCount(e, nodes) + RootedTotal(edges, nodes)
  {
    if nodes != [] {
      FilterCons(e, edges, Touches(nodes[0]));
      RootedTotalCons(e, edges, nodes[1..]);
    }
  }

  lemma {:induction false} RootedTotalOfNothing(nodes: seq<string>)
    ensures RootedTotal([], nodes) == 0
  {
    if nodes != [] {
      RootedTotalOfNothing(nodes[1..]);
    }
  }

  ghost predicate Distinct(nodes: seq<string>) {
    forall i, j :: 0 <= i < j < |nodes| ==> nodes[i] != nodes[j]
  }

  lemma {:induction false} TouchCountIs(e: Edge, nodes: seq<string>)
    requires Distinct(nodes)
    ensures TouchCount(e, nodes)
         == (if e.src in nodes then 1 else 0) + (if e.dst in nodes && e.dst != e.src then 1 else 0)
  {
    if nodes != [] {
      TouchCountIs(e, nodes[1..]);
      assert nodes == [nodes[0]] + nodes[1..];
      assert nodes[0] !in nodes[1..];
    }
  }

  /** Handshake: over the rooted graphs of all nodes every edge is counted twice, a self-dependency once. */
  lemma {:induction false} Handshake(edges: seq<Edge>, nodes: seq<string>)
    requires Distinct(nodes) && forall e :: e in edges ==> e.src in nodes && e.dst in nodes
    ensures RootedTotal(edges, nodes) + |Filter(edges, SelfLoop())| == 2 * |edges|
  {
    if edges == [] {
      RootedTotalOfNothing(nodes);
    } else {
      assert edges == [edges[0]] + edges[1..];
      assert edges[0] in edges;
      Handshake(edges[1..], nodes);
      RootedTotalCons(edges[0], edges[1..], nodes);
      TouchCountIs(edges[0], nodes);
    }
  }

  /** The nodes listed with the full graph are enough for the handshake. */
  lemma FullGraphHandshake(db: Db, nodes: seq<string>)
    requires Lists(nodes, db.packages.Values + Endpoints(Shown(db, None)))
    ensures RootedTotal(Shown(db, None), nodes) + |Filter(Shown(db, None), SelfLoop())| == 2 * |Shown(db, None)|
  {
    var edges := Shown(db, None);
    forall e | e in edges ensures e.src in nodes && e.dst in nodes {
      assert e.src in Endpoints(edges) && e.dst in Endpoints(edges);
    }
    Handshake(edges, nodes);
  }

  // ---------------------------------------------------------------------
  // The layer chain
  // ---------------------------------------------------------------------

  datatype Layer = Layer(name: string, kind: string, priority: int, enabled: bool)

  predicate LayerOrder(a: Layer, b: Layer) {
    if a.priority == b.priority then StrLeq(a.name, b.name) else a.priority < b.priority
  }

  function IsEnabled(): Layer -> bool { (l: Layer) => l.enabled }

  function NodeId(l: Layer): string {
    l.kind + ":" + l.name
  }

  /** The listed entries: the enabled ones in (priority, name) order. */
  function LayerNodes(entries: seq<Layer>): seq<Layer> {
    SortBy(Filter(entries, IsEnabled()), LayerOrder)
  }

  /** One edge between neighbours. */
  function Chain(nodes: seq<Layer>): seq<Edge> {
    if |nodes| < 2 then []
    else seq(|nodes| - 1, i requires 0 <= i < |nodes| - 1 => Edge(NodeId(nodes[i]), NodeId(nodes[i + 1]), "priority-order"))
  }

  lemma LayerOrderIsTotal()
    ensures TotalPreorder(LayerOrder)
  {
    forall x: Layer, y: Layer ensures LayerOrder(x, y) || LayerOrder(y, x) {
      StrLeqTotal(x.name, y.name);
    }
    forall x: Layer, y: Layer, z: Layer | LayerOrder(x, y) && LayerOrder(y, z) ensures LayerOrder(x, z) {
      if x.priority == y.priority == z.priority {
        StrLeqTransitive(x.name, y.name, z.name);
      }
    }
  }

  /** Chains the enabled entries in (priority, name) order: one node per entry, one edge between neighbours. */
  method LayerGraph(entries: seq<Layer>) returns (nodes: seq<Layer>, edges: seq<Edge>)
    ensures nodes == LayerNodes(entries) && edges == Chain(nodes)
    ensures forall i, j :: 0 <= i < j < |nodes| ==> nodes[i].priority <= nodes[j].priority
  {
    var sorted := SortBy(entries, LayerOrder);
    nodes, edges := [], [];
    var prev: Option<string> := None;
    var i := 0;
    while i < |sorted|
      invariant 0 <= i <= |sorted|
      invariant nodes == Filter(sorted[..i], IsEnabled()) && edges == Chain(nodes)
      invariant prev == if nodes == [] then None else Some(NodeId(nodes[|nodes| - 1]))
    {
      var e := sorted[i];
      FilterSnoc(sorted[..i], e, IsEnabled());
      assert sorted[..i + 1] == sorted[..i] + [e];
      i := i + 1;
      if !e.enabled {
        continue;
      }
      ChainSnoc(nodes, e);
      nodes := nodes + [e];
      if prev.Some? {
        edges := edges + [Edge(prev.value, NodeId(e), "priority-order")];
      }
      prev := Some(NodeId(e));
    }
    assert sorted[..|sorted|] == sorted;
    SortedThenFiltered(entries);
  }

  lemma ChainSnoc(nodes: seq<Layer>, e: Layer)
    ensures Chain(nodes + [e]) == Chain(nodes)
      + (if nodes == [] then [] else [Edge(NodeId(nodes[|nodes| - 1]), NodeId(e), "priority-order")])
  {
  }

  lemma SortedThenFiltered(entries: seq<Layer>)
    ensures Filter(SortBy(entries, LayerOrder), IsEnabled()) == LayerNodes(entries)
    ensures forall i, j :: 0 <= i < j < |LayerNodes(entries)| ==>
      LayerNodes(entries)[i].priority <= LayerNodes(entries)[j].priority
  {
    LayerOrderIsTotal();
    SortFilter(entries, LayerOrder, IsEnabled());
    SortSorts(Filter(entries, IsEnabled()), LayerOrder);
  }

  ghost predicate DistinctNodeIds(ls: seq<Layer>) {
    forall i, j :: 0 <= i < j < |ls| ==> NodeId(ls[i]) != NodeId(ls[j])
  }

  /** Each edge starts where the one before it ends, no two start at the same node, and the last one ends
      at a node where none starts. */
  ghost predicate SimplePath(edges: seq<Edge>) {
    && (forall i :: 0 < i < |edges| ==> edges[i].src == edges[i - 1].dst)
    && (forall i, j :: 0 <= i < j < |edges| ==> edges[i].src != edges[j].src)
    && (forall i :: 0 <= i < |edges| ==> edges[i].src != edges[|edges| - 1].dst)
  }

  lemma ChainIsSimple(nodes: seq<Layer>)
    ensures SimplePath(Chain(nodes)) <==> DistinctNodeIds(nodes)
  {
    if SimplePath(Chain(nodes)) {
      SimpleChainIsDistinct(nodes);
    }
    if DistinctNodeIds(nodes) {
      DistinctChainIsSimple(nodes);
    }
  }

  lemma SimpleChainIsDistinct(nodes: seq<Layer>)
    requires SimplePath(Chain(nodes))
    ensures DistinctNodeIds(nodes)
  {
    forall i, j | 0 <= i < j < |nodes| ensures NodeId(nodes[i]) != NodeId(nodes[j]) {
      ChainEdge(nodes, i);
      ChainEdge(nodes, j - 1);
      if j + 1 < |nodes| {
        ChainEdge(nodes, j);
      }
    }
  }

  lemma DistinctChainIsSimple(nodes: seq<Layer>)
    requires DistinctNodeIds(nodes)
    ensures SimplePath(Chain(nodes))
  {
    var edges := Chain(nodes);
    forall i | 0 < i < |edges| ensures edges[i].src == edges[i - 1].dst {
      ChainEdge(nodes, i);
      ChainEdge(nodes, i - 1);
    }
    forall i, j | 0 <= i < j < |edges| ensures edges[i].src != edges[j].src {
      ChainEdge(nodes, i);
      ChainEdge(nodes, j);
    }
    forall i | 0 <= i < |edges| ensures edges[i].src != edges[|edges| - 1].dst {
      ChainEdge(nodes, i);
      ChainEdge(nodes, |edges| - 1);
    }
  }

  lemma ChainEdge(nodes: seq<Layer>, i: nat)
    requires i + 1 < |nodes|
    ensures |Chain(nodes)| == |nodes| - 1
    ensures Chain(nodes)[i].src == NodeId(nodes[i]) && Chain(nodes)[i].dst == NodeId(nodes[i + 1])
  {
  }

  predicate ByNodeId(a: Layer, b: Layer) {
    StrLeq(NodeId(a), NodeId(b))
  }

  lemma ByNodeIdIsTotal()
    ensures TotalPreorder(ByNodeId)
  {
    forall x: Layer, y: Layer ensures ByNodeId(x, y) || ByNodeId(y, x) {
      StrLeqTotal(NodeId(x), NodeId(y));
    }
    forall x: Layer, y: Layer, z: Layer | ByNodeId(x, y) && ByNodeId(y, z) ensures ByNodeId(x, z) {
      StrLeqTransitive(NodeId(x), NodeId(y), NodeId(z));
    }
  }

  lemma DistinctIsTieFree(ls: seq<Layer>)
    ensures DistinctNodeIds(ls) <==> TieFree(ls, ByNodeId)
  {
    forall i, j | 0 <= i < j < |ls|
      ensures NodeId(ls[i]) == NodeId(ls[j]) <==> ByNodeId(ls[i], ls[j]) && ByNodeId(ls[j], ls[i])
    {
      if NodeId(ls[i]) == NodeId(ls[j]) {
        StrLeqReflexive(NodeId(ls[i]));
      } else if ByNodeId(ls[i], ls[j]) && ByNodeId(ls[j], ls[i]) {
        StrLeqAntisymmetric(NodeId(ls[i]), NodeId(ls[j]));
      }
    }
  }

  /** The layer graph is a simple path exactly when no two enabled entries share kind and name as printed. */
  lemma SimplePathExactly(entries: seq<Layer>)
    ensures SimplePath(Chain(LayerNodes(entries))) <==> DistinctNodeIds(Filter(entries, IsEnabled()))
  {
    ChainIsSimple(LayerNodes(entries));
    SortPermutes(Filter(entries, IsEnabled()), LayerOrder);
    if DistinctNodeIds(Filter(entries, IsEnabled())) {
      SameNodeIds(Filter(entries, IsEnabled()), LayerNodes(entries));
    }
    if DistinctNodeIds(LayerNodes(entries)) {
      SameNodeIds(LayerNodes(entries), Filter(entries, IsEnabled()));
    }
  }

  /** Distinctness of node ids does not depend on the order. */
  lemma SameNodeIds(a: seq<Layer>, b: seq<Layer>)
    requires multiset(a) == multiset(b) && DistinctNodeIds(a)
    ensures DistinctNodeIds(b)
  {
    ByNodeIdIsTotal();
    DistinctIsTieFree(a);
    TieFreePermutation(a, b, ByNodeId);
    DistinctIsTieFree(b);
  }

  /** Entries of two layer profiles can share kind and name; as neighbours they print a self-loop. */
  lemma SharedNodeIdLoops()
    ensures var entries := [Layer("n", "base", 0, true), Layer("n", "base", 1, true)];
      && Chain(LayerNodes(entries)) == [Edge("base:n", "base:n", "priority-order")]
      && !SimplePath(Chain(LayerNodes(entries)))
  {
    var a, b := Layer("n", "base", 0, true), Layer("n", "base", 1, true);
    var entries := [a, b];
    assert entries[1..] == [b] && [b][1..] == [];
    assert Filter([b], IsEnabled()) == [b];
    assert Filter(entries, IsEnabled()) == entries;
    assert SortBy([b], LayerOrder) == [b];
    assert LayerNodes(entries) == entries;
    assert NodeId(a) == "base:n" && NodeId(b) == "base:n";
    var loop := Edge("base:n", "base:n", "priority-order");
    assert Chain(entries) == [loop];
    SelfLoopIsNoPath(loop);
  }

  lemma SelfLoopIsNoPath(loop: Edge)
    requires loop.src == loop.dst
    ensures !SimplePath([loop])
  {
    assert [loop][0].src == loop.dst;
  }

  /** The edges are those of the rows whose version and package exist, with the row's dependency type. */
  lemma {:induction false} EdgesAreRows(db: Db, deps: seq<Dependency>, e: Edge)
    ensures e in AllEdges(db, deps) <==> exists d :: d in deps && IsEdgeOf(db, d, e)
    decreases deps
  {
    if deps != [] {
      var init, d := deps[..|deps| - 1], deps[|deps| - 1];
      EdgesAreRows(db, init, e);
      assert forall x :: x in deps <==> x in init || x == d;
      assert IsEdgeOf(db, d, e) <==> EdgeOf(db, d) == Some(e);
    }
  }

  /** From the package of the row's version to the name that the row needs. */
  ghost predicate IsEdgeOf(db: Db, d: Dependency, e: Edge) {
    && d.version in db.versions && db.versions[d.version] in db.packages
    && e.src == db.packages[db.versions[d.version]] && e.dst == d.depName && e.kind == d.depType
  }

  /** The layer nodes are the enabled entries, lower priorities first and names in order among equals. */
  lemma LayersInOrder(entries: seq<Layer>)
    ensures var nodes := LayerNodes(entries);
      && (forall l :: l in nodes <==> l in entries && l.enabled)
      && forall i, j :: 0 <= i < j < |nodes| ==>
           nodes[i].priority < nodes[j].priority
           || (nodes[i].priority == nodes[j].priority && StrLeq(nodes[i].name, nodes[j].name))
  {
    var enabled := Filter(entries, IsEnabled());
    var nodes := LayerNodes(entries);
    LayerOrderIsTotal();
    FilterMembers(entries, IsEnabled());
    SortPermutes(enabled, LayerOrder);
    SortSorts(enabled, LayerOrder);
    forall l ensures l in nodes <==> l in enabled {
      MemberOfPermutation(nodes, enabled, l);
    }
  }
}
