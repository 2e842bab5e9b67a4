/** Both generation caches stay coherent over every run of operations. */
module GenerationLaws {
  import opened Wrappers
  import opened Ordering
  import opened Tables
  import opened TextLines
  import opened Generations

  // ---------------------------------------------------------------------
  // A stored plan does not reach a manifest
  // ---------------------------------------------------------------------

  function Strip(t: TargetRow): TargetRow {
    t.(val := t.val.(plan := None))
  }

  lemma {:induction false} StripFilter(s: seq<TargetRow>, i: nat, x: TargetRow, p: TargetRow -> bool)
    requires i < |s| && Strip(x) == Strip(s[i]) && p(x) == p(s[i])
    ensures Map(Strip, Filter(s[i := x], p)) == Map(Strip, Filter(s, p))
    decreases s
  {
    var s' := s[i := x];
    if i == 0 {
      assert s'[1..] == s[1..];
    } else {
      assert s'[1..] == s[1..][i - 1 := x] && s'[0] == s[0];
      StripFilter(s[1..], i - 1, x, p);
      var f, f' := Filter(s[1..], p), Filter(s'[1..], p);
      if p(s[0]) {
        assert Map(Strip, [s[0]] + f) == [Strip(s[0])] + Map(Strip, f);
        assert Map(Strip, [s[0]] + f') == [Strip(s[0])] + Map(Strip, f');
      }
    }
  }

  lemma SameStrippedSameLines(a: seq<TargetRow>, b: seq<TargetRow>)
    requires Map(Strip, a) == Map(Strip, b)
    ensures TargetSection(a) == TargetSection(b)
  {
    assert |a| == |Map(Strip, a)| && |b| == |Map(Strip, b)|;
    forall i | 0 <= i < |a| ensures TargetLine(a[i]) == TargetLine(b[i]) {
      assert Map(Strip, a)[i] == Map(Strip, b)[i];
    }
    assert Map(TargetLine, a) == Map(TargetLine, b);
  }

  lemma PlanIsInvisible(db: Db, t: nat, plan: Option<string>, g: Generation)
    requires t < |db.targets|
    ensures var end := db.(targets := db.targets[t := db.targets[t].(val := db.targets[t].val.(plan := plan))]);
      Manifest(end, g) == Manifest(db, g)
  {
    var row := db.targets[t].(val := db.targets[t].val.(plan := plan));
    var end := db.(targets := db.targets[t := row]);
    var p := TargetOf(g.id);
    StripFilter(db.targets, t, row, p);
    SortMap(Strip, Filter(db.targets, p), TargetOrder, TargetOrder);
    SortMap(Strip, Filter(end.targets, p), TargetOrder, TargetOrder);
    SameStrippedSameLines(TargetsOf(db, g.id), TargetsOf(end, g.id));
  }

  // ---------------------------------------------------------------------
  // One operation
  // ---------------------------------------------------------------------

  ghost predicate FreshId(db: Db, op: Op) {
    op.Create? ==> FindGeneration(db.generations, op.id) == |db.generations|
  }

  /** Clearing or updating one generation in place keeps ids, distributions and numbers. */
  lemma SameHeadersUnique(db: Db, end: Db)
    requires UniqueKeys(db) && |end.generations| == |db.generations|
    requires forall j :: 0 <= j < |db.generations| ==> SameHeader(db.generations[j], end.generations[j])
    requires DistinctKeys(end.artifacts) && DistinctKeys(end.targets)
    ensures UniqueKeys(end)
  {
    forall i, j | 0 <= i < j < |end.generations|
      ensures SameHeader(db.generations[i], end.generations[i]) && SameHeader(db.generations[j], end.generations[j])
    {
    }
  }

  lemma ChildKeysStayDistinct(db: Db, op: Op, sha: string -> string)
    requires DistinctKeys(db.artifacts) && DistinctKeys(db.targets)
    ensures DistinctKeys(Effect(db, op, sha).artifacts) && DistinctKeys(Effect(db, op, sha).targets)
  {
    match op
    case AddArtifact(id, role, artifact) => PutKeepsDistinct(db.artifacts, Blank, (id, role), artifact, Replace);
    case AddTarget(id, n, kind, priority) => PutKeepsDistinct(db.targets, Blank, (id, n), Target(kind, priority, None), Replace);
    case _ =>
  }

  lemma EffectKeepsUnique(db: Db, op: Op, sha: string -> string)
    requires UniqueKeys(db) && FreshId(db, op)
    ensures UniqueKeys(Effect(db, op, sha))
  {
    if op.Create? {
      CreateKeepsUnique(db, op, sha);
    } else {
      ChildKeysStayDistinct(db, op, sha);
      HeadersKept(db, op, sha);
      SameHeadersUnique(db, Effect(db, op, sha));
    }
  }

  lemma CreateKeepsUnique(db: Db, op: Op, sha: string -> string)
    requires UniqueKeys(db) && op.Create? && FreshId(db, op)
    ensures UniqueKeys(Effect(db, op, sha))
  {
  }

  lemma SameIdsSamePlace(gs: seq<Generation>, hs: seq<Generation>, id: string)
    requires |gs| <= |hs| && forall j :: 0 <= j < |gs| ==> hs[j].id == gs[j].id
    requires FindGeneration(gs, id) < |gs|
    ensures FindGeneration(hs, id) == FindGeneration(gs, id)
  {
    var i := FindGeneration(gs, id);
    assert hs[i].id == id;
    assert forall j :: 0 <= j < i ==> hs[j].id == gs[j].id;
  }

  /** No operation changes the number of an existing generation. */
  lemma NumbersAreFixed(db: Db, op: Op, sha: string -> string, id: string)
    requires FindGeneration(db.generations, id) < |db.generations|
    ensures var end := Effect(db, op, sha);
      var i := FindGeneration(end.generations, id);
      i == FindGeneration(db.generations, id) && i < |end.generations| && end.generations[i].number == db.generations[i].number
  {
    HeadersKept(db, op, sha);
    SameIdsSamePlace(db.generations, Effect(db, op, sha).generations, id);
  }

  lemma HeadersKept(db: Db, op: Op, sha: string -> string)
    ensures var end := Effect(db, op, sha);
      && |db.generations| <= |end.generations| && (!op.Create? ==> |end.generations| == |db.generations|)
      && forall j :: 0 <= j < |db.generations| ==> SameHeader(db.generations[j], end.generations[j])
  {
  }

  predicate SameHeader(g: Generation, h: Generation) {
    g.id == h.id && g.distribution == h.distribution && g.number == h.number
  }

  lemma TargetsStayCoherent(db: Db, op: Op, sha: string -> string)
    requires Coherent(db, sha)
    ensures forall i :: 0 <= i < |Effect(db, op, sha).targets| ==> CoherentTarget(Effect(db, op, sha), Effect(db, op, sha).targets[i])
  {
    var end := Effect(db, op, sha);
    forall i | 0 <= i < |end.targets| ensures CoherentTarget(end, end.targets[i]) {
      var t := end.targets[i];
      TargetAfter(db, op, sha, i);
      if i < |db.targets| && t == db.targets[i] && t.val.plan.Some? {
        assert CoherentTarget(db, t);
        NumbersAreFixed(db, op, sha, t.key.0);
      }
    }
  }

  /** A target row is as before, or without a plan, or has just been rendered. */
  lemma TargetAfter(db: Db, op: Op, sha: string -> string, i: nat)
    requires i < |Effect(db, op, sha).targets|
    ensures var end := Effect(db, op, sha);
      (i < |db.targets| && end.targets[i] == db.targets[i]) || end.targets[i].val.plan.None? || CoherentTarget(end, end.targets[i])
  {
    match op
    case AddTarget(id, n, kind, priority) => RowAfterPut(db.targets, (id, n), Target(kind, priority, None), i);
    case RenderPlan(id, n) => RenderedTarget(db, id, n, sha);
    case _ =>
  }

  lemma RowAfterPut<K, V>(t: Table<K, V>, k: K, v: V, i: nat)
    requires i < |Put(t, Blank, k, v, Replace)|
    ensures var row := Put(t, Blank, k, v, Replace)[i]; (i < |t| && row == t[i]) || row.val == v
  {
  }

  lemma RenderedTarget(db: Db, id: string, n: int, sha: string -> string)
    ensures var end := Effect(db, RenderPlan(id, n), sha);
      && |end.targets| == |db.targets|
      && forall i :: 0 <= i < |db.targets| ==> end.targets[i] == db.targets[i] || CoherentTarget(end, end.targets[i])
  {
    if Failure(db, RenderPlan(id, n)).None? {
      StoredPlanIsCoherent(db, Find(db.targets, (id, n)), FindGeneration(db.generations, id));
    }
  }

  lemma StoredPlanIsCoherent(db: Db, t: nat, g: nat)
    requires t < |db.targets| && g == FindGeneration(db.generations, db.targets[t].key.0) < |db.generations|
    ensures var end := PlanStored(db, t, db.generations[g].number);
      && |end.targets| == |db.targets| && CoherentTarget(end, end.targets[t])
      && forall i :: 0 <= i < |db.targets| && i != t ==> end.targets[i] == db.targets[i]
  {
  }

  /** A generation keeps its manifest text unless the operation is about it. */
  lemma OthersKeepManifest(db: Db, op: Op, sha: string -> string, g: Generation)
    requires op.id != g.id || op.RenderManifest? || op.RenderPlan? || op.Create?
    ensures Manifest(Effect(db, op, sha), g) == Manifest(db, g)
  {
    if Failure(db, op).None? {
      match op
      case AddArtifact(id, role, artifact) =>
        FilterPut(db.artifacts, (id, role), artifact, ArtifactOf(g.id));
      case AddTarget(id, n, kind, priority) =>
        FilterPut(db.targets, (id, n), Target(kind, priority, None), TargetOf(g.id));
      case RenderPlan(id, n) =>
        var t := Find(db.targets, (id, n));
        PlanIsInvisible(db, t, Effect(db, op, sha).targets[t].val.plan, g);
      case _ =>
    }
  }

  lemma GenerationsStayCoherent(db: Db, op: Op, sha: string -> string)
    requires UniqueKeys(db) && Coherent(db, sha)
    ensures forall i :: 0 <= i < |Effect(db, op, sha).generations| ==>
      CoherentGeneration(Effect(db, op, sha), Effect(db, op, sha).generations[i], sha)
  {
    var end := Effect(db, op, sha);
    var at := FindGeneration(db.generations, op.id);
    forall i | 0 <= i < |end.generations| ensures CoherentGeneration(end, end.generations[i], sha) {
      var g := end.generations[i];
      if i < |db.generations| {
        assert CoherentGeneration(db, db.generations[i], sha);
        if i != at || op.RenderManifest? || op.RenderPlan? || op.Create? {
          OthersKeepManifest(db, op, sha, db.generations[i]);
          assert g.id == db.generations[i].id;
          assert Manifest(end, g) == Manifest(end, db.generations[i]) by {
          }
        }
      }
    }
  }

  /** Every operation, successful or refused, keeps both caches coherent. */
  lemma EffectKeepsCoherent(db: Db, op: Op, sha: string -> string)
    requires UniqueKeys(db) && Coherent(db, sha)
    ensures Coherent(Effect(db, op, sha), sha)
  {
    TargetsStayCoherent(db, op, sha);
    GenerationsStayCoherent(db, op, sha);
  }

  // ---------------------------------------------------------------------
  // Runs
  // ---------------------------------------------------------------------

  function Run(db: Db, ops: seq<Op>, sha: string -> string): Db
    decreases ops
  {
    if ops == [] then db else Run(Effect(db, ops[0], sha), ops[1..], sha)
  }

  ghost predicate FreshIds(db: Db, ops: seq<Op>, sha: string -> string)
    decreases ops
  {
    ops == [] || (FreshId(db, ops[0]) && FreshIds(Effect(db, ops[0], sha), ops[1..], sha))
  }

  /** Over every run, no hash outlives the rows it was computed from, no plan outlives its target's
      settings, and (generation, role) and (generation, target) stay unique. */
  lemma {:induction false} RunKeepsCoherent(db: Db, ops: seq<Op>, sha: string -> string)
    requires UniqueKeys(db) && Coherent(db, sha) && FreshIds(db, ops, sha)
    ensures UniqueKeys(Run(db, ops, sha)) && Coherent(Run(db, ops, sha), sha)
    decreases ops
  {
    if ops != [] {
      EffectKeepsUnique(db, ops[0], sha);
      EffectKeepsCoherent(db, ops[0], sha);
      RunKeepsCoherent(Effect(db, ops[0], sha), ops[1..], sha);
    }
  }
}
