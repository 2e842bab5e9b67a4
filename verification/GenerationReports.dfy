/** The generation service in the words of its callers: what is refused, what is stored, what the texts say. */
module GenerationReports {
  import opened Wrappers
  import opened Ordering
  import opened Tables
  import opened TextLines
  import opened Generations

  ghost predicate HasGeneration(db: Db, id: string) {
    exists g :: g in db.generations && g.id == id
  }

  lemma FindsGeneration(db: Db, id: string)
    ensures FindGeneration(db.generations, id) < |db.generations| <==> HasGeneration(db, id)
  {
    var i := FindGeneration(db.generations, id);
    if i < |db.generations| {
      assert db.generations[i] in db.generations;
    }
  }

  // ---------------------------------------------------------------------
  // What is refused
  // ---------------------------------------------------------------------

  /** A new generation needs a known status, then a free number in its distribution. */
  lemma CreateRefused(db: Db, op: Op)
    requires op.Create?
    ensures var valid := op.status in ["active", "archived", "rolled_back"];
      var taken := op.distribution.Some?
                   && exists g :: g in db.generations && g.distribution == op.distribution && g.number == op.number;
      Failure(db, op) == if !valid then Some(InvalidValue) else if taken then Some(Duplicate) else None
  {
    if g :| g in db.generations && g.distribution == op.distribution && g.number == op.number {
      var i :| 0 <= i < |db.generations| && db.generations[i] == g;
    }
  }

  /** Roles, rollback kinds and new statuses are known words; updates and renderings need what they are about. */
  lemma OthersRefused(db: Db, op: Op)
    ensures op.Update? ==>
      Failure(db, op) == if !HasGeneration(db, op.id) then Some(NotFound)
                         else if op.newStatus.Some? && op.newStatus.value !in ["active", "archived", "rolled_back"]
                              then Some(InvalidValue) else None
    ensures op.AddArtifact? ==>
      Failure(db, op) == if op.role in ["image", "rootfs", "bootloader", "kernel", "initramfs", "other"] then None else Some(InvalidValue)
    ensures op.AddTarget? ==>
      Failure(db, op) == if op.kind in ["full", "partial", "config-only", "data-preserve"] then None else Some(InvalidValue)
    ensures op.RenderManifest? ==> Failure(db, op) == if HasGeneration(db, op.id) then None else Some(NotFound)
    ensures op.RenderPlan? ==>
      Failure(db, op) == if HasGeneration(db, op.id) && Present(db.targets, (op.id, op.planTarget)) then None else Some(NotFound)
  {
    FindsGeneration(db, op.id);
  }

  // ---------------------------------------------------------------------
  // What is stored
  // ---------------------------------------------------------------------

  lemma CreateStores(db: Db, op: Op, sha: string -> string)
    requires op.Create? && Failure(db, op).None?
    ensures var end := Effect(db, op, sha);
      && end.artifacts == db.artifacts && end.targets == db.targets
      && |end.generations| == |db.generations| + 1 && end.generations[..|db.generations|] == db.generations
      && var g := end.generations[|db.generations|];
         && g.id == op.id && g.distribution == op.distribution && g.release == op.release && g.number == op.number
         && g.status == op.status && g.description == op.description && g.manifest.None? && g.contentHash.None?
  {
  }

  /** Every other generation is as before. */
  ghost predicate OthersKept(db: Db, end: Db, id: string) {
    && |end.generations| == |db.generations|
    && forall j :: 0 <= j < |db.generations| && j != FindGeneration(db.generations, id) ==> end.generations[j] == db.generations[j]
  }

  lemma UpdateStores(db: Db, id: string, status: Option<string>, description: Option<string>, sha: string -> string)
    requires Failure(db, Update(id, status, description)).None?
    ensures var i, end := FindGeneration(db.generations, id), Effect(db, Update(id, status, description), sha);
      && end.artifacts == db.artifacts && end.targets == db.targets && OthersKept(db, end, id)
      && i < |db.generations|
      && var g, h := db.generations[i], end.generations[i];
         && h.id == g.id && h.distribution == g.distribution && h.release == g.release && h.number == g.number
         && (status.Some? ==> h.status == status.value) && (status.None? ==> h.status == g.status)
         && (description.Some? ==> h.description == description.value)
         && (description.None? ==> h.description == g.description)
         && h.manifest.None? && h.contentHash.None?
  {
  }

  /** The generation, if there is one, has neither manifest nor hash any more. */
  ghost predicate Uncached(db: Db, end: Db, id: string) {
    var i := FindGeneration(db.generations, id);
    OthersKept(db, end, id)
    && (i < |db.generations| ==> end.generations[i] == db.generations[i].(manifest := None, contentHash := None))
  }

  lemma ArtifactStores(db: Db, id: string, role: string, artifact: Artifact, sha: string -> string)
    requires Failure(db, AddArtifact(id, role, artifact)).None?
    ensures var end := Effect(db, AddArtifact(id, role, artifact), sha);
      && ValueOf(end.artifacts, (id, role)) == Some(artifact)
      && (forall k :: k != (id, role) ==> ValueOf(end.artifacts, k) == ValueOf(db.artifacts, k))
      && end.targets == db.targets && Uncached(db, end, id)
  {
    PutStores(db.artifacts, Blank, (id, role), artifact);
  }

  lemma TargetStores(db: Db, id: string, n: int, kind: string, priority: int, sha: string -> string)
    requires Failure(db, AddTarget(id, n, kind, priority)).None?
    ensures var end := Effect(db, AddTarget(id, n, kind, priority), sha);
      && ValueOf(end.targets, (id, n)) == Some(Target(kind, priority, None))
      && (forall k :: k != (id, n) ==> ValueOf(end.targets, k) == ValueOf(db.targets, k))
      && end.artifacts == db.artifacts && Uncached(db, end, id)
  {
    PutStores(db.targets, Blank, (id, n), Target(kind, priority, None));
  }

  /** A rendered plan goes from the generation's number to the target's, by the target's kind and priority. */
  lemma PlanStores(db: Db, id: string, n: int, sha: string -> string)
    requires Failure(db, RenderPlan(id, n)).None?
    ensures var end, g := Effect(db, RenderPlan(id, n), sha), FindGeneration(db.generations, id);
      var was := ValueOf(db.targets, (id, n));
      && g < |db.generations| && was.Some?
      && ValueOf(end.targets, (id, n)) ==
           Some(was.value.(plan := Some(PlanText(db.generations[g].number, n, was.value.kind, was.value.priority))))
      && (forall k :: k != (id, n) ==> ValueOf(end.targets, k) == ValueOf(db.targets, k))
      && end.artifacts == db.artifacts && end.generations == db.generations
  {
    var t, g := Find(db.targets, (id, n)), FindGeneration(db.generations, id);
    PlanAt(db, t, db.generations[g].number);
  }

  lemma PlanAt(db: Db, t: nat, number: int)
    requires t < |db.targets| && Find(db.targets, db.targets[t].key) == t
    ensures var end, row := PlanStored(db, t, number), db.targets[t];
      && ValueOf(end.targets, row.key) == Some(row.val.(plan := Some(PlanText(number, row.key.1, row.val.kind, row.val.priority))))
      && (forall k :: k != row.key ==> ValueOf(end.targets, k) == ValueOf(db.targets, k))
      && end.artifacts == db.artifacts && end.generations == db.generations
  {
    var end, key := PlanStored(db, t, number), db.targets[t].key;
    FindIs(end.targets, key, t);
    forall k | k != key ensures ValueOf(end.targets, k) == ValueOf(db.targets, k) {
      var i := Find(db.targets, k);
      if i < |db.targets| {
        FindIs(end.targets, k, i);
      } else {
        assert forall j :: 0 <= j < |end.targets| ==> end.targets[j].key == db.targets[j].key;
      }
    }
  }

  // ---------------------------------------------------------------------
  // What the texts say
  // ---------------------------------------------------------------------

  /** The steps of each rollback kind. */
  lemma PlanSteps(source: int, target: int, kind: string, priority: int)
    requires kind in ["full", "partial", "config-only", "data-preserve"]
    ensures exists steps ::
      && (kind == "full" ==>
            steps == ["1 = stop all services", "2 = restore rootfs from target generation snapshot",
                      "3 = restore bootloader if changed", "4 = start services"])
      && (kind == "partial" ==> steps == ["1 = perform partial rollback as defined by operator"])
      && (kind == "config-only" ==>
            steps == ["1 = diff config files between generations", "2 = restore changed config files only",
                      "3 = reload affected services"])
      && (kind == "data-preserve" ==>
            steps == ["1 = preserve user data partition", "2 = restore OS partition to target generation", "3 = reboot"])
      && PlanText(source, target, kind, priority) == JoinLines(
           ["# OSFabricum Rollback Plan",
            "# From generation " + SignedDecimal(source) + " \U{2192} " + SignedDecimal(target), "", "[rollback]",
            "source_generation = " + SignedDecimal(source), "target_generation = " + SignedDecimal(target),
            "rollback_kind     = " + kind, "priority          = " + SignedDecimal(priority), "", "[steps]"] + steps) + "\n"
  {
    KindsDiffer();
    assert PlanText(source, target, kind, priority) == JoinLines(PlanHeader(source, target, kind, priority) + Steps(kind)) + "\n";
  }

  lemma KindsDiffer()
    ensures "full" != "partial" && "full" != "config-only" && "full" != "data-preserve"
    ensures "partial" != "config-only" && "partial" != "data-preserve" && "config-only" != "data-preserve"
  {
    assert "full"[0] == 'f' && "partial"[0] == 'p' && "config-only"[0] == 'c' && "data-preserve"[0] == 'd';
  }

  /** An artifact's line: its role, and its URI, else its id, else "unset". */
  ghost predicate IsArtifactLine(line: string, a: ArtifactRow) {
    && (Truthy(a.val.uri) ==> line == a.key.1 + " = " + a.val.uri.value)
    && (!Truthy(a.val.uri) && Truthy(a.val.artifactId) ==> line == a.key.1 + " = " + a.val.artifactId.value)
    && (!Truthy(a.val.uri) && !Truthy(a.val.artifactId) ==> line == a.key.1 + " = " + "unset")
  }

  ghost predicate IsTargetLine(line: string, t: TargetRow) {
    line == "target_" + SignedDecimal(t.key.1) + " = " + t.val.kind + " (priority=" + SignedDecimal(t.val.priority) + ")"
  }

  ghost predicate IsOr(text: string, s: Option<string>) {
    (Truthy(s) ==> text == s.value) && (!Truthy(s) ==> text == "")
  }

  /** A manifest starts with the generation's fields. */
  lemma HeaderLines(g: Generation) returns (distribution: string, release: string)
    ensures IsOr(distribution, g.distribution) && IsOr(release, g.release)
    ensures ManifestHeader(g) ==
      ["# OSFabricum Generation Manifest", "# Generated for generation " + SignedDecimal(g.number), "", "[generation]",
       "id                = " + g.id, "generation_number = " + SignedDecimal(g.number), "status            = " + g.status,
       "distribution_id   = " + distribution, "release_id        = " + release,
       "description       = " + g.description, "", "[artifacts]"]
  {
    distribution, release := Text(g.distribution, ""), Text(g.release, "");
  }

  /** Then there is one line for each artifact by role, and one for each target in order of priority, if any. */
  lemma ManifestLines(g: Generation, artifacts: seq<ArtifactRow>, targets: seq<TargetRow>)
    returns (a: seq<string>, t: seq<string>)
    ensures |a| == |artifacts| && forall i :: 0 <= i < |a| ==> IsArtifactLine(a[i], artifacts[i])
    ensures |t| == |targets| && forall i :: 0 <= i < |t| ==> IsTargetLine(t[i], targets[i])
    ensures ManifestText(g, artifacts, targets) ==
      JoinLines(ManifestHeader(g) + a + (if targets == [] then [] else ["", "[rollback_targets]"] + t)) + "\n"
  {
    a, t := Map(ArtifactLine, artifacts), Map(TargetLine, targets);
  }

  /** The artifacts of the generation by role, its targets by priority, then number. */
  lemma RowsAre(db: Db, id: string)
    ensures var a, t := ArtifactsOf(db, id), TargetsOf(db, id);
      && (forall r :: r in a <==> r in db.artifacts && r.key.0 == id)
      && (forall i, j :: 0 <= i < j < |a| ==> StrLeq(a[i].key.1, a[j].key.1))
      && (forall r :: r in t <==> r in db.targets && r.key.0 == id)
      && (forall i, j :: 0 <= i < j < |t| ==>
            t[i].val.priority < t[j].val.priority || (t[i].val.priority == t[j].val.priority && t[i].key.1 <= t[j].key.1))
  {
    RoleOrderIsTotal();
    SortedSelection(db.artifacts, ArtifactOf(id), RoleOrder);
    SortedSelection(db.targets, TargetOf(id), TargetOrder);
  }

  lemma RoleOrderIsTotal()
    ensures TotalPreorder(RoleOrder)
  {
    forall a: ArtifactRow, b: ArtifactRow ensures RoleOrder(a, b) || RoleOrder(b, a) {
      StrLeqTotal(a.key.1, b.key.1);
    }
    forall a: ArtifactRow, b: ArtifactRow, c: ArtifactRow | RoleOrder(a, b) && RoleOrder(b, c) ensures RoleOrder(a, c) {
      StrLeqTransitive(a.key.1, b.key.1, c.key.1);
    }
  }

  /** A rendered manifest is stored with its digest. */
  lemma ManifestStores(db: Db, id: string, sha: string -> string)
    requires Failure(db, RenderManifest(id)).None?
    ensures var i, end := FindGeneration(db.generations, id), Effect(db, RenderManifest(id), sha);
      && end.artifacts == db.artifacts && end.targets == db.targets && OthersKept(db, end, id)
      && i < |db.generations|
      && var text := ManifestText(db.generations[i], ArtifactsOf(db, id), TargetsOf(db, id));
         end.generations[i] == db.generations[i].(manifest := Some(text), contentHash := Some("sha256:" + sha(text)))
  {
  }
}
