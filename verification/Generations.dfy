/** System generations with two caches: the generation manifest and one rollback plan per target. */
module Generations {
  import opened Wrappers
  import opened Ordering
  import opened Tables
  import opened TextLines

  datatype Generation = Generation(
    id: string,
    distribution: Option<string>,
    release: Option<string>,
    number: int,
    status: string,
    description: string,
    manifest: Option<string>,
    contentHash: Option<string>)

  datatype Artifact = Artifact(artifactId: Option<string>, uri: Option<string>)
  datatype Target = Target(kind: string, priority: int, plan: Option<string>)

  type ArtifactRow = Row<(string, string), Artifact>
  type TargetRow = Row<(string, int), Target>

  /** Child rows are keyed by (generation, role) and (generation, target number). */
  datatype Db = Db(
    generations: seq<Generation>,
    artifacts: Table<(string, string), Artifact>,
    targets: Table<(string, int), Target>)

  datatype Error = NotFound | InvalidValue | Duplicate

  predicate ValidStatus(s: string) {
    s == "active" || s == "archived" || s == "rolled_back"
  }

  predicate ValidRole(s: string) {
    s == "image" || s == "rootfs" || s == "bootloader" || s == "kernel" || s == "initramfs" || s == "other"
  }

  predicate ValidKind(s: string) {
    s == "full" || s == "partial" || s == "config-only" || s == "data-preserve"
  }

  // ---------------------------------------------------------------------
  // Rendering
  // ---------------------------------------------------------------------

  predicate RoleOrder(a: ArtifactRow, b: ArtifactRow) {
    StrLeq(a.key.1, b.key.1)
  }

  predicate TargetOrder(a: TargetRow, b: TargetRow) {
    a.val.priority < b.val.priority || (a.val.priority == b.val.priority && a.key.1 <= b.key.1)
  }

  function ArtifactOf(gen: string): ArtifactRow -> bool { (r: ArtifactRow) => r.key.0 == gen }
  function TargetOf(gen: string): TargetRow -> bool { (r: TargetRow) => r.key.0 == gen }

  function ArtifactsOf(db: Db, gen: string): seq<ArtifactRow> {
    SortBy(Filter(db.artifacts, ArtifactOf(gen)), RoleOrder)
  }

  function TargetsOf(db: Db, gen: string): seq<TargetRow> {
    SortBy(Filter(db.targets, TargetOf(gen)), TargetOrder)
  }

  function Text(s: Option<string>, default: string): string {
    if s.Some? && s.value != "" then s.value else default
  }

  function ManifestHeader(g: Generation): seq<string> {
    ["# OSFabricum Generation Manifest", "# Generated for generation " + SignedDecimal(g.number), "", "[generation]",
     "id                = " + g.id, "generation_number = " + SignedDecimal(g.number), "status            = " + g.status,
     "distribution_id   = " + Text(g.distribution, ""), "release_id        = " + Text(g.release, ""),
     "description       = " + g.description, "", "[artifacts]"]
  }

  function ArtifactLine(a: ArtifactRow): string {
    a.key.1 + " = " + Text(a.val.uri, Text(a.val.artifactId, "unset"))
  }

  function TargetLine(t: TargetRow): string {
    "target_" + SignedDecimal(t.key.1) + " = " + t.val.kind + " (priority=" + SignedDecimal(t.val.priority) + ")"
  }

  function TargetSection(ts: seq<TargetRow>): seq<string> {
    if ts == [] then [] else ["", "[rollback_targets]"] + Map(TargetLine, ts)
  }

  function ManifestText(g: Generation, artifacts: seq<ArtifactRow>, targets: seq<TargetRow>): string {
    JoinLines(ManifestHeader(g) + Map(ArtifactLine, artifacts) + TargetSection(targets)) + "\n"
  }

  function Manifest(db: Db, g: Generation): string {
    ManifestText(g, ArtifactsOf(db, g.id), TargetsOf(db, g.id))
  }

  function Steps(kind: string): seq<string> {
    if kind == "full" then
      ["1 = stop all services", "2 = restore rootfs from target generation snapshot",
       "3 = restore bootloader if changed", "4 = start services"]
    else if kind == "config-only" then
      ["1 = diff config files between generations", "2 = restore changed config files only", "3 = reload affected services"]
    else if kind == "data-preserve" then
      ["1 = preserve user data partition", "2 = restore OS partition to target generation", "3 = reboot"]
    else ["1 = perform partial rollback as defined by operator"]
  }

  function PlanHeader(source: int, target: int, kind: string, priority: int): seq<string> {
    ["# OSFabricum Rollback Plan",
     "# From generation " + SignedDecimal(source) + " \U{2192} " + SignedDecimal(target), "", "[rollback]",
     "source_generation = " + SignedDecimal(source), "target_generation = " + SignedDecimal(target),
     "rollback_kind     = " + kind, "priority          = " + SignedDecimal(priority), "", "[steps]"]
  }

  function PlanText(source: int, target: int, kind: string, priority: int): string {
    JoinLines(PlanHeader(source, target, kind, priority) + Steps(kind)) + "\n"
  }

  // ---------------------------------------------------------------------
  // Coherence of both caches
  // ---------------------------------------------------------------------

  function FindGeneration(gs: seq<Generation>, id: string): (i: nat)
    ensures i <= |gs|
    ensures i < |gs| ==> gs[i].id == id
    ensures i == |gs| ==> forall j :: 0 <= j < |gs| ==> gs[j].id != id
    ensures forall j :: 0 <= j < i ==> gs[j].id != id
  {
    if gs == [] then 0 else if gs[0].id == id then 0 else 1 + FindGeneration(gs[1..], id)
  }

  function Rendered(db: Db, g: Generation, sha: string -> string): Generation {
    var text := Manifest(db, g);
    g.(manifest := Some(text), contentHash := Some("sha256:" + sha(text)))
  }

  /** A hash stands only over the manifest that a fresh rendering would give. */
  ghost predicate CoherentGeneration(db: Db, g: Generation, sha: string -> string) {
    g.contentHash.Some? ==> g == Rendered(db, g, sha)
  }

  /** A stored plan is the one that a fresh rendering of its target would give. */
  ghost predicate CoherentTarget(db: Db, t: TargetRow) {
    t.val.plan.Some? ==>
      var i := FindGeneration(db.generations, t.key.0);
      i < |db.generations| && t.val.plan.value == PlanText(db.generations[i].number, t.key.1, t.val.kind, t.val.priority)
  }

  ghost predicate Coherent(db: Db, sha: string -> string) {
    && (forall i :: 0 <= i < |db.generations| ==> CoherentGeneration(db, db.generations[i], sha))
    && (forall i :: 0 <= i < |db.targets| ==> CoherentTarget(db, db.targets[i]))
  }

  /** Generation ids, (distribution, number), (generation, role) and (generation, target) are unique. */
  ghost predicate UniqueKeys(db: Db) {
    && (forall i, j :: 0 <= i < j < |db.generations| && db.generations[i].distribution.Some? ==>
          db.generations[i].distribution != db.generations[j].distribution || db.generations[i].number != db.generations[j].number)
    && (forall i, j :: 0 <= i < j < |db.generations| ==> db.generations[i].id != db.generations[j].id)
    && DistinctKeys(db.artifacts)
    && DistinctKeys(db.targets)
  }

  // ---------------------------------------------------------------------
  // The operations
  // ---------------------------------------------------------------------

  datatype Op =
    | Create(id: string, distribution: Option<string>, number: int, description: string, release: Option<string>, status: string)
    | Update(id: string, newStatus: Option<string>, newDescription: Option<string>)
    | AddArtifact(id: string, role: string, artifact: Artifact)
    | AddTarget(id: string, target: int, kind: string, priority: int)
    | RenderManifest(id: string)
    | RenderPlan(id: string, planTarget: int)

  /** The unique constraint on (distribution, number); rows without a distribution never clash. */
  predicate NumberTaken(gs: seq<Generation>, distribution: Option<string>, number: int) {
    distribution.Some? && exists i :: 0 <= i < |gs| && gs[i].distribution == distribution && gs[i].number == number
  }

  function Failure(db: Db, op: Op): Option<Error> {
    match op
    case Create(_, dist, number, _, _, status) =>
      if !ValidStatus(status) then Some(InvalidValue)
      else if NumberTaken(db.generations, dist, number) then Some(Duplicate)
      else None
    case Update(id, status, _) =>
      if FindGeneration(db.generations, id) == |db.generations| then Some(NotFound)
      else if status.Some? && !ValidStatus(status.value) then Some(InvalidValue)
      else None
    case AddArtifact(_, role, _) => if ValidRole(role) then None else Some(InvalidValue)
    case AddTarget(_, _, kind, _) => if ValidKind(kind) then None else Some(InvalidValue)
    case RenderManifest(id) => if FindGeneration(db.generations, id) == |db.generations| then Some(NotFound) else None
    case RenderPlan(id, n) =>
      if !Present(db.targets, (id, n)) || FindGeneration(db.generations, id) == |db.generations| then Some(NotFound) else None
  }

  function Invalidated(gs: seq<Generation>, id: string): seq<Generation> {
    var i := FindGeneration(gs, id);
    if i < |gs| then gs[i := gs[i].(manifest := None, contentHash := None)] else gs
  }

  /** The t-th target with the plan that leads to it from generation `number`. */
  function PlanStored(db: Db, t: nat, number: int): Db
    requires t < |db.targets|
  {
    var row := db.targets[t];
    var plan := PlanText(number, row.key.1, row.val.kind, row.val.priority);
    db.(targets := db.targets[t := row.(val := row.val.(plan := Some(plan)))])
  }

  /** The session after the call; a failing call changes nothing. */
  function Effect(db: Db, op: Op, sha: string -> string): Db {
    if Failure(db, op).Some? then db
    else match op
      case Create(id, dist, number, description, release, status) =>
        db.(generations := db.generations + [Generation(id, dist, release, number, status, description, None, None)])
      case Update(id, status, description) =>
        var i := FindGeneration(db.generations, id);
        var g := db.generations[i];
        db.(generations := db.generations[i := g.(status := if status.Some? then status.value else g.status,
                                                  description := if description.Some? then description.value else g.description,
                                                  manifest := None, contentHash := None)])
      case AddArtifact(id, role, artifact) =>
        db.(artifacts := Put(db.artifacts, Blank, (id, role), artifact, Replace),
            generations := Invalidated(db.generations, id))
      case AddTarget(id, n, kind, priority) =>
        db.(targets := Put(db.targets, Blank, (id, n), Target(kind, priority, None), Replace),
            generations := Invalidated(db.generations, id))
      case RenderManifest(id) =>
        var i := FindGeneration(db.generations, id);
        db.(generations := db.generations[i := Rendered(db, db.generations[i], sha)])
      case RenderPlan(id, n) =>
        PlanStored(db, Find(db.targets, (id, n)), db.generations[FindGeneration(db.generations, id)].number)
  }

  class Session {
    const sha: string -> string
    var db: Db

    constructor (sha: string -> string, db: Db)
      ensures this.sha == sha && this.db == db
    {
      this.sha := sha;
      this.db := db;
    }

    method CreateGeneration(id: string, distribution: Option<string>, number: int, description: string,
                            release: Option<string>, status: string)
      returns (r: Option<Error>)
      modifies this
      ensures var op := Create(id, distribution, number, description, release, status);
        r == Failure(old(db), op) && db == Effect(old(db), op, sha)
    {
      if !ValidStatus(status) {
        return Some(InvalidValue);
      }
      if NumberTaken(db.generations, distribution, number) {
        return Some(Duplicate);
      }
      db := db.(generations := db.generations + [Generation(id, distribution, release, number, status, description, None, None)]);
      return None;
    }

    method UpdateGeneration(id: string, status: Option<string>, description: Option<string>) returns (r: Option<Error>)
      modifies this
      ensures r == Failure(old(db), Update(id, status, description)) && db == Effect(old(db), Update(id, status, description), sha)
    {
      var i := FindGeneration(db.generations, id);
      if i == |db.generations| {
        return Some(NotFound);
      }
      var gen := db.generations[i];
      if status.Some? {
        if !ValidStatus(status.value) {
          return Some(InvalidValue);
        }
        gen := gen.(status := status.value);
      }
      if description.Some? {
        gen := gen.(description := description.value);
      }
      db := db.(generations := db.generations[i := gen.(manifest := None, contentHash := None)]);
      return None;
    }

    /** The generation with key `id` carries no manifest and no hash any more; everything else is as before. */
    method Invalidate(id: string)
      modifies this
      ensures db == old(db).(generations := db.generations) && |db.generations| == |old(db).generations|
      ensures forall j :: 0 <= j < |db.generations| && j != FindGeneration(old(db).generations, id) ==>
        db.generations[j] == old(db).generations[j]
      ensures var i := FindGeneration(old(db).generations, id); i < |db.generations| ==>
        && db.generations[i].manifest.None? && db.generations[i].contentHash.None?
        && db.generations[i] == old(db).generations[i].(manifest := None, contentHash := None)
    {
      var i := FindGeneration(db.generations, id);
      if i < |db.generations| {
        db := db.(generations := db.generations[i := db.generations[i].(manifest := None, contentHash := None)]);
      }
    }

    method AddGenerationArtifact(id: string, role: string, artifact: Artifact) returns (r: Option<Error>)
      modifies this
      ensures r == Failure(old(db), AddArtifact(id, role, artifact)) && db == Effect(old(db), AddArtifact(id, role, artifact), sha)
    {
      if !ValidRole(role) {
        return Some(InvalidValue);
      }
      var at := Find(db.artifacts, (id, role));
      if at < |db.artifacts| {
        db := db.(artifacts := db.artifacts[at := db.artifacts[at].(val := artifact)]);
      } else {
        db := db.(artifacts := db.artifacts + [Row(Blank, (id, role), artifact)]);
      }
      ghost var was := db;
      Invalidate(id);
      assert db.generations == Invalidated(was.generations, id);
      return None;
    }

    method AddRollbackTarget(id: string, n: int, kind: string, priority: int) returns (r: Option<Error>)
      modifies this
      ensures r == Failure(old(db), AddTarget(id, n, kind, priority)) && db == Effect(old(db), AddTarget(id, n, kind, priority), sha)
    {
      if !ValidKind(kind) {
        return Some(InvalidValue);
      }
      var at := Find(db.targets, (id, n));
      if at < |db.targets| {
        var val := db.targets[at].val.(kind := kind);
        val := val.(priority := priority);
        val := val.(plan := None);
        db := db.(targets := db.targets[at := db.targets[at].(val := val)]);
      } else {
        db := db.(targets := db.targets + [Row(Blank, (id, n), Target(kind, priority, None))]);
      }
      ghost var was := db;
      Invalidate(id);
      assert db.generations == Invalidated(was.generations, id);
      return None;
    }

    method RenderGenerationManifest(id: string) returns (r: Option<Error>)
      modifies this
      ensures r == Failure(old(db), RenderManifest(id)) && db == Effect(old(db), RenderManifest(id), sha)
    {
      var i := FindGeneration(db.generations, id);
      if i == |db.generations| {
        return Some(NotFound);
      }
      var gen := db.generations[i];
      var text := WriteManifest(gen, ArtifactsOf(db, id), TargetsOf(db, id));
      db := db.(generations := db.generations[i := gen.(manifest := Some(text), contentHash := Some("sha256:" + sha(text)))]);
      return None;
    }

    method StorePlan(t: nat, number: int)
      requires t < |db.targets|
      modifies this
      ensures db == PlanStored(old(db), t, number)
    {
      var row := db.targets[t];
      var text := WritePlan(number, row.key.1, row.val.kind, row.val.priority);
      db := db.(targets := db.targets[t := row.(val := row.val.(plan := Some(text)))]);
    }

    method RenderRollbackPlan(id: string, n: int) returns (r: Option<Error>)
      modifies this
      ensures r == Failure(old(db), RenderPlan(id, n)) && db == Effect(old(db), RenderPlan(id, n), sha)
    {
      var t := Find(db.targets, (id, n));
      if t == |db.targets| {
        return Some(NotFound);
      }
      var i := FindGeneration(db.generations, id);
      if i == |db.generations| {
        return Some(NotFound);
      }
      StorePlan(t, db.generations[i].number);
      return None;
    }
  }

  /** The plan's lines for its rollback kind, joined. */
  method WritePlan(source: int, target: int, kind: string, priority: int) returns (text: string)
    ensures text == PlanText(source, target, kind, priority)
  {
    var lines := PlanHeader(source, target, kind, priority) + Steps(kind);
    return JoinLines(lines) + "\n";
  }

  /** Appends one line per artifact, then the target section when there are targets. */
  method WriteManifest(g: Generation, artifacts: seq<ArtifactRow>, targets: seq<TargetRow>) returns (text: string)
    ensures text == ManifestText(g, artifacts, targets)
  {
    var lines := ManifestHeader(g);
    var body := Lines(ArtifactLine, artifacts);
    lines := lines + body;
    if targets != [] {
      var rows := Lines(TargetLine, targets);
      lines := lines + (["", "[rollback_targets]"] + rows);
    } else {
      assert lines + [] == lines;
    }
    text := JoinLines(lines) + "\n";
  }

  /** One line for each row. */
  method Lines<T>(line: T -> string, rows: seq<T>) returns (lines: seq<string>)
    ensures lines == Map(line, rows)
  {
    lines := [];
    var i := 0;
    while i < |rows|
      invariant 0 <= i <= |rows|
      invariant lines == Map(line, rows[..i])
    {
      lines := lines + [line(rows[i])];
      i := i + 1;
    }
    assert rows[..|rows|] == rows;
  }
}
