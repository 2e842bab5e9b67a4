/** Compliance profiles: policy setters, the three cached reports, and the vulnerability gate. */
module Compliance {
  import opened Wrappers
  import opened Ordering
  import opened Tables
  import opened TextLines

  datatype Profile = Profile(
    id: string,
    name: string,
    distribution: Option<string>,
    description: string,
    allowCopyleft: bool,
    allowProprietary: bool,
    threshold: string,
    requireSbom: bool,
    sbomText: Option<string>,
    vulnText: Option<string>,
    licenseText: Option<string>,
    contentHash: Option<string>)

  datatype Rule = Rule(policy: string, reason: Option<string>)
  datatype Gate = Gate(severity: string, action: string, package: Option<string>, version: Option<string>, reason: Option<string>)
  datatype Sbom = Sbom(spdx: Option<string>, purl: Option<string>, supplier: Option<string>, sourceUrl: Option<string>,
                       sourceAvailable: bool)

  /** Child rows are keyed by their profile and their unique columns. */
  datatype Db = Db(
    profiles: seq<Profile>,
    rules: Table<(string, string), Rule>,
    gates: Table<(string, string), Gate>,
    sboms: Table<(string, string, string), Sbom>)

  datatype Error = NotFound | Duplicate | InvalidValue

  predicate ValidThreshold(s: string) {
    s == "none" || s == "info" || s == "low" || s == "medium" || s == "high" || s == "critical"
  }

  predicate ValidSeverity(s: string) {
    s == "critical" || s == "high" || s == "medium" || s == "low" || s == "info"
  }

  predicate ValidAction(s: string) {
    s == "block" || s == "warn" || s == "ignore"
  }

  predicate ValidPolicy(s: string) {
    s == "allow" || s == "deny" || s == "warn"
  }

  /** Smaller is more severe; "none" ranks below every severity. */
  function SeverityRank(s: string, unknown: nat): nat {
    if s == "critical" then 0
    else if s == "high" then 1
    else if s == "medium" then 2
    else if s == "low" then 3
    else if s == "info" then 4
    else if s == "none" then 5
    else unknown
  }

  // ---------------------------------------------------------------------
  // Rows of one profile, in report order
  // ---------------------------------------------------------------------

  type GateRow = Row<(string, string), Gate>
  type RuleRow = Row<(string, string), Rule>
  type SbomRow = Row<(string, string, string), Sbom>

  predicate GateOrder(a: GateRow, b: GateRow) {
    StrLeq(a.key.1, b.key.1)
  }

  predicate RuleOrder(a: RuleRow, b: RuleRow) {
    StrLeq(a.key.1, b.key.1)
  }

  predicate SbomOrder(a: SbomRow, b: SbomRow) {
    if a.key.1 == b.key.1 then StrLeq(a.key.2, b.key.2) else StrLeq(a.key.1, b.key.1)
  }

  function GateOf(profile: string): GateRow -> bool { (r: GateRow) => r.key.0 == profile }
  function RuleOf(profile: string): RuleRow -> bool { (r: RuleRow) => r.key.0 == profile }
  function SbomOf(profile: string): SbomRow -> bool { (r: SbomRow) => r.key.0 == profile }

  function GatesOf(db: Db, profile: string): seq<GateRow> {
    SortBy(Filter(db.gates, GateOf(profile)), GateOrder)
  }

  function RulesOf(db: Db, profile: string): seq<RuleRow> {
    SortBy(Filter(db.rules, RuleOf(profile)), RuleOrder)
  }

  function SbomsOf(db: Db, profile: string): seq<SbomRow> {
    SortBy(Filter(db.sboms, SbomOf(profile)), SbomOrder)
  }

  // ---------------------------------------------------------------------
  // The SBOM document
  // ---------------------------------------------------------------------

  function OptionalLine(prefix: string, s: Option<string>): seq<string> {
    if Truthy(s) then [prefix + s.value] else []
  }

  function SbomEntryLines(e: SbomRow): seq<string> {
    ["PackageName: " + e.key.1, "PackageVersion: " + e.key.2]
      + OptionalLine("PackageLicenseDeclared: ", e.val.spdx)
      + OptionalLine("ExternalRef: PACKAGE-MANAGER purl ", e.val.purl)
      + OptionalLine("PackageSupplier: ", e.val.supplier)
      + OptionalLine("PackageDownloadLocation: ", e.val.sourceUrl)
      + ["FilesAnalyzed: " + (if e.val.sourceAvailable then "YES" else "NO"), ""]
  }

  function SbomLines(es: seq<SbomRow>): seq<string> {
    Concat(SbomEntryLines, es)
  }

  function SbomHeader(p: Profile): seq<string> {
    ["SPDXVersion: SPDX-2.3", "DataLicense: CC0-1.0", "SPDXID: SPDXRef-DOCUMENT", "DocumentName: " + p.name,
     "DocumentNamespace: urn:osfabricum:compliance:" + p.id, "", "## Packages", ""]
  }

  function SbomReport(p: Profile, es: seq<SbomRow>): string {
    JoinLines(SbomHeader(p) + SbomLines(es))
  }

  // ---------------------------------------------------------------------
  // The vulnerability gate
  // ---------------------------------------------------------------------

  /** A gate stops the build when its action says so and its severity reaches the threshold. */
  predicate Blocks(g: GateRow, threshold: string) {
    g.val.action == "block" && SeverityRank(g.val.severity, 99) <= SeverityRank(threshold, 0)
  }

  function BlockingGate(threshold: string): GateRow -> bool { (g: GateRow) => Blocks(g, threshold) }
  function WarningGate(): GateRow -> bool { (g: GateRow) => g.val.action == "warn" }

  function CveIds(gs: seq<GateRow>): seq<string> {
    seq(|gs|, i requires 0 <= i < |gs| => gs[i].key.1)
  }

  /** The CVEs that stop the build, in CVE order. */
  function Blocked(gs: seq<GateRow>, threshold: string): seq<string> {
    CveIds(Filter(gs, BlockingGate(threshold)))
  }

  function Warned(gs: seq<GateRow>): seq<string> {
    CveIds(Filter(gs, WarningGate()))
  }

  /** The printed action is the upper-case action, whether or not the gate blocks. */
  function Status(action: string): string {
    if action == "block" then "BLOCK" else if action == "warn" then "WARN" else if action == "ignore" then "IGNORE" else Upper(action)
  }

  function Upper(s: string): string {
    seq(|s|, i requires 0 <= i < |s| =>
      if 'a' <= s[i] <= 'z' then (s[i] as int - 32) as char else s[i])
  }

  function GateLine(g: GateRow, status: string): string {
    g.key.1 + "  severity=" + g.val.severity + "  action=" + status
      + (if !Truthy(g.val.package) then ""
         else " (" + g.val.package.value + (if Truthy(g.val.version) then " " + g.val.version.value else "") + ")")
      + (if Truthy(g.val.reason) then " \U{2014} " + g.val.reason.value else "")
  }

  function GateLines(gs: seq<GateRow>): seq<string> {
    seq(|gs|, i requires 0 <= i < |gs| => GateLine(gs[i], Status(gs[i].val.action)))
  }

  function VulnHeader(threshold: string): seq<string> {
    ["## Vulnerability Gate Report", "# block-threshold: " + threshold, ""]
  }

  function VulnSummary(blocked: seq<string>, warned: seq<string>): seq<string> {
    ["", "# blocked: " + Decimal(|blocked|) + "  warned: " + Decimal(|warned|)]
  }

  /** The closing lines; the last one appears only when something blocks. */
  function VulnFooter(blocked: seq<string>, warned: seq<string>): seq<string> {
    if blocked != [] then VulnSummary(blocked, warned) + ["# BUILD BLOCKED by: " + JoinComma(blocked)]
    else VulnSummary(blocked, warned)
  }

  function VulnReport(p: Profile, gs: seq<GateRow>): string {
    JoinLines(VulnHeader(p.threshold) + GateLines(gs) + VulnFooter(Blocked(gs, p.threshold), Warned(gs)))
  }

  // ---------------------------------------------------------------------
  // The license report
  // ---------------------------------------------------------------------

  function LicenseId(e: SbomRow): string {
    if Truthy(e.val.spdx) then e.val.spdx.value else "LicenseRef-Unknown"
  }

  /** The policy of the last rule for a license, if any. */
  function PolicyOf(rules: seq<RuleRow>, spdx: string): Option<string> {
    if rules == [] then None
    else if rules[|rules| - 1].key.1 == spdx then Some(rules[|rules| - 1].val.policy)
    else PolicyOf(rules[..|rules| - 1], spdx)
  }

  function PolicyIs(rules: seq<RuleRow>, policy: string): SbomRow -> bool {
    (e: SbomRow) => PolicyOf(rules, LicenseId(e)) == Some(policy)
  }

  function LicenseNames(es: seq<SbomRow>): seq<string> {
    seq(|es|, i requires 0 <= i < |es| => es[i].key.1 + ":" + LicenseId(es[i]))
  }

  function Verdict(policy: Option<string>): string {
    if policy == Some("deny") then "FAIL" else if policy == Some("warn") then "WARN" else "PASS"
  }

  function LicenseLine(e: SbomRow, verdict: string): string {
    e.key.1 + "@" + e.key.2 + "  license=" + LicenseId(e) + "  verdict=" + verdict
  }

  function LicenseLines(es: seq<SbomRow>, rules: seq<RuleRow>): seq<string> {
    seq(|es|, i requires 0 <= i < |es| => LicenseLine(es[i], Verdict(PolicyOf(rules, LicenseId(es[i])))))
  }

  function Flag(b: bool): string {
    if b then "True" else "False"
  }

  /** The flag line after its label. */
  function FlagText(copyleft: bool, proprietary: bool): string {
    Flag(copyleft) + "  allow-proprietary=" + Flag(proprietary)
  }

  function LicenseHeader(copyleft: bool, proprietary: bool): seq<string> {
    ["## License Compliance Report", "# allow-copyleft=" + FlagText(copyleft, proprietary), ""]
  }

  function LicenseSummary(failures: seq<string>, warnings: seq<string>): seq<string> {
    ["", "# failures: " + Decimal(|failures|) + "  warnings: " + Decimal(|warnings|)]
  }

  function LicenseFooter(failures: seq<string>, warnings: seq<string>): seq<string> {
    if failures != [] then LicenseSummary(failures, warnings) + ["# LICENSE DENIED: " + JoinComma(failures)]
    else LicenseSummary(failures, warnings)
  }

  /** Denied licenses, in package order. */
  function Failures(es: seq<SbomRow>, rules: seq<RuleRow>): seq<string> {
    LicenseNames(Filter(es, PolicyIs(rules, "deny")))
  }

  function Warnings(es: seq<SbomRow>, rules: seq<RuleRow>): seq<string> {
    LicenseNames(Filter(es, PolicyIs(rules, "warn")))
  }

  function LicenseReport(p: Profile, es: seq<SbomRow>, rules: seq<RuleRow>): string {
    JoinLines(LicenseHeader(p.allowCopyleft, p.allowProprietary) + LicenseLines(es, rules)
              + LicenseFooter(Failures(es, rules), Warnings(es, rules)))
  }

  // ---------------------------------------------------------------------
  // Coherence of the cache
  // ---------------------------------------------------------------------

  function Digest(sha: string -> string, sbom: string, vuln: string, license: string): string {
    "sha256:" + sha(JoinLines([sbom, vuln, license]))
  }

  function Rendered(db: Db, p: Profile, sha: string -> string): Profile {
    var sbom := SbomReport(p, SbomsOf(db, p.id));
    var vuln := VulnReport(p, GatesOf(db, p.id));
    var license := LicenseReport(p, SbomsOf(db, p.id), RulesOf(db, p.id));
    p.(sbomText := Some(sbom), vulnText := Some(vuln), licenseText := Some(license),
       contentHash := Some(Digest(sha, sbom, vuln, license)))
  }

  /** A profile that carries a hash carries exactly what a fresh rendering would store. */
  predicate CoherentProfile(db: Db, p: Profile, sha: string -> string) {
    p.contentHash.Some? ==> p == Rendered(db, p, sha)
  }

  ghost predicate Coherent(db: Db, sha: string -> string) {
    forall i :: 0 <= i < |db.profiles| ==> CoherentProfile(db, db.profiles[i], sha)
  }

  /** Profile ids, (profile, license), (profile, CVE) and (profile, package, version) are unique, and stored
      thresholds are valid ones. */
  ghost predicate Valid(db: Db) {
    && (forall i, j :: 0 <= i < j < |db.profiles| ==> db.profiles[i].id != db.profiles[j].id)
    && (forall i :: 0 <= i < |db.profiles| ==> ValidThreshold(db.profiles[i].threshold))
    && DistinctKeys(db.rules) && DistinctKeys(db.gates) && DistinctKeys(db.sboms)
  }

  /** (distribution, name) is unique among profiles that belong to a distribution. */
  ghost predicate UniqueNames(db: Db) {
    forall i, j :: 0 <= i < j < |db.profiles| && db.profiles[i].distribution.Some? ==>
      db.profiles[i].distribution != db.profiles[j].distribution || db.profiles[i].name != db.profiles[j].name
  }

  function FindProfile(profiles: seq<Profile>, id: string): (i: nat)
    ensures i <= |profiles|
    ensures i < |profiles| ==> profiles[i].id == id
    ensures i == |profiles| ==> forall j :: 0 <= j < |profiles| ==> profiles[j].id != id
  {
    if profiles == [] then 0 else if profiles[0].id == id then 0 else 1 + FindProfile(profiles[1..], id)
  }

  // ---------------------------------------------------------------------
  // Field updates
  // ---------------------------------------------------------------------

  datatype Change =
    | SetName(name: string)
    | SetDescription(description: string)
    | SetCopyleft(copyleft: bool)
    | SetProprietary(proprietary: bool)
    | SetThreshold(threshold: string)
    | SetRequireSbom(requireSbom: bool)
    | SetUnknownField(field: string)

  predicate Accepted(c: Change) {
    !c.SetUnknownField? && (c.SetThreshold? ==> ValidThreshold(c.threshold))
  }

  function Apply(p: Profile, c: Change): Profile {
    match c
    case SetName(s) => p.(name := s)
    case SetDescription(s) => p.(description := s)
    case SetCopyleft(b) => p.(allowCopyleft := b)
    case SetProprietary(b) => p.(allowProprietary := b)
    case SetThreshold(s) => p.(threshold := s)
    case SetRequireSbom(b) => p.(requireSbom := b)
    case SetUnknownField(_) => p
  }

  lemma ApplyNext(p: Profile, cs: seq<Change>, n: nat)
    requires n < |cs|
    ensures ApplyAll(p, cs[..n + 1]) == Apply(ApplyAll(p, cs[..n]), cs[n])
  {
    assert cs[..n + 1][..n] == cs[..n];
  }

  function ApplyAll(p: Profile, cs: seq<Change>): Profile {
    if cs == [] then p else Apply(ApplyAll(p, cs[..|cs| - 1]), cs[|cs| - 1])
  }

  /** The changes before the first one that is refused. */
  function AcceptedPrefix(cs: seq<Change>): (n: nat)
    ensures n <= |cs|
    ensures forall i :: 0 <= i < n ==> Accepted(cs[i])
    ensures n < |cs| ==> !Accepted(cs[n])
  {
    if cs == [] || !Accepted(cs[0]) then 0 else 1 + AcceptedPrefix(cs[1..])
  }

  // ---------------------------------------------------------------------
  // The operations, as effects on the session
  // ---------------------------------------------------------------------

  datatype Op =
    | Create(id: string, name: string, distribution: Option<string>, description: string, copyleft: bool, proprietary: bool,
             threshold: string, requireSbom: bool)
    | Update(id: string, changes: seq<Change>)
    | PutRule(id: string, spdx: string, rule: Rule)
    | PutGate(id: string, cve: string, gate: Gate)
    | PutSbom(id: string, package: string, version: string, sbom: Sbom)
    | Render(id: string)

  predicate NameTaken(profiles: seq<Profile>, distribution: Option<string>, name: string) {
    exists i :: 0 <= i < |profiles| && profiles[i].distribution == distribution && profiles[i].name == name
  }

  /** The unique constraint on (distribution, name) refuses `p` in place of the i-th profile; rows without
      a distribution never clash. */
  predicate Clashes(profiles: seq<Profile>, i: nat, p: Profile) {
    p.distribution.Some? &&
    exists j :: 0 <= j < |profiles| && j != i && profiles[j].distribution == p.distribution && profiles[j].name == p.name
  }

  /** `None` when the call succeeds. */
  function Failure(db: Db, op: Op): Option<Error> {
    match op
    case Create(_, name, dist, _, _, _, threshold, _) =>
      if !ValidThreshold(threshold) then Some(InvalidValue)
      else if NameTaken(db.profiles, dist, name) then Some(Duplicate)
      else None
    case Update(id, cs) =>
      if FindProfile(db.profiles, id) == |db.profiles| then Some(NotFound)
      else if AcceptedPrefix(cs) < |cs| then Some(InvalidValue)
      else
        var i := FindProfile(db.profiles, id);
        if Clashes(db.profiles, i, ApplyAll(db.profiles[i], cs)) then Some(Duplicate) else None
    case PutRule(id, _, rule) =>
      if !ValidPolicy(rule.policy) then Some(InvalidValue)
      else if FindProfile(db.profiles, id) == |db.profiles| then Some(NotFound)
      else None
    case PutGate(id, _, gate) =>
      if !ValidSeverity(gate.severity) || !ValidAction(gate.action) then Some(InvalidValue)
      else if FindProfile(db.profiles, id) == |db.profiles| then Some(NotFound)
      else None
    case PutSbom(id, _, _, _) =>
      if FindProfile(db.profiles, id) == |db.profiles| then Some(NotFound) else None
    case Render(id) =>
      if FindProfile(db.profiles, id) == |db.profiles| then Some(NotFound) else None
  }

  function Invalidated(profiles: seq<Profile>, id: string): seq<Profile> {
    var i := FindProfile(profiles, id);
    if i < |profiles| then profiles[i := profiles[i].(contentHash := None)] else profiles
  }

  /** What the session holds after the call, failed or not. A clash surfaces when the session writes its
      changes, and rolls the call back. */
  function Effect(db: Db, op: Op, sha: string -> string): Db {
    match op
    case Create(id, name, dist, description, copyleft, proprietary, threshold, sbom) =>
      if Failure(db, op).Some? then db
      else db.(profiles := db.profiles + [Profile(id, name, dist, description, copyleft, proprietary, threshold, sbom,
                                                  None, None, None, None)])
    case Update(id, cs) =>
      var i := FindProfile(db.profiles, id);
      var n := AcceptedPrefix(cs);
      if i == |db.profiles| then db
      else if n < |cs| then db.(profiles := db.profiles[i := ApplyAll(db.profiles[i], cs[..n])])
      else if Clashes(db.profiles, i, ApplyAll(db.profiles[i], cs)) then db
      else db.(profiles := db.profiles[i := ApplyAll(db.profiles[i], cs).(contentHash := None)])
    case PutRule(id, spdx, rule) =>
      if Failure(db, op).Some? then db
      else db.(rules := Put(db.rules, Blank, (id, spdx), rule, Replace), profiles := Invalidated(db.profiles, id))
    case PutGate(id, cve, gate) =>
      if Failure(db, op).Some? then db
      else db.(gates := Put(db.gates, Blank, (id, cve), gate, Replace), profiles := Invalidated(db.profiles, id))
    case PutSbom(id, package, version, sbom) =>
      if Failure(db, op).Some? then db
      else db.(sboms := Put(db.sboms, Blank, (id, package, version), sbom, Replace), profiles := Invalidated(db.profiles, id))
    case Render(id) =>
      var i := FindProfile(db.profiles, id);
      if i == |db.profiles| then db
      else db.(profiles := db.profiles[i := Rendered(db, db.profiles[i], sha)])
  }

  // ---------------------------------------------------------------------
  // The session
  // ---------------------------------------------------------------------

  class Session {
    const sha: string -> string
    var db: Db

    constructor (sha: string -> string, db: Db)
      ensures this.sha == sha && this.db == db
    {
      this.sha := sha;
      this.db := db;
    }

    method CreateProfile(id: string, name: string, distribution: Option<string>, description: string, copyleft: bool,
                         proprietary: bool, threshold: string, requireSbom: bool)
      returns (r: Option<Error>)
      modifies this
      ensures var op := Create(id, name, distribution, description, copyleft, proprietary, threshold, requireSbom);
        r == Failure(old(db), op) && db == Effect(old(db), op, sha)
    {
      if !ValidThreshold(threshold) {
        return Some(InvalidValue);
      }
      if NameTaken(db.profiles, distribution, name) {
        return Some(Duplicate);
      }
      db := db.(profiles := db.profiles + [Profile(id, name, distribution, description, copyleft, proprietary, threshold,
                                                   requireSbom, None, None, None, None)]);
      return None;
    }

    /** Fields are set one after the other, up to the first refused one. */
    method SetFields(i: nat, changes: seq<Change>) returns (accepted: bool)
      requires i < |db.profiles|
      modifies this
      ensures accepted <==> AcceptedPrefix(changes) == |changes|
      ensures db == old(db).(profiles :=
        old(db).profiles[i := ApplyAll(old(db).profiles[i], changes[..AcceptedPrefix(changes)])])
    {
      ghost var was, limit := db, AcceptedPrefix(changes);
      var n := 0;
      assert db.profiles[i := ApplyAll(was.profiles[i], changes[..0])] == db.profiles;
      while n < |changes|
        invariant 0 <= n <= limit
        invariant db == was.(profiles := was.profiles[i := ApplyAll(was.profiles[i], changes[..n])])
      {
        var c := changes[n];
        if !Accepted(c) {
          return false;
        }
        ApplyNext(was.profiles[i], changes, n);
        db := db.(profiles := db.profiles[i := Apply(db.profiles[i], c)]);
        n := n + 1;
      }
      return true;
    }

    /** A refused field ends the call before the hash is cleared. */
    method UpdateProfile(id: string, changes: seq<Change>) returns (r: Option<Error>)
      modifies this
      ensures r == Failure(old(db), Update(id, changes)) && db == Effect(old(db), Update(id, changes), sha)
    {
      var i := FindProfile(db.profiles, id);
      if i == |db.profiles| {
        return Some(NotFound);
      }
      var was := db;
      var accepted := SetFields(i, changes);
      if !accepted {
        return Some(InvalidValue);
      }
      assert changes[..|changes|] == changes;
      if Clashes(was.profiles, i, db.profiles[i]) {
        db := was;
        return Some(Duplicate);
      }
      db := db.(profiles := db.profiles[i := db.profiles[i].(contentHash := None)]);
      return None;
    }

    /** The profile with key `id` carries no hash any more; everything else is as before. */
    method Invalidate(id: string)
      modifies this
      ensures db == old(db).(profiles := db.profiles) && |db.profiles| == |old(db).profiles|
      ensures forall j :: 0 <= j < |db.profiles| && j != FindProfile(old(db).profiles, id) ==>
        db.profiles[j] == old(db).profiles[j]
      ensures var i := FindProfile(old(db).profiles, id); i < |db.profiles| ==>
        db.profiles[i].contentHash.None? && db.profiles[i] == old(db).profiles[i].(contentHash := None)
    {
      var i := FindProfile(db.profiles, id);
      if i < |db.profiles| {
        db := db.(profiles := db.profiles[i := db.profiles[i].(contentHash := None)]);
      }
    }

    method SetLicenseRule(id: string, spdx: string, rule: Rule) returns (r: Option<Error>)
      modifies this
      ensures r == Failure(old(db), PutRule(id, spdx, rule)) && db == Effect(old(db), PutRule(id, spdx, rule), sha)
    {
      if !ValidPolicy(rule.policy) {
        return Some(InvalidValue);
      }
      if FindProfile(db.profiles, id) == |db.profiles| {
        return Some(NotFound);
      }
      var at := Find(db.rules, (id, spdx));
      if at < |db.rules| {
        db := db.(rules := db.rules[at := db.rules[at].(val := rule)]);
      } else {
        db := db.(rules := db.rules + [Row(Blank, (id, spdx), rule)]);
      }
      ghost var was := db;
      Invalidate(id);
      assert db.profiles == Invalidated(was.profiles, id);
      return None;
    }

    method SetVulnGate(id: string, cve: string, gate: Gate) returns (r: Option<Error>)
      modifies this
      ensures r == Failure(old(db), PutGate(id, cve, gate)) && db == Effect(old(db), PutGate(id, cve, gate), sha)
    {
      if !ValidSeverity(gate.severity) {
        return Some(InvalidValue);
      }
      if !ValidAction(gate.action) {
        return Some(InvalidValue);
      }
      if FindProfile(db.profiles, id) == |db.profiles| {
        return Some(NotFound);
      }
      var at := Find(db.gates, (id, cve));
      if at < |db.gates| {
        db := db.(gates := db.gates[at := db.gates[at].(val := gate)]);
      } else {
        db := db.(gates := db.gates + [Row(Blank, (id, cve), gate)]);
      }
      ghost var was := db;
      Invalidate(id);
      assert db.profiles == Invalidated(was.profiles, id);
      return None;
    }

    method AddSbomEntry(id: string, package: string, version: string, sbom: Sbom) returns (r: Option<Error>)
      modifies this
      ensures r == Failure(old(db), PutSbom(id, package, version, sbom))
      ensures db == Effect(old(db), PutSbom(id, package, version, sbom), sha)
    {
      if FindProfile(db.profiles, id) == |db.profiles| {
        return Some(NotFound);
      }
      var at := Find(db.sboms, (id, package, version));
      if at < |db.sboms| {
        db := db.(sboms := db.sboms[at := db.sboms[at].(val := sbom)]);
      } else {
        db := db.(sboms := db.sboms + [Row(Blank, (id, package, version), sbom)]);
      }
      ghost var was := db;
      Invalidate(id);
      assert db.profiles == Invalidated(was.profiles, id);
      return None;
    }

    method RenderReport(id: string) returns (r: Option<Error>)
      modifies this
      ensures r == Failure(old(db), Render(id)) && db == Effect(old(db), Render(id), sha)
    {
      var i := FindProfile(db.profiles, id);
      if i == |db.profiles| {
        return Some(NotFound);
      }
      var p := db.profiles[i];
      var entries := SbomsOf(db, id);
      var gates := GatesOf(db, id);
      var rules := RulesOf(db, id);
      var sbom := RenderSbom(p, entries);
      var vuln := RenderVulnReport(p, gates);
      var license := RenderLicenseReport(p, entries, rules);
      GatesSortedAgain(db, id);
      db := db.(profiles := db.profiles[i := p.(sbomText := Some(sbom), vulnText := Some(vuln), licenseText := Some(license),
                                                contentHash := Some(Digest(sha, sbom, vuln, license)))]);
      return None;
    }
  }

  // ---------------------------------------------------------------------
  // The report writers
  // ---------------------------------------------------------------------

  /** A labelled line, if there is something to show. */
  method AppendOptional(lines: seq<string>, label_: string, value: Option<string>) returns (r: seq<string>)
    ensures r == lines + OptionalLine(label_, value)
  {
    r := lines;
    if Truthy(value) {
      r := r + [label_ + value.value];
    }
  }

  method SbomEntry(e: SbomRow) returns (entry: seq<string>)
    ensures entry == SbomEntryLines(e)
  {
    entry := ["PackageName: " + e.key.1, "PackageVersion: " + e.key.2];
    entry := AppendOptional(entry, "PackageLicenseDeclared: ", e.val.spdx);
    entry := AppendOptional(entry, "ExternalRef: PACKAGE-MANAGER purl ", e.val.purl);
    entry := AppendOptional(entry, "PackageSupplier: ", e.val.supplier);
    entry := AppendOptional(entry, "PackageDownloadLocation: ", e.val.sourceUrl);
    entry := entry + ["FilesAnalyzed: " + (if e.val.sourceAvailable then "YES" else "NO"), ""];
  }

  method SbomBody(entries: seq<SbomRow>) returns (lines: seq<string>)
    ensures lines == SbomLines(entries)
  {
    lines := [];
    var i := 0;
    while i < |entries|
      invariant 0 <= i <= |entries|
      invariant lines == SbomLines(entries[..i])
    {
      var entry := SbomEntry(entries[i]);
      assert entries[..i + 1][..i] == entries[..i];
      lines := lines + entry;
      i := i + 1;
    }
    assert entries[..|entries|] == entries;
  }

  method RenderSbom(p: Profile, entries: seq<SbomRow>) returns (text: string)
    ensures text == SbomReport(p, entries)
  {
    var body := SbomBody(entries);
    text := JoinLines(SbomHeader(p) + body);
  }

  lemma CvesNext(gs: seq<GateRow>, i: nat, p: GateRow -> bool)
    requires i < |gs|
    ensures CveIds(Filter(gs[..i + 1], p)) == CveIds(Filter(gs[..i], p)) + (if p(gs[i]) then [gs[i].key.1] else [])
  {
    var kept := Filter(gs[..i], p);
    FilterNext(gs, i, p);
    assert CveIds(kept + [gs[i]]) == CveIds(kept) + [gs[i].key.1];
    assert CveIds(kept) + [] == CveIds(kept);
  }

  lemma GatesNext(gs: seq<GateRow>, i: nat, threshold: string)
    requires i < |gs|
    ensures var g := gs[i];
      && GateLines(gs[..i + 1]) == GateLines(gs[..i]) + [GateLine(g, Status(g.val.action))]
      && Blocked(gs[..i + 1], threshold) == Blocked(gs[..i], threshold) + (if Blocks(g, threshold) then [g.key.1] else [])
      && Warned(gs[..i + 1]) == Warned(gs[..i]) + (if g.val.action == "warn" then [g.key.1] else [])
  {
    GateLinesNext(gs, i);
    CvesNext(gs, i, BlockingGate(threshold));
    CvesNext(gs, i, WarningGate());
  }

  lemma GateLinesNext(gs: seq<GateRow>, i: nat)
    requires i < |gs|
    ensures GateLines(gs[..i + 1]) == GateLines(gs[..i]) + [GateLine(gs[i], Status(gs[i].val.action))]
  {
  }

  /** Collects the blocked and warned CVEs while writing one line per gate. */
  method RenderVulnReport(p: Profile, rows: seq<GateRow>) returns (text: string)
    ensures text == VulnReport(p, SortBy(rows, GateOrder))
  {
    var gates := SortBy(rows, GateOrder);
    var lines, blocked, warned := JudgeGates(gates, p.threshold);
    lines := VulnHeader(p.threshold) + lines + VulnSummary(blocked, warned);
    if blocked != [] {
      lines := lines + ["# BUILD BLOCKED by: " + JoinComma(blocked)];
    }
    assert lines == VulnHeader(p.threshold) + GateLines(gates) + VulnFooter(blocked, warned);
    text := JoinLines(lines);
  }

  /** One line per gate, collecting blocked and warned CVEs. */
  method JudgeGates(gates: seq<GateRow>, threshold: string) returns (lines: seq<string>, blocked: seq<string>, warned: seq<string>)
    ensures lines == GateLines(gates) && blocked == Blocked(gates, threshold) && warned == Warned(gates)
  {
    var rank := SeverityRank(threshold, 0);
    lines, blocked, warned := [], [], [];
    var i := 0;
    while i < |gates|
      invariant 0 <= i <= |gates|
      invariant lines == GateLines(gates[..i])
      invariant blocked == Blocked(gates[..i], threshold)
      invariant warned == Warned(gates[..i])
    {
      var g := gates[i];
      var autoBlocked := SeverityRank(g.val.severity, 99) <= rank && g.val.action != "ignore";
      var status := Status(g.val.action);
      GatesNext(gates, i, threshold);
      if autoBlocked && g.val.action == "block" {
        status := "BLOCK";
        blocked := blocked + [g.key.1];
      } else if g.val.action == "warn" {
        warned := warned + [g.key.1];
        status := "WARN";
      } else if g.val.action == "ignore" {
        status := "IGNORE";
      }
      lines := lines + [GateLine(g, status)];
      i := i + 1;
    }
    assert gates[..|gates|] == gates;
  }

  /** The rule table as a dictionary; a later rule for the same license would win. */
  method RuleMap(rules: seq<RuleRow>) returns (ruleMap: map<string, string>)
    ensures forall s :: (if s in ruleMap then Some(ruleMap[s]) else None) == PolicyOf(rules, s)
  {
    ruleMap := map[];
    var k := 0;
    while k < |rules|
      invariant 0 <= k <= |rules|
      invariant forall s :: (if s in ruleMap then Some(ruleMap[s]) else None) == PolicyOf(rules[..k], s)
    {
      assert rules[..k + 1][..k] == rules[..k];
      ruleMap := ruleMap[rules[k].key.1 := rules[k].val.policy];
      k := k + 1;
    }
    assert rules[..|rules|] == rules;
  }

  lemma MatchesNext(es: seq<SbomRow>, rules: seq<RuleRow>, i: nat, policy: string)
    requires i < |es|
    ensures LicenseNames(Filter(es[..i + 1], PolicyIs(rules, policy)))
         == LicenseNames(Filter(es[..i], PolicyIs(rules, policy)))
            + (if PolicyOf(rules, LicenseId(es[i])) == Some(policy) then [es[i].key.1 + ":" + LicenseId(es[i])] else [])
  {
    var before := Filter(es[..i], PolicyIs(rules, policy));
    FilterNext(es, i, PolicyIs(rules, policy));
    assert LicenseNames(before + [es[i]]) == LicenseNames(before) + [es[i].key.1 + ":" + LicenseId(es[i])];
    assert LicenseNames(before) + [] == LicenseNames(before);
  }

  lemma LinesNext(es: seq<SbomRow>, rules: seq<RuleRow>, i: nat)
    requires i < |es|
    ensures LicenseLines(es[..i + 1], rules)
         == LicenseLines(es[..i], rules) + [LicenseLine(es[i], Verdict(PolicyOf(rules, LicenseId(es[i]))))]
  {
  }

  predicate Judged(es: seq<SbomRow>, rules: seq<RuleRow>, lines: seq<string>, failures: seq<string>, warnings: seq<string>) {
    lines == LicenseLines(es, rules) && failures == Failures(es, rules) && warnings == Warnings(es, rules)
  }

  lemma JudgedNext(es: seq<SbomRow>, rules: seq<RuleRow>, i: nat, lines: seq<string>, failures: seq<string>, warnings: seq<string>)
    requires i < |es| && Judged(es[..i], rules, lines, failures, warnings)
    ensures var policy, name := PolicyOf(rules, LicenseId(es[i])), es[i].key.1 + ":" + LicenseId(es[i]);
      Judged(es[..i + 1], rules, lines + [LicenseLine(es[i], Verdict(policy))],
             if policy == Some("deny") then failures + [name] else failures,
             if policy == Some("warn") then warnings + [name] else warnings)
  {
    LinesNext(es, rules, i);
    MatchesNext(es, rules, i, "deny");
    MatchesNext(es, rules, i, "warn");
  }

  /** One line per entry, collecting denied and questionable licenses. */
  method JudgeEntries(entries: seq<SbomRow>, rules: seq<RuleRow>) returns (lines: seq<string>, failures: seq<string>, warnings: seq<string>)
    ensures lines == LicenseLines(entries, rules)
    ensures failures == Failures(entries, rules)
    ensures warnings == Warnings(entries, rules)
  {
    var ruleMap := RuleMap(rules);
    lines, failures, warnings := [], [], [];
    var i := 0;
    while i < |entries|
      invariant 0 <= i <= |entries|
      invariant Judged(entries[..i], rules, lines, failures, warnings)
    {
      var e := entries[i];
      var spdx := LicenseId(e);
      var policy := if spdx in ruleMap then Some(ruleMap[spdx]) else None;
      assert policy == PolicyOf(rules, spdx);
      JudgedNext(entries, rules, i, lines, failures, warnings);
      if policy == Some("deny") {
        failures := failures + [e.key.1 + ":" + spdx];
      } else if policy == Some("warn") {
        warnings := warnings + [e.key.1 + ":" + spdx];
      }
      lines := lines + [LicenseLine(e, Verdict(policy))];
      i := i + 1;
    }
    assert entries[..|entries|] == entries;
  }

  method RenderLicenseReport(p: Profile, entries: seq<SbomRow>, rules: seq<RuleRow>) returns (text: string)
    ensures text == LicenseReport(p, entries, rules)
  {
    var body, failures, warnings := JudgeEntries(entries, rules);
    var lines := LicenseHeader(p.allowCopyleft, p.allowProprietary) + body;
    var footer := LicenseSummary(failures, warnings);
    if failures != [] {
      footer := footer + ["# LICENSE DENIED: " + JoinComma(failures)];
    }
    text := JoinLines(lines + footer);
  }

  lemma GateOrderIsTotal()
    ensures TotalPreorder(GateOrder)
  {
    forall x: GateRow, y: GateRow ensures GateOrder(x, y) || GateOrder(y, x) {
      StrLeqTotal(x.key.1, y.key.1);
    }
    forall x: GateRow, y: GateRow, z: GateRow | GateOrder(x, y) && GateOrder(y, z) ensures GateOrder(x, z) {
      StrLeqTransitive(x.key.1, y.key.1, z.key.1);
    }
  }

  /** Sorting the already ordered gates again changes nothing. */
  lemma GatesSortedAgain(db: Db, id: string)
    ensures SortBy(GatesOf(db, id), GateOrder) == GatesOf(db, id)
  {
    GateOrderIsTotal();
    SortSorts(Filter(db.gates, GateOf(id)), GateOrder);
    SortOfSorted(GatesOf(db, id), GateOrder);
  }
}
