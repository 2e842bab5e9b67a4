/** The compliance service in the words of its callers: what is refused, what is stored, what the reports say. */
module ComplianceReports {
  import opened Wrappers
  import opened Ordering
  import opened Tables
  import opened TextLines
  import opened Compliance

  // ---------------------------------------------------------------------
  // What is refused
  // ---------------------------------------------------------------------

  ghost predicate HasProfile(db: Db, id: string) {
    exists p :: p in db.profiles && p.id == id
  }

  lemma FindsProfile(db: Db, id: string)
    ensures FindProfile(db.profiles, id) < |db.profiles| <==> HasProfile(db, id)
  {
    var i := FindProfile(db.profiles, id);
    if i < |db.profiles| {
      assert db.profiles[i] in db.profiles;
    }
  }

  /** A new profile needs one of six thresholds, then a free name. */
  lemma CreateRefused(db: Db, op: Op)
    requires op.Create?
    ensures var valid := op.threshold in ["none", "info", "low", "medium", "high", "critical"];
      var taken := exists p :: p in db.profiles && p.distribution == op.distribution && p.name == op.name;
      Failure(db, op) == if !valid then Some(InvalidValue) else if taken then Some(Duplicate) else None
  {
    if p :| p in db.profiles && p.distribution == op.distribution && p.name == op.name {
      var i :| 0 <= i < |db.profiles| && db.profiles[i] == p;
    }
  }

  /** Child rows need one of the known words, then an existing profile. */
  lemma ChildRefused(db: Db, op: Op)
    requires op.PutRule? || op.PutGate? || op.PutSbom? || op.Render?
    ensures var valid :=
        && (op.PutRule? ==> op.rule.policy in ["allow", "deny", "warn"])
        && (op.PutGate? ==> op.gate.severity in ["critical", "high", "medium", "low", "info"])
        && (op.PutGate? ==> op.gate.action in ["block", "warn", "ignore"]);
      Failure(db, op) == if !valid then Some(InvalidValue) else if !HasProfile(db, op.id) then Some(NotFound) else None
  {
    FindsProfile(db, op.id);
  }

  /** An update needs an existing profile, then only known fields with valid thresholds. */
  lemma UpdateRefused(db: Db, op: Op)
    requires op.Update?
    ensures Failure(db, op) == Some(NotFound) <==> !HasProfile(db, op.id)
    ensures Failure(db, op) == Some(InvalidValue) <==> HasProfile(db, op.id) && exists c :: c in op.changes && Refused(c)
    ensures Failure(db, op) == Some(Duplicate) <==>
      HasProfile(db, op.id) && (forall c :: c in op.changes ==> !Refused(c)) &&
      var i := FindProfile(db.profiles, op.id);
      TakesName(db, i, ApplyAll(db.profiles[i], op.changes))
  {
    FindsProfile(db, op.id);
    var n := AcceptedPrefix(op.changes);
    if n < |op.changes| {
      assert op.changes[n] in op.changes && Refused(op.changes[n]);
    }
  }

  /** Another profile of the same distribution has the name. */
  ghost predicate TakesName(db: Db, i: nat, p: Profile) {
    p.distribution.Some? &&
    exists j :: 0 <= j < |db.profiles| && j != i && db.profiles[j].distribution == p.distribution && db.profiles[j].name == p.name
  }

  predicate Refused(c: Change) {
    c.SetUnknownField? || (c.SetThreshold? && c.threshold !in ["none", "info", "low", "medium", "high", "critical"])
  }

  // ---------------------------------------------------------------------
  // What is stored
  // ---------------------------------------------------------------------

  lemma CreateStores(db: Db, op: Op, sha: string -> string)
    requires op.Create? && Failure(db, op).None?
    ensures var end := Effect(db, op, sha);
      && end.rules == db.rules && end.gates == db.gates && end.sboms == db.sboms
      && |end.profiles| == |db.profiles| + 1 && end.profiles[..|db.profiles|] == db.profiles
      && var p := end.profiles[|db.profiles|];
         && p.id == op.id && p.name == op.name && p.distribution == op.distribution && p.description == op.description
         && p.allowCopyleft == op.copyleft && p.allowProprietary == op.proprietary
         && p.threshold == op.threshold && p.requireSbom == op.requireSbom
         && p.sbomText.None? && p.vulnText.None? && p.licenseText.None? && p.contentHash.None?
  {
  }

  /** Only the named field and the hash change. */
  lemma UpdateStores(db: Db, id: string, c: Change, sha: string -> string)
    requires Failure(db, Update(id, [c])).None?
    ensures var i, end := FindProfile(db.profiles, id), Effect(db, Update(id, [c]), sha);
      && i < |db.profiles| && end == db.(profiles := end.profiles) && |end.profiles| == |db.profiles|
      && (forall j :: 0 <= j < |db.profiles| && j != i ==> end.profiles[j] == db.profiles[j])
      && var p, q := db.profiles[i], end.profiles[i];
         && q.id == p.id && q.distribution == p.distribution
         && q.sbomText == p.sbomText && q.vulnText == p.vulnText && q.licenseText == p.licenseText && q.contentHash.None?
         && q.name == (if c.SetName? then c.name else p.name)
         && q.description == (if c.SetDescription? then c.description else p.description)
         && q.allowCopyleft == (if c.SetCopyleft? then c.copyleft else p.allowCopyleft)
         && q.allowProprietary == (if c.SetProprietary? then c.proprietary else p.allowProprietary)
         && q.threshold == (if c.SetThreshold? then c.threshold else p.threshold)
         && q.requireSbom == (if c.SetRequireSbom? then c.requireSbom else p.requireSbom)
  {
    var cs, i := [c], FindProfile(db.profiles, id);
    assert cs[..0] == [] && cs[1..] == [];
    assert AcceptedPrefix(cs[1..]) == 0;
    var p := db.profiles[i];
    ApplyNext(p, cs, 0);
    assert cs[..1] == cs && ApplyAll(p, cs[..0]) == p;
  }

  /** The profile has no hash any more; nothing else of it, and no other profile, has changed. */
  ghost predicate Unhashed(db: Db, end: Db, id: string) {
    && |end.profiles| == |db.profiles|
    && forall j :: 0 <= j < |db.profiles| ==>
         end.profiles[j] == if j == FindProfile(db.profiles, id) then db.profiles[j].(contentHash := None) else db.profiles[j]
  }

  lemma RuleStores(db: Db, id: string, spdx: string, rule: Rule, sha: string -> string)
    requires Failure(db, PutRule(id, spdx, rule)).None?
    ensures var end := Effect(db, PutRule(id, spdx, rule), sha);
      && ValueOf(end.rules, (id, spdx)) == Some(rule)
      && (forall k :: k != (id, spdx) ==> ValueOf(end.rules, k) == ValueOf(db.rules, k))
      && end.gates == db.gates && end.sboms == db.sboms && Unhashed(db, end, id)
  {
    PutStores(db.rules, Blank, (id, spdx), rule);
  }

  lemma GateStores(db: Db, id: string, cve: string, gate: Gate, sha: string -> string)
    requires Failure(db, PutGate(id, cve, gate)).None?
    ensures var end := Effect(db, PutGate(id, cve, gate), sha);
      && ValueOf(end.gates, (id, cve)) == Some(gate)
      && (forall k :: k != (id, cve) ==> ValueOf(end.gates, k) == ValueOf(db.gates, k))
      && end.rules == db.rules && end.sboms == db.sboms && Unhashed(db, end, id)
  {
    PutStores(db.gates, Blank, (id, cve), gate);
  }

  lemma SbomStores(db: Db, id: string, package: string, version: string, sbom: Sbom, sha: string -> string)
    requires Failure(db, PutSbom(id, package, version, sbom)).None?
    ensures var end := Effect(db, PutSbom(id, package, version, sbom), sha);
      && ValueOf(end.sboms, (id, package, version)) == Some(sbom)
      && (forall k :: k != (id, package, version) ==> ValueOf(end.sboms, k) == ValueOf(db.sboms, k))
      && end.rules == db.rules && end.gates == db.gates && Unhashed(db, end, id)
  {
    PutStores(db.sboms, Blank, (id, package, version), sbom);
  }

  // ---------------------------------------------------------------------
  // Which rows a report is about
  // ---------------------------------------------------------------------

  /** The gates of the profile in CVE order. */
  lemma GatesAre(db: Db, id: string)
    ensures var gs := GatesOf(db, id);
      && (forall g :: g in gs <==> g in db.gates && g.key.0 == id)
      && forall i, j :: 0 <= i < j < |gs| ==> StrLeq(gs[i].key.1, gs[j].key.1)
  {
    GateOrderIsTotal();
    SortedSelection(db.gates, GateOf(id), GateOrder);
  }

  /** The packages of the profile by name, then version. */
  lemma SbomsAre(db: Db, id: string)
    ensures var es := SbomsOf(db, id);
      && (forall e :: e in es <==> e in db.sboms && e.key.0 == id)
      && forall i, j :: 0 <= i < j < |es| ==>
           if es[i].key.1 == es[j].key.1 then StrLeq(es[i].key.2, es[j].key.2) else StrLeq(es[i].key.1, es[j].key.1)
  {
    SbomOrderIsTotal();
    SortedSelection(db.sboms, SbomOf(id), SbomOrder);
  }

  lemma RulesAre(db: Db, id: string)
    ensures var rs := RulesOf(db, id);
      && (forall r :: r in rs <==> r in db.rules && r.key.0 == id)
      && forall i, j :: 0 <= i < j < |rs| ==> StrLeq(rs[i].key.1, rs[j].key.1)
  {
    RuleOrderIsTotal();
    SortedSelection(db.rules, RuleOf(id), RuleOrder);
  }

  lemma SbomOrderIsTotal()
    ensures TotalPreorder(SbomOrder)
  {
    forall a: SbomRow, b: SbomRow ensures SbomOrder(a, b) || SbomOrder(b, a) {
      StrLeqTotal(a.key.1, b.key.1);
      StrLeqTotal(a.key.2, b.key.2);
    }
    forall a: SbomRow, b: SbomRow, c: SbomRow | SbomOrder(a, b) && SbomOrder(b, c) ensures SbomOrder(a, c) {
      PairOrderTransitive(a.key.1, a.key.2, b.key.1, b.key.2, c.key.1, c.key.2);
    }
  }

  lemma PairOrderTransitive(a: string, a': string, b: string, b': string, c: string, c': string)
    requires if a == b then StrLeq(a', b') else StrLeq(a, b)
    requires if b == c then StrLeq(b', c') else StrLeq(b, c)
    ensures if a == c then StrLeq(a', c') else StrLeq(a, c)
  {
    if a == b && b == c {
      StrLeqTransitive(a', b', c');
    } else if a != b && b != c {
      StrLeqTransitive(a, b, c);
      if a == c {
        StrLeqAntisymmetric(a, b);
      }
    }
  }

  lemma RuleOrderIsTotal()
    ensures TotalPreorder(RuleOrder)
  {
    forall a: RuleRow, b: RuleRow ensures RuleOrder(a, b) || RuleOrder(b, a) {
      StrLeqTotal(a.key.1, b.key.1);
    }
    forall a: RuleRow, b: RuleRow, c: RuleRow | RuleOrder(a, b) && RuleOrder(b, c) ensures RuleOrder(a, c) {
      StrLeqTransitive(a.key.1, b.key.1, c.key.1);
    }
  }

  // ---------------------------------------------------------------------
  // The gate, rank by rank
  // ---------------------------------------------------------------------

  /** Severities and thresholds, most severe first. */
  function Ranking(): seq<string> {
    ["critical", "high", "medium", "low", "info", "none"]
  }

  lemma RankIs(i: nat, unknown: nat)
    requires i < 6
    ensures SeverityRank(Ranking()[i], unknown) == i
  {
    var s := Ranking()[i];
    assert "critical"[0] == 'c' && "high"[0] == 'h' && "medium"[0] == 'm' && "low"[0] == 'l' && "info"[0] == 'i' && "none"[0] == 'n';
  }

  /** A gate blocks under a threshold exactly when its action is "block" and its severity is listed no later. */
  lemma BlocksByRank(g: GateRow, i: nat, j: nat)
    requires i < 6 && j < 6 && g.val.severity == Ranking()[i]
    ensures Blocked([g], Ranking()[j]) == if g.val.action == "block" && i <= j then [g.key.1] else []
  {
    RankIs(i, 99);
    RankIs(j, 0);
    assert [g][1..] == [];
    assert Filter([g], BlockingGate(Ranking()[j])) == if g.val.action == "block" && i <= j then [g] else [];
  }

  /** Blocked and warned CVEs are listed gate by gate. */
  lemma GatesAppend(a: seq<GateRow>, b: seq<GateRow>, threshold: string)
    ensures Blocked(a + b, threshold) == Blocked(a, threshold) + Blocked(b, threshold)
    ensures Warned(a + b) == Warned(a) + Warned(b)
  {
    FilterAppend(a, b, BlockingGate(threshold));
    FilterAppend(a, b, WarningGate());
  }

  lemma WarnsByAction(g: GateRow)
    ensures Warned([g]) == if g.val.action == "warn" then [g.key.1] else []
  {
    assert [g][1..] == [];
    assert Filter([g], WarningGate()) == if g.val.action == "warn" then [g] else [];
  }

  // ---------------------------------------------------------------------
  // The lines of the reports
  // ---------------------------------------------------------------------

  /** One line for a text that is there, none for a missing or empty one. */
  ghost predicate ShowsIf(lines: seq<string>, label_: string, s: Option<string>) {
    && (s.Some? && s.value != "" ==> lines == [label_ + s.value])
    && (s.None? || s.value == "" ==> lines == [])
  }

  /** A package's block of an SBOM. */
  ghost predicate IsBlock(block: seq<string>, e: SbomRow) {
    exists license, purl, supplier, url ::
      && ShowsIf(license, "PackageLicenseDeclared: ", e.val.spdx)
      && ShowsIf(purl, "ExternalRef: PACKAGE-MANAGER purl ", e.val.purl)
      && ShowsIf(supplier, "PackageSupplier: ", e.val.supplier)
      && ShowsIf(url, "PackageDownloadLocation: ", e.val.sourceUrl)
      && block == ["PackageName: " + e.key.1, "PackageVersion: " + e.key.2] + license + purl + supplier + url
                  + ["FilesAnalyzed: " + (if e.val.sourceAvailable then "YES" else "NO"), ""]
  }

  /** An SBOM is its header and one block for each package, in order. */
  lemma SbomText(p: Profile, es: seq<SbomRow>)
    ensures SbomReport(p, es) == JoinLines(
      ["SPDXVersion: SPDX-2.3", "DataLicense: CC0-1.0", "SPDXID: SPDXRef-DOCUMENT", "DocumentName: " + p.name,
       "DocumentNamespace: urn:osfabricum:compliance:" + p.id, "", "## Packages", ""] + SbomLines(es))
  {
  }

  /** The blocks of the packages follow each other. */
  lemma SbomAppend(a: seq<SbomRow>, b: seq<SbomRow>)
    ensures SbomLines(a + b) == SbomLines(a) + SbomLines(b)
  {
    ConcatAppend(SbomEntryLines, a, b);
  }

  /** The lines of one package. */
  lemma SbomBlock(e: SbomRow)
    ensures IsBlock(SbomLines([e]), e)
  {
    ConcatOne(SbomEntryLines, e);
    var license := OptionalLine("PackageLicenseDeclared: ", e.val.spdx);
    var purl := OptionalLine("ExternalRef: PACKAGE-MANAGER purl ", e.val.purl);
    var supplier, url := OptionalLine("PackageSupplier: ", e.val.supplier), OptionalLine("PackageDownloadLocation: ", e.val.sourceUrl);
    assert SbomLines([e]) == SbomEntryLines(e);
    assert ShowsIf(license, "PackageLicenseDeclared: ", e.val.spdx) && ShowsIf(purl, "ExternalRef: PACKAGE-MANAGER purl ", e.val.purl)
        && ShowsIf(supplier, "PackageSupplier: ", e.val.supplier) && ShowsIf(url, "PackageDownloadLocation: ", e.val.sourceUrl);
  }

  /** A gate's line: CVE, severity, action in capitals, then package, version and reason where given. */
  ghost predicate IsGateLine(line: string, g: GateRow) {
    exists action, package, reason ::
      && (g.val.action == "block" ==> action == "BLOCK")
      && (g.val.action == "warn" ==> action == "WARN")
      && (g.val.action == "ignore" ==> action == "IGNORE")
      && (!Truthy(g.val.package) ==> package == "")
      && (Truthy(g.val.package) && !Truthy(g.val.version) ==> package == " (" + g.val.package.value + ")")
      && (Truthy(g.val.package) && Truthy(g.val.version) ==>
            package == " (" + (g.val.package.value + (" " + g.val.version.value)) + ")")
      && (Truthy(g.val.reason) ==> reason == " \U{2014} " + g.val.reason.value)
      && (!Truthy(g.val.reason) ==> reason == "")
      && line == g.key.1 + "  severity=" + g.val.severity + "  action=" + action + package + reason
  }

  /** The gate report: the threshold, one line per gate, the counts, and what stops the build. */
  lemma VulnText(p: Profile, gs: seq<GateRow>) returns (lines: seq<string>)
    ensures |lines| == |gs| && forall i :: 0 <= i < |gs| ==> IsGateLine(lines[i], gs[i])
    ensures var blocked, warned := Blocked(gs, p.threshold), Warned(gs);
      VulnReport(p, gs) == JoinLines(
        ["## Vulnerability Gate Report", "# block-threshold: " + p.threshold, ""] + lines
        + (["", "# blocked: " + Decimal(|blocked|) + "  warned: " + Decimal(|warned|)]
           + (if blocked != [] then ["# BUILD BLOCKED by: " + JoinComma(blocked)] else [])))
  {
    lines := GateLines(gs);
    forall i | 0 <= i < |gs| ensures IsGateLine(lines[i], gs[i]) {
      GateLineIs(gs[i]);
    }
    var blocked, warned := Blocked(gs, p.threshold), Warned(gs);
    assert VulnSummary(blocked, warned) + [] == VulnSummary(blocked, warned);
  }

  lemma GateLineIs(g: GateRow)
    ensures IsGateLine(GateLine(g, Status(g.val.action)), g)
  {
    var package := if !Truthy(g.val.package) then ""
                   else " (" + g.val.package.value + (if Truthy(g.val.version) then " " + g.val.version.value else "") + ")";
    var reason := if Truthy(g.val.reason) then " \U{2014} " + g.val.reason.value else "";
    if Truthy(g.val.package) && !Truthy(g.val.version) {
      assert " (" + g.val.package.value + "" == " (" + g.val.package.value;
    }
    if Truthy(g.val.package) && Truthy(g.val.version) {
      Group(" (", g.val.package.value, " " + g.val.version.value, ")");
    }
    assert GateLine(g, Status(g.val.action))
        == g.key.1 + "  severity=" + g.val.severity + "  action=" + Status(g.val.action) + package + reason;
  }

  lemma Group(a: string, b: string, c: string, d: string)
    ensures a + b + c + d == a + (b + c) + d
  {
  }

  /** The declared license, and a stand-in for a missing one. */
  ghost predicate IsLicense(e: SbomRow, license: string) {
    && (e.val.spdx.Some? && e.val.spdx.value != "" ==> license == e.val.spdx.value)
    && (e.val.spdx.None? || e.val.spdx.value == "" ==> license == "LicenseRef-Unknown")
  }

  /** The last rule for the license has the policy. */
  ghost predicate LastRuleSays(rules: seq<RuleRow>, license: string, policy: string) {
    exists k :: 0 <= k < |rules| && rules[k].key.1 == license && rules[k].val.policy == policy
             && forall j :: k < j < |rules| ==> rules[j].key.1 != license
  }

  lemma {:induction false} PolicyIsLast(rules: seq<RuleRow>, license: string, policy: string)
    ensures PolicyOf(rules, license) == Some(policy) <==> LastRuleSays(rules, license, policy)
    decreases rules
  {
    if rules != [] {
      var n := |rules| - 1;
      PolicyIsLast(rules[..n], license, policy);
      if rules[n].key.1 == license {
        if LastRuleSays(rules, license, policy) {
          var k :| 0 <= k < |rules| && rules[k].key.1 == license && rules[k].val.policy == policy
                && forall j :: k < j < |rules| ==> rules[j].key.1 != license;
          assert k == n;
        }
      } else {
        LastRuleStays(rules, license, policy);
      }
    }
  }

  lemma LastRuleStays(rules: seq<RuleRow>, license: string, policy: string)
    requires rules != [] && rules[|rules| - 1].key.1 != license
    ensures LastRuleSays(rules, license, policy) <==> LastRuleSays(rules[..|rules| - 1], license, policy)
  {
    var init := rules[..|rules| - 1];
    if LastRuleSays(init, license, policy) {
      var k :| 0 <= k < |init| && init[k].key.1 == license && init[k].val.policy == policy
            && forall j :: k < j < |init| ==> init[j].key.1 != license;
      assert rules[k] == init[k] && forall j :: k < j < |init| ==> rules[j] == init[j];
    }
    if LastRuleSays(rules, license, policy) {
      var k :| 0 <= k < |rules| && rules[k].key.1 == license && rules[k].val.policy == policy
            && forall j :: k < j < |rules| ==> rules[j].key.1 != license;
      assert init[k] == rules[k];
    }
  }

  /** A package's line: name, version, license, and the verdict of the last rule for that license. */
  ghost predicate IsLicenseLine(line: string, e: SbomRow, rules: seq<RuleRow>) {
    exists license, verdict ::
      && IsLicense(e, license)
      && (LastRuleSays(rules, license, "deny") ==> verdict == "FAIL")
      && (LastRuleSays(rules, license, "warn") ==> verdict == "WARN")
      && (!LastRuleSays(rules, license, "deny") && !LastRuleSays(rules, license, "warn") ==> verdict == "PASS")
      && line == e.key.1 + "@" + e.key.2 + "  license=" + license + "  verdict=" + verdict
  }

  /** The license report: both flags, one line per package, the counts, and what is denied. */
  lemma LicenseText(p: Profile, es: seq<SbomRow>, rules: seq<RuleRow>) returns (lines: seq<string>)
    ensures |lines| == |es| && forall i :: 0 <= i < |es| ==> IsLicenseLine(lines[i], es[i], rules)
    ensures var denied, warned := Failures(es, rules), Warnings(es, rules);
      LicenseReport(p, es, rules) == JoinLines(
        ["## License Compliance Report",
         "# allow-copyleft=" + ((if p.allowCopyleft then "True" else "False") + "  allow-proprietary="
                                + (if p.allowProprietary then "True" else "False")), ""]
        + lines
        + (["", "# failures: " + Decimal(|denied|) + "  warnings: " + Decimal(|warned|)]
           + (if denied != [] then ["# LICENSE DENIED: " + JoinComma(denied)] else [])))
  {
    lines := LicenseLines(es, rules);
    forall i | 0 <= i < |es| ensures IsLicenseLine(lines[i], es[i], rules) {
      LicenseLineIs(es[i], rules);
    }
    var denied, warned := Failures(es, rules), Warnings(es, rules);
    assert LicenseSummary(denied, warned) + [] == LicenseSummary(denied, warned);
  }

  lemma LicenseLineIs(e: SbomRow, rules: seq<RuleRow>)
    ensures IsLicenseLine(LicenseLine(e, Verdict(PolicyOf(rules, LicenseId(e)))), e, rules)
  {
    PolicyIsLast(rules, LicenseId(e), "deny");
    PolicyIsLast(rules, LicenseId(e), "warn");
    assert IsLicense(e, LicenseId(e));
  }

  /** Denied and questionable packages are listed package by package, as name and license. */
  lemma JudgedAppend(a: seq<SbomRow>, b: seq<SbomRow>, rules: seq<RuleRow>)
    ensures Failures(a + b, rules) == Failures(a, rules) + Failures(b, rules)
    ensures Warnings(a + b, rules) == Warnings(a, rules) + Warnings(b, rules)
  {
    NamesAppend(a, b, PolicyIs(rules, "deny"));
    NamesAppend(a, b, PolicyIs(rules, "warn"));
  }

  lemma NamesAppend(a: seq<SbomRow>, b: seq<SbomRow>, p: SbomRow -> bool)
    ensures LicenseNames(Filter(a + b, p)) == LicenseNames(Filter(a, p)) + LicenseNames(Filter(b, p))
  {
    FilterAppend(a, b, p);
  }

  lemma JudgedOne(e: SbomRow, rules: seq<RuleRow>, license: string)
    requires IsLicense(e, license)
    ensures Failures([e], rules) == if LastRuleSays(rules, license, "deny") then [e.key.1 + ":" + license] else []
    ensures Warnings([e], rules) == if LastRuleSays(rules, license, "warn") then [e.key.1 + ":" + license] else []
  {
    PolicyIsLast(rules, license, "deny");
    PolicyIsLast(rules, license, "warn");
    assert [e][1..] == [] && LicenseId(e) == license;
    assert Filter([e], PolicyIs(rules, "deny")) == if LastRuleSays(rules, license, "deny") then [e] else [];
    assert Filter([e], PolicyIs(rules, "warn")) == if LastRuleSays(rules, license, "warn") then [e] else [];
  }

  /** A rendering stores the three reports of the profile's own rows and the digest of their texts. */
  lemma RenderStores(db: Db, id: string, sha: string -> string)
    requires Failure(db, Render(id)).None?
    ensures var i, end := FindProfile(db.profiles, id), Effect(db, Render(id), sha);
      && i < |db.profiles| && end == db.(profiles := end.profiles) && |end.profiles| == |db.profiles|
      && (forall j :: 0 <= j < |db.profiles| && j != i ==> end.profiles[j] == db.profiles[j])
      && IsRendered(db, db.profiles[i], end.profiles[i], sha)
  {
    RenderedIs(db, db.profiles[FindProfile(db.profiles, id)], sha);
  }

  /** `q` is `p` with its three reports and the digest of their texts, one after the other. */
  ghost predicate IsRendered(db: Db, p: Profile, q: Profile, sha: string -> string) {
    var sbom, vuln := SbomReport(p, SbomsOf(db, p.id)), VulnReport(p, GatesOf(db, p.id));
    var license := LicenseReport(p, SbomsOf(db, p.id), RulesOf(db, p.id));
    q == p.(sbomText := Some(sbom), vulnText := Some(vuln), licenseText := Some(license),
            contentHash := Some("sha256:" + sha(sbom + "\n" + (vuln + "\n" + license))))
  }

  lemma RenderedIs(db: Db, p: Profile, sha: string -> string)
    ensures IsRendered(db, p, Rendered(db, p, sha), sha)
  {
    ThreeTexts(SbomReport(p, SbomsOf(db, p.id)), VulnReport(p, GatesOf(db, p.id)),
               LicenseReport(p, SbomsOf(db, p.id), RulesOf(db, p.id)));
  }

  lemma ThreeTexts(a: string, b: string, c: string)
    ensures JoinLines([a, b, c]) == a + "\n" + (b + "\n" + c)
  {
    assert [a, b, c] == [a] + [b, c] && [b, c] == [b] + [c];
    JoinLinesCons(a, [b, c]);
    JoinLinesCons(b, [c]);
  }
}
