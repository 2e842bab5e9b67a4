/** Laws of the compliance service: cache coherence over runs, its exact limit, and the gate. */
module ComplianceLaws {
  import opened Wrappers
  import opened Ordering
  import opened Tables
  import opened TextLines
  import opened Compliance

  // ---------------------------------------------------------------------
  // Rows of other profiles do not move
  // ---------------------------------------------------------------------

  /** The reports of a profile depend on its own rows only. */
  ghost predicate SameRows(d0: Db, d1: Db, id: string) {
    GatesOf(d0, id) == GatesOf(d1, id) && RulesOf(d0, id) == RulesOf(d1, id) && SbomsOf(d0, id) == SbomsOf(d1, id)
  }

  lemma ChildRowsOfOthers(db: Db, op: Op, sha: string -> string, other: string)
    requires (op.PutRule? || op.PutGate? || op.PutSbom?) && op.id != other
    ensures SameRows(db, Effect(db, op, sha), other)
  {
    match op
    case PutRule(id, spdx, rule) =>
      FilterPut(db.rules, (id, spdx), rule, RuleOf(other));
    case PutGate(id, cve, gate) =>
      FilterPut(db.gates, (id, cve), gate, GateOf(other));
    case PutSbom(id, package, version, sbom) =>
      FilterPut(db.sboms, (id, package, version), sbom, SbomOf(other));
  }

  // ---------------------------------------------------------------------
  // One call
  // ---------------------------------------------------------------------

  ghost predicate FreshId(db: Db, op: Op) {
    op.Create? ==> FindProfile(db.profiles, op.id) == |db.profiles|
  }

  lemma {:induction false} ApplyAllFacts(p: Profile, cs: seq<Change>)
    requires ValidThreshold(p.threshold) && forall i :: 0 <= i < |cs| ==> Accepted(cs[i])
    ensures var q := ApplyAll(p, cs);
      && ValidThreshold(q.threshold) && q.id == p.id && q.contentHash == p.contentHash
      && q.sbomText == p.sbomText && q.vulnText == p.vulnText && q.licenseText == p.licenseText
    decreases cs
  {
    if cs != [] {
      ApplyAllFacts(p, cs[..|cs| - 1]);
    }
  }

  /** A call other than creation keeps the other profiles, and the id of its own. */
  lemma OwnProfile(db: Db, op: Op, sha: string -> string)
    requires Valid(db) && !op.Create? && FindProfile(db.profiles, op.id) < |db.profiles|
    ensures var i := FindProfile(db.profiles, op.id);
      var end := Effect(db, op, sha);
      && |end.profiles| == |db.profiles|
      && (forall j :: 0 <= j < |db.profiles| && j != i ==> end.profiles[j] == db.profiles[j])
      && end.profiles[i].id == op.id && ValidThreshold(end.profiles[i].threshold)
  {
    var i := FindProfile(db.profiles, op.id);
    if op.Update? {
      assert op.changes[..|op.changes|] == op.changes;
      ApplyAllFacts(db.profiles[i], op.changes[..AcceptedPrefix(op.changes)]);
    } else if op.Render? {
      assert Rendered(db, db.profiles[i], sha).threshold == db.profiles[i].threshold;
    }
  }

  /** Every call, failed or not, keeps keys unique and thresholds valid. */
  lemma EffectKeepsValid(db: Db, op: Op, sha: string -> string)
    requires Valid(db) && FreshId(db, op)
    ensures Valid(Effect(db, op, sha))
  {
    if !op.Create? && FindProfile(db.profiles, op.id) < |db.profiles| {
      OwnProfile(db, op, sha);
    }
    ChildKeysStayDistinct(db, op, sha);
  }

  lemma ChildKeysStayDistinct(db: Db, op: Op, sha: string -> string)
    requires DistinctKeys(db.rules) && DistinctKeys(db.gates) && DistinctKeys(db.sboms)
    ensures var end := Effect(db, op, sha); DistinctKeys(end.rules) && DistinctKeys(end.gates) && DistinctKeys(end.sboms)
  {
    match op
    case PutRule(id, spdx, rule) => PutKeepsDistinct(db.rules, Blank, (id, spdx), rule, Replace);
    case PutGate(id, cve, gate) => PutKeepsDistinct(db.gates, Blank, (id, cve), gate, Replace);
    case PutSbom(id, package, version, sbom) => PutKeepsDistinct(db.sboms, Blank, (id, package, version), sbom, Replace);
    case _ =>
  }

  lemma {:induction false} ApplyAllKeepsDistribution(p: Profile, cs: seq<Change>)
    ensures ApplyAll(p, cs).distribution == p.distribution
    decreases cs
  {
    if cs != [] {
      ApplyAllKeepsDistribution(p, cs[..|cs| - 1]);
    }
  }

  /** A call that succeeds keeps (distribution, name) unique. */
  lemma SuccessKeepsNames(db: Db, op: Op, sha: string -> string)
    requires Valid(db) && UniqueNames(db) && Failure(db, op).None?
    ensures UniqueNames(Effect(db, op, sha))
  {
    if !op.Create? {
      OwnProfile(db, op, sha);
      OwnName(db, op, sha);
    }
  }

  /** A call that succeeds gives its profile no taken name; only an update changes the name. */
  lemma OwnName(db: Db, op: Op, sha: string -> string)
    requires Failure(db, op).None? && !op.Create?
    ensures var i, end := FindProfile(db.profiles, op.id), Effect(db, op, sha);
      && i < |db.profiles| && |end.profiles| == |db.profiles|
      && end.profiles[i].distribution == db.profiles[i].distribution
      && (end.profiles[i].name == db.profiles[i].name || !Clashes(db.profiles, i, end.profiles[i]))
  {
    var i := FindProfile(db.profiles, op.id);
    if op.Update? {
      ApplyAllKeepsDistribution(db.profiles[i], op.changes);
    } else if op.Render? {
      assert Rendered(db, db.profiles[i], sha).name == db.profiles[i].name;
    }
  }

  lemma OneProfileChanges(db: Db, end: Db, i: nat, sha: string -> string)
    requires Coherent(db, sha)
    requires i < |db.profiles| && |end.profiles| == |db.profiles|
    requires forall j :: 0 <= j < |db.profiles| && j != i ==>
      end.profiles[j] == db.profiles[j] && SameRows(db, end, db.profiles[j].id)
    ensures Coherent(end, sha) <==> CoherentProfile(end, end.profiles[i], sha)
  {
    forall j | 0 <= j < |end.profiles| && j != i ensures CoherentProfile(end, end.profiles[j], sha) {
      assert CoherentProfile(db, db.profiles[j], sha);
    }
  }

  lemma OwnProfileIsCoherent(db: Db, op: Op, sha: string -> string)
    requires !op.Create? && FindProfile(db.profiles, op.id) < |db.profiles| && Failure(db, op).None?
    ensures var end := Effect(db, op, sha);
      |end.profiles| == |db.profiles| && CoherentProfile(end, end.profiles[FindProfile(db.profiles, op.id)], sha)
  {
    var i := FindProfile(db.profiles, op.id);
    var end := Effect(db, op, sha);
    if op.Render? {
      var p := db.profiles[i];
      assert GatesOf(end, p.id) == GatesOf(db, p.id) && RulesOf(end, p.id) == RulesOf(db, p.id)
          && SbomsOf(end, p.id) == SbomsOf(db, p.id);
    } else {
      assert end.profiles[i].contentHash.None?;
    }
  }

  lemma CreateKeepsCoherent(db: Db, op: Op, sha: string -> string)
    requires Coherent(db, sha) && op.Create?
    ensures Coherent(Effect(db, op, sha), sha)
  {
    if Failure(db, op).None? {
      var end := Effect(db, op, sha);
      NewProfileKeepsCoherent(db, end.profiles[|db.profiles|], sha);
    }
  }

  lemma NewProfileKeepsCoherent(db: Db, p: Profile, sha: string -> string)
    requires Coherent(db, sha) && p.contentHash.None?
    ensures Coherent(db.(profiles := db.profiles + [p]), sha)
  {
    var end := db.(profiles := db.profiles + [p]);
    forall j | 0 <= j < |end.profiles| ensures CoherentProfile(end, end.profiles[j], sha) {
      if j < |db.profiles| {
        assert CoherentProfile(db, db.profiles[j], sha);
        SameRowsSameRendering(db, end, db.profiles[j], sha);
      }
    }
  }

  lemma SameRowsSameRendering(db: Db, end: Db, p: Profile, sha: string -> string)
    requires end.rules == db.rules && end.gates == db.gates && end.sboms == db.sboms
    ensures Rendered(end, p, sha) == Rendered(db, p, sha)
  {
  }

  /** Every call that succeeds keeps every cached report equal to a fresh rendering. */
  lemma SuccessKeepsCoherent(db: Db, op: Op, sha: string -> string)
    requires Valid(db) && Coherent(db, sha) && Failure(db, op).None?
    ensures Coherent(Effect(db, op, sha), sha)
  {
    if op.Create? {
      CreateKeepsCoherent(db, op, sha);
    } else {
      var end := Effect(db, op, sha);
      var i := FindProfile(db.profiles, op.id);
      forall j | 0 <= j < |db.profiles| && j != i ensures SameRows(db, end, db.profiles[j].id) {
        if op.PutRule? || op.PutGate? || op.PutSbom? {
          ChildRowsOfOthers(db, op, sha, db.profiles[j].id);
        }
      }
      OwnProfile(db, op, sha);
      OwnProfileIsCoherent(db, op, sha);
      OneProfileChanges(db, end, i, sha);
    }
  }

  // ---------------------------------------------------------------------
  // Runs of requests
  // ---------------------------------------------------------------------

  /** One request: a failed call drops its session, so nothing is committed. */
  function Transaction(db: Db, op: Op, sha: string -> string): Db {
    if Failure(db, op).Some? then db else Effect(db, op, sha)
  }

  function Run(db: Db, ops: seq<Op>, sha: string -> string): Db
    decreases ops
  {
    if ops == [] then db else Run(Transaction(db, ops[0], sha), ops[1..], sha)
  }

  /** Every creation of the run uses an unused key. */
  ghost predicate FreshIds(db: Db, ops: seq<Op>, sha: string -> string)
    decreases ops
  {
    ops != [] ==> FreshId(db, ops[0]) && FreshIds(Transaction(db, ops[0], sha), ops[1..], sha)
  }

  /** Over any run of requests the stored reports never go stale behind a hash. */
  lemma {:induction false} RunKeepsCoherent(db: Db, ops: seq<Op>, sha: string -> string)
    requires Valid(db) && Coherent(db, sha) && FreshIds(db, ops, sha)
    ensures Valid(Run(db, ops, sha)) && Coherent(Run(db, ops, sha), sha)
    ensures UniqueNames(db) ==> UniqueNames(Run(db, ops, sha))
    decreases ops
  {
    if ops != [] {
      TransactionKeeps(db, ops[0], sha);
      if UniqueNames(db) {
        TransactionKeepsNames(db, ops[0], sha);
      }
      RunKeepsCoherent(Transaction(db, ops[0], sha), ops[1..], sha);
    }
  }

  lemma TransactionKeeps(db: Db, op: Op, sha: string -> string)
    requires Valid(db) && Coherent(db, sha) && FreshId(db, op)
    ensures Valid(Transaction(db, op, sha)) && Coherent(Transaction(db, op, sha), sha)
  {
    if Failure(db, op).None? {
      EffectKeepsValid(db, op, sha);
      SuccessKeepsCoherent(db, op, sha);
    }
  }

  lemma TransactionKeepsNames(db: Db, op: Op, sha: string -> string)
    requires Valid(db) && UniqueNames(db)
    ensures UniqueNames(Transaction(db, op, sha))
  {
    if Failure(db, op).None? {
      SuccessKeepsNames(db, op, sha);
    }
  }

  // ---------------------------------------------------------------------
  // A refused update inside a kept session
  // ---------------------------------------------------------------------

  /** The fields that the reports print. */
  predicate SamePrintedFields(p: Profile, q: Profile) {
    p.name == q.name && p.threshold == q.threshold && p.allowCopyleft == q.allowCopyleft && p.allowProprietary == q.allowProprietary
  }

  /** An update of a rendered profile that changes a printed field before it meets a refused one. */
  predicate RefusedTooLate(db: Db, op: Op) {
    op.Update? &&
    var i, n := FindProfile(db.profiles, op.id), AcceptedPrefix(op.changes);
    && i < |db.profiles| && n < |op.changes|
    && db.profiles[i].contentHash.Some?
    && !SamePrintedFields(db.profiles[i], ApplyAll(db.profiles[i], op.changes[..n]))
  }

  lemma CancelPrefix(a: string, x: string, y: string)
    requires a + x == a + y
    ensures x == y
  {
    assert (a + x)[|a|..] == x && (a + y)[|a|..] == y;
  }

  lemma CancelSuffix(x: string, y: string, s: string)
    requires x + s == y + s
    ensures x == y
  {
    assert |x| == |y|;
    assert (x + s)[..|x|] == x && (y + s)[..|y|] == y;
  }

  predicate OneLine(s: string) {
    forall i :: 0 <= i < |s| ==> s[i] != '\n'
  }

  lemma FirstLinesAgree(a: string, b: string, x: string, y: string)
    requires OneLine(a) && OneLine(b)
    requires a + "\n" + x == b + "\n" + y
    ensures a == b && x == y
  {
    var s, t := a + "\n" + x, b + "\n" + y;
    assert s[|a|] == '\n' && t[|b|] == '\n';
    assert forall i :: 0 <= i < |a| ==> s[i] == a[i];
    assert forall i :: 0 <= i < |b| ==> t[i] == b[i];
    assert |a| == |b|;
    assert s[..|a|] == a && t[..|b|] == b;
    assert s[|a| + 1..] == x && t[|b| + 1..] == y;
  }

  /** Reports that agree up to one labelled line agree on what the label shows. */
  lemma FourthLineShows(a: string, b: string, c: string, tag: string, x: string, y: string, rest: seq<string>)
    requires rest != []
    requires JoinLines([a, b, c, tag + x] + rest) == JoinLines([a, b, c, tag + y] + rest)
    ensures x == y
  {
    FourLines(a, b, c, tag + x, rest);
    FourLines(a, b, c, tag + y, rest);
    var tail := "\n" + JoinLines(rest);
    CancelPrefix(a + "\n", b + "\n" + (c + "\n" + (tag + x + tail)), b + "\n" + (c + "\n" + (tag + y + tail)));
    CancelPrefix(b + "\n", c + "\n" + (tag + x + tail), c + "\n" + (tag + y + tail));
    CancelPrefix(c + "\n", tag + x + tail, tag + y + tail);
    CancelSuffix(tag + x, tag + y, tail);
    CancelPrefix(tag, x, y);
  }

  lemma FourLines(a: string, b: string, c: string, d: string, rest: seq<string>)
    requires rest != []
    ensures JoinLines([a, b, c, d] + rest)
         == a + "\n" + (b + "\n" + (c + "\n" + (d + ("\n" + JoinLines(rest)))))
  {
    assert [a, b, c, d] + rest == [a] + ([b] + ([c] + ([d] + rest)));
    JoinLinesCons(a, [b] + ([c] + ([d] + rest)));
    JoinLinesCons(b, [c] + ([d] + rest));
    JoinLinesCons(c, [d] + rest);
    JoinLinesCons(d, rest);
    assert d + "\n" + JoinLines(rest) == d + ("\n" + JoinLines(rest));
  }

  lemma SbomShowsName(p: Profile, q: Profile, es: seq<SbomRow>)
    requires p.id == q.id && SbomReport(p, es) == SbomReport(q, es)
    ensures p.name == q.name
  {
    var l0, l1, l2, tag := "SPDXVersion: SPDX-2.3", "DataLicense: CC0-1.0", "SPDXID: SPDXRef-DOCUMENT", "DocumentName: ";
    var rest := SbomHeader(p)[4..] + SbomLines(es);
    SbomShape(p, es);
    SbomShape(q, es);
    assert SbomHeader(p)[4..] == SbomHeader(q)[4..];
    FourthLineShows(l0, l1, l2, tag, p.name, q.name, rest);
  }

  lemma SbomShape(p: Profile, es: seq<SbomRow>)
    ensures SbomHeader(p) + SbomLines(es)
         == ["SPDXVersion: SPDX-2.3", "DataLicense: CC0-1.0", "SPDXID: SPDXRef-DOCUMENT", "DocumentName: " + p.name]
            + (SbomHeader(p)[4..] + SbomLines(es))
    ensures SbomHeader(p)[4..] != []
  {
    FirstFour(SbomHeader(p), SbomLines(es));
  }

  lemma FirstFour<T>(head: seq<T>, rest: seq<T>)
    requires |head| > 4
    ensures head + rest == [head[0], head[1], head[2], head[3]] + (head[4..] + rest)
  {
    assert head[..4] == [head[0], head[1], head[2], head[3]];
  }

  lemma SecondLinesAgree(first: string, a: string, b: string, x: seq<string>, y: seq<string>)
    requires x != [] && y != [] && OneLine(first) && OneLine(a) && OneLine(b)
    requires JoinLines([first, a] + x) == JoinLines([first, b] + y)
    ensures a == b
  {
    assert [first, a] + x == [first] + ([a] + x) && [first, b] + y == [first] + ([b] + y);
    JoinLinesCons(first, [a] + x);
    JoinLinesCons(first, [b] + y);
    FirstLinesAgree(first, first, JoinLines([a] + x), JoinLines([b] + y));
    JoinLinesCons(a, x);
    JoinLinesCons(b, y);
    FirstLinesAgree(a, b, JoinLines(x), JoinLines(y));
  }

  lemma SecondLineShows(first: string, tag: string, a: string, b: string, x: seq<string>, y: seq<string>)
    requires x != [] && y != [] && OneLine(first) && OneLine(tag + a) && OneLine(tag + b)
    requires JoinLines([first, tag + a] + x) == JoinLines([first, tag + b] + y)
    ensures a == b
  {
    SecondLinesAgree(first, tag + a, tag + b, x, y);
    CancelPrefix(tag, a, b);
  }

  lemma VulnShape(threshold: string, body: seq<string>, footer: seq<string>)
    ensures VulnHeader(threshold) + body + footer
         == ["## Vulnerability Gate Report", "# block-threshold: " + threshold] + ([""] + (body + footer))
  {
    var h := VulnHeader(threshold);
    assert h + body + footer == h + (body + footer);
    assert h[..2] == [h[0], h[1]] && h[2..] == [h[2]];
  }

  lemma ThresholdIsOneLine(threshold: string)
    requires ValidThreshold(threshold)
    ensures OneLine("# block-threshold: " + threshold)
  {
  }

  lemma VulnShowsThreshold(p: Profile, q: Profile, gs: seq<GateRow>)
    requires ValidThreshold(p.threshold) && ValidThreshold(q.threshold)
    requires VulnReport(p, gs) == VulnReport(q, gs)
    ensures p.threshold == q.threshold
  {
    var fp := VulnFooter(Blocked(gs, p.threshold), Warned(gs));
    var fq := VulnFooter(Blocked(gs, q.threshold), Warned(gs));
    VulnShape(p.threshold, GateLines(gs), fp);
    VulnShape(q.threshold, GateLines(gs), fq);
    ThresholdIsOneLine(p.threshold);
    ThresholdIsOneLine(q.threshold);
    SecondLineShows("## Vulnerability Gate Report", "# block-threshold: ", p.threshold, q.threshold,
                    [""] + (GateLines(gs) + fp), [""] + (GateLines(gs) + fq));
  }

  lemma FlagsDiffer(a: bool, b: bool, x: string, y: string)
    requires Flag(a) + x == Flag(b) + y
    ensures a == b && x == y
  {
    assert (Flag(a) + x)[0] == if a then 'T' else 'F';
    assert (Flag(b) + y)[0] == if b then 'T' else 'F';
    CancelPrefix(Flag(a), x, y);
  }

  lemma FlagTextInjective(a: bool, b: bool, c: bool, d: bool)
    requires FlagText(a, b) == FlagText(c, d)
    ensures a == c && b == d
  {
    var middle := "  allow-proprietary=";
    Reassociate(Flag(a), middle, Flag(b));
    Reassociate(Flag(c), middle, Flag(d));
    FlagsDiffer(a, c, middle + Flag(b), middle + Flag(d));
    CancelPrefix(middle, Flag(b), Flag(d));
  }

  lemma Reassociate(a: string, b: string, c: string)
    ensures a + b + c == a + (b + c)
  {
  }

  lemma ThirdLineOn(a: string, b: string, c: string, body: seq<string>, footer: seq<string>)
    ensures [a, b, c] + body + footer == [a, b] + ([c] + (body + footer))
  {
  }

  lemma FlagIsOneLine(copyleft: bool, proprietary: bool)
    ensures OneLine("# allow-copyleft=" + FlagText(copyleft, proprietary))
  {
    assert OneLine(Flag(copyleft)) && OneLine(Flag(proprietary));
    assert OneLine("# allow-copyleft=") && OneLine("  allow-proprietary=");
  }

  lemma LicenseShowsFlags(p: Profile, q: Profile, es: seq<SbomRow>, rules: seq<RuleRow>)
    requires LicenseReport(p, es, rules) == LicenseReport(q, es, rules)
    ensures p.allowCopyleft == q.allowCopyleft && p.allowProprietary == q.allowProprietary
  {
    var body, footer := LicenseLines(es, rules), LicenseFooter(Failures(es, rules), Warnings(es, rules));
    LicenseTextShowsFlags(p.allowCopyleft, p.allowProprietary, q.allowCopyleft, q.allowProprietary, body, footer);
  }

  lemma LicenseTextShowsFlags(a: bool, b: bool, c: bool, d: bool, body: seq<string>, footer: seq<string>)
    requires JoinLines(LicenseHeader(a, b) + body + footer) == JoinLines(LicenseHeader(c, d) + body + footer)
    ensures a == c && b == d
  {
    var title, tag := LicenseHeader(a, b)[0], "# allow-copyleft=";
    var f, g := FlagText(a, b), FlagText(c, d);
    FlagIsOneLine(a, b);
    FlagIsOneLine(c, d);
    assert OneLine(title);
    ThirdLineOn(title, tag + f, "", body, footer);
    ThirdLineOn(title, tag + g, "", body, footer);
    SecondLineShows(title, tag, f, g, [""] + (body + footer), [""] + (body + footer));
    FlagTextInjective(a, b, c, d);
  }

  lemma RenderingShowsFields(db: Db, p: Profile, q: Profile, sha: string -> string)
    requires p.id == q.id && ValidThreshold(p.threshold) && ValidThreshold(q.threshold)
    requires p.sbomText == q.sbomText && p.vulnText == q.vulnText && p.licenseText == q.licenseText
    requires p.contentHash == q.contentHash
    requires p == Rendered(db, p, sha)
    ensures q == Rendered(db, q, sha) <==> SamePrintedFields(p, q)
  {
    if q == Rendered(db, q, sha) {
      SbomShowsName(p, q, SbomsOf(db, p.id));
      VulnShowsThreshold(p, q, GatesOf(db, p.id));
      LicenseShowsFlags(p, q, SbomsOf(db, p.id), RulesOf(db, p.id));
    }
  }

  lemma RefusedUpdateExactly(db: Db, op: Op, sha: string -> string)
    requires Valid(db) && Coherent(db, sha)
    requires op.Update? && FindProfile(db.profiles, op.id) < |db.profiles| && AcceptedPrefix(op.changes) < |op.changes|
    ensures Coherent(Effect(db, op, sha), sha) <==> !RefusedTooLate(db, op)
  {
    var end := Effect(db, op, sha);
    var i, n := FindProfile(db.profiles, op.id), AcceptedPrefix(op.changes);
    var p, q := db.profiles[i], ApplyAll(db.profiles[i], op.changes[..n]);
    ApplyAllFacts(p, op.changes[..n]);
    OneProfileChanges(db, end, i, sha);
    assert CoherentProfile(db, p, sha);
    assert Rendered(end, q, sha) == Rendered(db, q, sha);
    if p.contentHash.Some? {
      RenderingShowsFields(db, p, q, sha);
    }
  }

  /** Keeping the session after a refused call keeps the cache coherent in all cases but one: an update
      that changed a printed field of a rendered profile before meeting the refused field. */
  lemma SessionCoherentExactly(db: Db, op: Op, sha: string -> string)
    requires Valid(db) && Coherent(db, sha) && FreshId(db, op)
    ensures Coherent(Effect(db, op, sha), sha) <==> !RefusedTooLate(db, op)
  {
    if Failure(db, op).None? {
      SuccessKeepsCoherent(db, op, sha);
      SuccessIsNotTooLate(db, op);
    } else if op.Update? && FindProfile(db.profiles, op.id) < |db.profiles| && AcceptedPrefix(op.changes) < |op.changes| {
      RefusedUpdateExactly(db, op, sha);
    } else {
      OtherRefusalsChangeNothing(db, op, sha);
    }
  }

  lemma SuccessIsNotTooLate(db: Db, op: Op)
    requires Failure(db, op).None?
    ensures !RefusedTooLate(db, op)
  {
  }

  lemma OtherRefusalsChangeNothing(db: Db, op: Op, sha: string -> string)
    requires Failure(db, op).Some?
    requires !(op.Update? && FindProfile(db.profiles, op.id) < |db.profiles| && AcceptedPrefix(op.changes) < |op.changes|)
    ensures Effect(db, op, sha) == db && !RefusedTooLate(db, op)
  {
  }

  /** Such a case exists: a rendered profile, renamed in a call whose second field is unknown. */
  lemma StaleAfterRefusedUpdate(sha: string -> string) returns (db: Db, op: Op)
    ensures Valid(db) && Coherent(db, sha)
    ensures Failure(db, op) == Some(InvalidValue) && !Coherent(Effect(db, op, sha), sha)
  {
    db := OneRendered("p", "a", sha);
    op := Update("p", [SetName("b"), SetUnknownField("x")]);
    RenamedTooLate(db, "p", "b", "x");
    SessionCoherentExactly(db, op, sha);
  }

  /** A store with one profile that has just been rendered. */
  lemma OneRendered(id: string, name: string, sha: string -> string) returns (db: Db)
    ensures Valid(db) && Coherent(db, sha)
    ensures |db.profiles| == 1 && db.profiles[0].id == id && db.profiles[0].name == name && db.profiles[0].contentHash.Some?
  {
    var blank := Profile(id, name, None, "", true, false, "critical", true, None, None, None, None);
    var empty := Db([blank], [], [], []);
    assert Valid(empty) && Coherent(empty, sha);
    SuccessKeepsCoherent(empty, Render(id), sha);
    EffectKeepsValid(empty, Render(id), sha);
    db := Effect(empty, Render(id), sha);
  }

  lemma RenamedTooLate(db: Db, id: string, name: string, field: string)
    requires |db.profiles| == 1 && db.profiles[0].id == id && db.profiles[0].name != name && db.profiles[0].contentHash.Some?
    ensures var op := Update(id, [SetName(name), SetUnknownField(field)]);
      Failure(db, op) == Some(InvalidValue) && RefusedTooLate(db, op)
  {
    var cs := [SetName(name), SetUnknownField(field)];
    assert cs[1..][1..] == [];
    assert AcceptedPrefix(cs[1..]) == 0;
    assert AcceptedPrefix(cs) == 1;
    var p := db.profiles[0];
    assert cs[..1] == [SetName(name)] && [SetName(name)][..0] == [];
    assert ApplyAll(p, []) == p;
    assert ApplyAll(p, cs[..1]) == Apply(ApplyAll(p, cs[..1][..0]), cs[..1][0]);
    assert ApplyAll(p, cs[..1]).name == name;
  }

  // ---------------------------------------------------------------------
  // The gate
  // ---------------------------------------------------------------------

  /** A CVE is blocked exactly when one of its gates has action "block" and reaches the threshold. */
  lemma BlockedExactly(gs: seq<GateRow>, threshold: string, cve: string)
    ensures cve in Blocked(gs, threshold) <==>
      exists g :: g in gs && g.key.1 == cve && g.val.action == "block"
               && SeverityRank(g.val.severity, 99) <= SeverityRank(threshold, 0)
  {
    var f := Filter(gs, BlockingGate(threshold));
    FilterMembers(gs, BlockingGate(threshold));
    if cve in Blocked(gs, threshold) {
      var i :| 0 <= i < |f| && f[i].key.1 == cve;
      assert f[i] in gs && Blocks(f[i], threshold);
    }
    if g :| g in gs && g.key.1 == cve && Blocks(g, threshold) {
      var i :| 0 <= i < |f| && f[i] == g;
      assert Blocked(gs, threshold)[i] == cve;
    }
  }

  /** Raising the rank of the threshold only adds blocked gates, and keeps their order. */
  lemma {:induction false} BlockedGrows(gs: seq<GateRow>, low: string, high: string)
    requires SeverityRank(low, 0) <= SeverityRank(high, 0)
    ensures Filter(gs, BlockingGate(low)) == Filter(Filter(gs, BlockingGate(high)), BlockingGate(low))
    ensures forall cve :: cve in Blocked(gs, low) ==> cve in Blocked(gs, high)
  {
    if gs != [] {
      BlockedGrows(gs[1..], low, high);
      var rest := Filter(gs[1..], BlockingGate(high));
      if Blocks(gs[0], high) {
        FilterCons(gs[0], rest, BlockingGate(low));
      }
    }
    forall cve | cve in Blocked(gs, low) ensures cve in Blocked(gs, high) {
      BlockedExactly(gs, low, cve);
      BlockedExactly(gs, high, cve);
    }
  }

  /** "none" is the widest threshold, not an empty one: every gate with action "block" blocks. */
  lemma NoneBlocksEverything(gs: seq<GateRow>)
    requires forall g :: g in gs ==> ValidSeverity(g.val.severity)
    ensures forall g :: g in gs && g.val.action == "block" ==> g.key.1 in Blocked(gs, "none")
    ensures forall g :: g in gs && g.val.action == "block" && g.key.1 !in Blocked(gs, "critical") ==> g.val.severity != "critical"
  {
    forall g | g in gs && g.val.action == "block" ensures g.key.1 in Blocked(gs, "none") {
      BlockedExactly(gs, "none", g.key.1);
    }
    forall g | g in gs && g.val.action == "block" && g.val.severity == "critical" ensures g.key.1 in Blocked(gs, "critical") {
      BlockedExactly(gs, "critical", g.key.1);
    }
  }

  /** Blocked CVEs are listed in strict CVE order, each once. */
  lemma BlockedInOrder(db: Db, id: string, threshold: string)
    requires DistinctKeys(db.gates)
    ensures var b := Blocked(GatesOf(db, id), threshold);
      forall i, j :: 0 <= i < j < |b| ==> StrLeq(b[i], b[j]) && b[i] != b[j]
  {
    var rows, gates := Filter(db.gates, GateOf(id)), GatesOf(db, id);
    var f := Filter(gates, BlockingGate(threshold));
    GateOrderIsTotal();
    SortFilter(rows, GateOrder, BlockingGate(threshold));
    SortSorts(Filter(rows, BlockingGate(threshold)), GateOrder);
    GatesApart(db, id);
    FilterKeepsPairs(gates, BlockingGate(threshold), CvesApart());
    forall i, j | 0 <= i < j < |f| ensures StrLeq(f[i].key.1, f[j].key.1) && f[i].key.1 != f[j].key.1 {
      assert GateOrder(f[i], f[j]) && CvesApart()(f[i], f[j]);
    }
  }

  function CvesApart(): (GateRow, GateRow) -> bool { (a: GateRow, b: GateRow) => a.key.1 != b.key.1 }

  /** A profile has one gate for each CVE. */
  lemma GatesApart(db: Db, id: string)
    requires DistinctKeys(db.gates)
    ensures Pairwise(GatesOf(db, id), CvesApart())
  {
    var rows, gates := Filter(db.gates, GateOf(id)), GatesOf(db, id);
    FilterFinds(db.gates, GateOf(id), ("", ""));
    FilterMembers(db.gates, GateOf(id));
    forall i, j | 0 <= i < j < |rows| ensures !(GateOrder(rows[i], rows[j]) && GateOrder(rows[j], rows[i])) {
      assert rows[i] in rows && rows[j] in rows;
      if GateOrder(rows[i], rows[j]) && GateOrder(rows[j], rows[i]) {
        StrLeqAntisymmetric(rows[i].key.1, rows[j].key.1);
      }
    }
    GateOrderIsTotal();
    SortPermutes(rows, GateOrder);
    TieFreePermutation(rows, gates, GateOrder);
    forall i, j | 0 <= i < j < |gates| ensures CvesApart()(gates[i], gates[j]) {
      StrLeqReflexive(gates[i].key.1);
    }
  }
}
