/** The end-to-end guarantees of the rollback pipeline: the decision table over raw inputs, what
    more findings can do to a decision, when the document validates, and the algebra of readiness. */
module RollbackTheorems {
  import opened Text
  import opened Findings
  import opened Reports
  import opened RollbackModel
  import opened Rollback
  import opened RollbackSignals
  import opened RollbackDecision

  // ---- readiness is a homomorphism ----------------------------------------------------------------------

  lemma {:induction false} CountsAdd(xs: seq<Check>, ys: seq<Check>, s: CheckStatus)
    ensures CountStatus(xs + ys, s) == CountStatus(xs, s) + CountStatus(ys, s)
  {
    if ys == [] {
      assert xs + ys == xs;
    } else {
      CountsAdd(xs, ys[..|ys| - 1], s);
      assert (xs + ys)[..|xs + ys| - 1] == xs + ys[..|ys| - 1];
    }
  }

  /** Judging two lists of checks together is judging each and combining: counts and status alike. */
  lemma ReadinessIsHomomorphism(xs: seq<Check>, ys: seq<Check>)
    ensures ReadinessOf(xs + ys) == CombineReadiness(ReadinessOf(xs), ReadinessOf(ys))
  {
    CountsAdd(xs, ys, CheckFail);
    CountsAdd(xs, ys, CheckWarning);
    CountsAdd(xs, ys, CheckUnknown);
  }

  /** So it does not matter how a run of checks is cut into batches, and an empty batch adds nothing. */
  lemma CombiningIsAssociative(xs: seq<Check>, ys: seq<Check>, zs: seq<Check>)
    ensures var x, y, z := ReadinessOf(xs), ReadinessOf(ys), ReadinessOf(zs);
            && CombineReadiness(CombineReadiness(x, y), z) == CombineReadiness(x, CombineReadiness(y, z))
            && CombineReadiness(ReadinessOf([]), x) == x == CombineReadiness(x, ReadinessOf([]))
  {
    ReadinessIsHomomorphism(xs, ys);
    ReadinessIsHomomorphism(ys, zs);
    ReadinessIsHomomorphism(xs + ys, zs);
    ReadinessIsHomomorphism(xs, ys + zs);
    assert xs + ys + zs == xs + (ys + zs);
  }

  // ---- the operational readiness in raw terms -------------------------------------------------------------

  ghost predicate SomeCheck(checks: seq<Check>, s: CheckStatus) {
    exists c :: c in checks && c.status == s
  }

  lemma {:induction false} CountIsPositive(checks: seq<Check>, s: CheckStatus)
    ensures CountStatus(checks, s) > 0 <==> SomeCheck(checks, s)
  {
    if checks != [] {
      var front, last := checks[..|checks| - 1], checks[|checks| - 1];
      CountIsPositive(front, s);
      assert checks == front + [last];
      assert last in checks;
    }
  }

  ghost function ProfileStatus(p: Profile): CheckStatus {
    if p.fail then CheckFail else if p.unknown then CheckUnknown else if p.warning then CheckWarning else CheckPass
  }

  lemma CheckStatusOf(id: CheckID, signals: seq<Signal>, p: Profile)
    requires Profiled(signals, p)
    ensures RaiseAll(Passing(id), signals).status == ProfileStatus(p)
  {
    StatusIsWorstSignal(id, signals);
  }

  ghost function StatusesOf(p: CheckProfiles): seq<CheckStatus> {
    [ProfileStatus(p.nodegroups), ProfileStatus(p.nodeEvidence), ProfileStatus(p.fargate), ProfileStatus(p.addons),
     ProfileStatus(p.selfManagedAddons), ProfileStatus(p.workloads), ProfileStatus(p.disruption),
     ProfileStatus(p.reverseCompatibility), ProfileStatus(p.coverage)]
  }

  lemma CheckStatuses(s: CheckSignals, p: CheckProfiles)
    requires AllProfiled(s, p)
    ensures |ChecksOf(s)| == 9 && forall k | 0 <= k < 9 :: ChecksOf(s)[k].status == StatusesOf(p)[k]
  {
    CheckStatusOf(ManagedNodegroups, s.nodegroups, p.nodegroups);
    CheckStatusOf(SelfManagedNodeEvidence, s.nodeEvidence, p.nodeEvidence);
    CheckStatusOf(FargateEvidence, s.fargate, p.fargate);
    CheckStatusOf(ManagedAddons, s.addons, p.addons);
    CheckStatusOf(SelfManagedAddons, s.selfManagedAddons, p.selfManagedAddons);
    CheckStatusOf(WorkloadHealth, s.workloads, p.workloads);
    CheckStatusOf(DisruptionReadiness, s.disruption, p.disruption);
    CheckStatusOf(ReverseCompatibility, s.reverseCompatibility, p.reverseCompatibility);
    CheckStatusOf(EvidenceCoverage, s.coverage, p.coverage);
    NineStatuses(ChecksOf(s), StatusesOf(p));
  }

  lemma NineStatuses(checks: seq<Check>, statuses: seq<CheckStatus>)
    requires |checks| == |statuses| == 9
    requires checks[0].status == statuses[0] && checks[1].status == statuses[1] && checks[2].status == statuses[2]
    requires checks[3].status == statuses[3] && checks[4].status == statuses[4] && checks[5].status == statuses[5]
    requires checks[6].status == statuses[6] && checks[7].status == statuses[7] && checks[8].status == statuses[8]
    ensures forall k | 0 <= k < 9 :: checks[k].status == statuses[k]
  {
  }

  lemma SomeCheckIffStatus(checks: seq<Check>, statuses: seq<CheckStatus>, s: CheckStatus)
    requires |checks| == |statuses| && forall k | 0 <= k < |checks| :: checks[k].status == statuses[k]
    ensures SomeCheck(checks, s) <==> s in statuses
  {
    if s in statuses {
      var k :| 0 <= k < |statuses| && statuses[k] == s;
      assert checks[k] in checks;
    }
  }

  lemma AllPassIffNoOther(checks: seq<Check>)
    requires forall c | c in checks ::
               c.status.CheckPass? || c.status.CheckWarning? || c.status.CheckUnknown? || c.status.CheckFail?
    ensures (forall c | c in checks :: c.status == CheckPass) <==>
            !SomeCheck(checks, CheckFail) && !SomeCheck(checks, CheckUnknown) && !SomeCheck(checks, CheckWarning)
  {
  }

  /** The checks amount to these three conditions. */
  ghost predicate ChecksSay(checks: seq<Check>, stop: bool, doubt: bool, risk: bool) {
    && (SomeCheck(checks, CheckFail) <==> stop)
    && (!stop ==> (SomeCheck(checks, CheckUnknown) <==> doubt))
    && (!stop && !doubt ==> (SomeCheck(checks, CheckWarning) <==> risk))
    && ((forall c | c in checks :: c.status == CheckPass) <==> !stop && !doubt && !risk)
  }

  lemma FailInStatuses(p: CheckProfiles)
    ensures CheckFail in StatusesOf(p) <==> p.Total().fail
  {
  }

  lemma UnknownInStatuses(p: CheckProfiles)
    requires !p.Total().fail
    ensures CheckUnknown in StatusesOf(p) <==> p.Total().unknown
  {
  }

  lemma WarningInStatuses(p: CheckProfiles)
    requires !p.Total().fail && !p.Total().unknown
    ensures CheckWarning in StatusesOf(p) <==> p.Total().warning
  {
  }

  lemma StatusesAreGraded(p: CheckProfiles, s: CheckStatus)
    requires s in StatusesOf(p)
    ensures s.CheckPass? || s.CheckWarning? || s.CheckUnknown? || s.CheckFail?
  {
  }

  lemma StatusesFollowTotal(checks: seq<Check>, p: CheckProfiles, statuses: seq<CheckStatus>)
    requires statuses == StatusesOf(p)
    requires |checks| == |statuses| && forall k | 0 <= k < |checks| :: checks[k].status == statuses[k]
    ensures ChecksSay(checks, p.Total().fail, p.Total().unknown, p.Total().warning)
  {
    SomeCheckIffStatus(checks, statuses, CheckFail);
    SomeCheckIffStatus(checks, statuses, CheckUnknown);
    SomeCheckIffStatus(checks, statuses, CheckWarning);
    FailInStatuses(p);
    if !p.Total().fail {
      UnknownInStatuses(p);
      if !p.Total().unknown {
        WarningInStatuses(p);
      }
    }
    forall c | c in checks
      ensures c.status.CheckPass? || c.status.CheckWarning? || c.status.CheckUnknown? || c.status.CheckFail?
    {
      var k :| 0 <= k < |checks| && checks[k] == c;
      StatusesAreGraded(p, statuses[k]);
    }
    AllPassIffNoOther(checks);
  }

  lemma ReportChecksSay(g: Gates, c: Cluster, r: ReportDoc)
    ensures ChecksSay(ChecksOf(SignalsByCheck(g, c, r)), HardStop(g, r), Doubt(g, r), Risk(r, c))
  {
    var p := ProfilesOf(g, r, c);
    ChecksAreProfiled(g, c, r);
    CheckStatuses(SignalsByCheck(g, c, r), p);
    StatusesFollowTotal(ChecksOf(SignalsByCheck(g, c, r)), p, StatusesOf(p));
    ChecksSayConditions(ChecksOf(SignalsByCheck(g, c, r)), g, c, r);
  }

  lemma ChecksSayConditions(checks: seq<Check>, g: Gates, c: Cluster, r: ReportDoc)
    requires var t := ProfilesOf(g, r, c).Total(); ChecksSay(checks, t.fail, t.unknown, t.warning)
    ensures ChecksSay(checks, HardStop(g, r), Doubt(g, r), Risk(r, c))
  {
    FailIsHardStop(g, r, c);
    UnknownIsDoubt(g, r, c);
    if !HardStop(g, r) && !Doubt(g, r) {
      WarningIsRisk(g, r, c);
    }
  }

  /** How a report bears on a rollback. Without a report everything is in doubt. */
  ghost predicate Stopped(a: Assessment, report: Option<ReportDoc>) {
    report.Some? && HardStop(GatesFor(a, report.value), report.value)
  }

  ghost predicate Doubtful(a: Assessment, report: Option<ReportDoc>) {
    report.None? || Doubt(GatesFor(a, report.value), report.value)
  }

  ghost predicate Risky(a: Assessment, report: Option<ReportDoc>) {
    report.Some? && Risk(report.value, a.cluster)
  }

  lemma NewChecksSay(a: Assessment, report: Option<ReportDoc>)
    ensures ChecksSay(NewChecks(a, report), Stopped(a, report), Doubtful(a, report), Risky(a, report))
  {
    match report
    case None =>
      ProfileOfOne(Signal(CheckUnknown, ObservabilityEvidenceMissing));
      CheckStatusOf(OperationalEvidence, [Signal(CheckUnknown, ObservabilityEvidenceMissing)], DOUBTFUL);
      assert NewChecks(a, report)[0] in NewChecks(a, report);
    case Some(r) =>
      ReportChecksSay(GatesFor(a, r), a.cluster, r);
  }

  // ---- the decision table --------------------------------------------------------------------------------------

  /** The whole pipeline. */
  function Assess(a: Assessment, report: Option<ReportDoc>): Assessment {
    Recommended(WithReadiness(a, NewChecks(a, report)))
  }

  /** The decision the pipeline reaches. */
  function DecisionOn(a: Assessment, report: Option<ReportDoc>): Decision {
    Assess(a, report).recommendation.decision
  }

  ghost predicate PriorReadiness(a: Assessment) {
    a.readiness.status == ReadinessUnset || ValidReadiness(a.readiness.status)
  }

  /** The decision read off the earlier assessment and the three conditions. An unlisted readiness
      leaves the earlier decision alone when nothing else speaks. */
  ghost function Decide(a: Assessment, stop: bool, doubt: bool, risk: bool): Decision {
    if a.eligibility.status == Unavailable || a.readiness.status == Blocked || stop then DoNotProceed
    else if a.eligibility.status == EligibilityUnknown || a.readiness.status == InsufficientEvidence
            || !a.evidenceComplete || doubt then OperatorDecisionRequired
    else if a.readiness.status == HighRisk || risk then FixForwardPreferred
    else if a.readiness.status.ReadinessOther? then a.recommendation.decision
    else RollbackPreferred
  }

  lemma StatusOfChecks(checks: seq<Check>, stop: bool, doubt: bool, risk: bool)
    requires ChecksSay(checks, stop, doubt, risk)
    ensures ReadinessOf(checks).status
            == if stop then Blocked else if doubt then InsufficientEvidence else if risk then HighRisk else Ready
  {
    CountIsPositive(checks, CheckFail);
    CountIsPositive(checks, CheckUnknown);
    CountIsPositive(checks, CheckWarning);
  }

  lemma DecisionOfChecks(a: Assessment, checks: seq<Check>, stop: bool, doubt: bool, risk: bool)
    requires ChecksSay(checks, stop, doubt, risk)
    ensures Recommended(WithReadiness(a, checks)).recommendation.decision == Decide(a, stop, doubt, risk)
  {
    StatusOfChecks(checks, stop, doubt, risk);
    var b := WithReadiness(a, checks);
    assert b.evidenceComplete <==>
           a.evidenceComplete && b.readiness.status != InsufficientEvidence && !SomeCheck(checks, CheckUnknown);
  }

  /** For every assessment and every report the decision is read off the raw inputs. */
  lemma DecisionTable(a: Assessment, report: Option<ReportDoc>)
    ensures DecisionOn(a, report) == Decide(a, Stopped(a, report), Doubtful(a, report), Risky(a, report))
  {
    NewChecksSay(a, report);
    DecisionOfChecks(a, NewChecks(a, report), Stopped(a, report), Doubtful(a, report), Risky(a, report));
  }

  /** Nothing earlier speaks against a rollback: eligibility is neither denied nor unknown, the evidence
      was complete, and readiness is absent or ready; or it is unlisted and the earlier decision was
      for the rollback already. */
  predicate NothingAgainst(a: Assessment) {
    && a.eligibility.status != Unavailable && a.eligibility.status != EligibilityUnknown && a.evidenceComplete
    && (|| a.readiness.status == ReadinessUnset || a.readiness.status == Ready
        || (a.readiness.status.ReadinessOther? && a.recommendation.decision == RollbackPreferred))
  }

  /** The one "go": rollback is preferred exactly when nothing earlier spoke against it, there is a
      report and all of its nine checks pass. */
  lemma RollbackPreferredIff(a: Assessment, report: Option<ReportDoc>)
    ensures DecisionOn(a, report) == RollbackPreferred <==>
              && NothingAgainst(a) && report.Some?
              && forall c | c in NewChecks(a, report) :: c.status == CheckPass
  {
    NewChecksSay(a, report);
    GoOfChecks(a, NewChecks(a, report), Stopped(a, report), Doubtful(a, report), Risky(a, report));
    assert report.None? ==> Doubtful(a, report);
  }

  lemma GoOfChecks(a: Assessment, checks: seq<Check>, stop: bool, doubt: bool, risk: bool)
    requires ChecksSay(checks, stop, doubt, risk)
    ensures Recommended(WithReadiness(a, checks)).recommendation.decision == RollbackPreferred <==>
              NothingAgainst(a) && !stop && !doubt && !risk
    ensures (forall c | c in checks :: c.status == CheckPass) <==> !stop && !doubt && !risk
  {
    DecisionOfChecks(a, checks, stop, doubt, risk);
  }

  function DecisionRank(d: Decision): nat {
    match d
    case RollbackPreferred => 0
    case FixForwardPreferred => 1
    case OperatorDecisionRequired => 2
    case DoNotProceed => 3
    case _ => 4
  }

  /** The pipeline on a report whose gates are known: findings change no gate. */
  ghost function DecisionUnder(a: Assessment, g: Gates, r: ReportDoc): Decision {
    Decide(a, HardStop(g, r), Doubt(g, r), Risk(r, a.cluster))
  }

  /** The two reports differ in their findings only. */
  predicate OnlyFindingsDiffer(r: ReportDoc, s: ReportDoc) {
    s == r.(findings := s.findings)
  }

  lemma GatesIgnoreFindings(a: Assessment, r: ReportDoc, s: ReportDoc)
    requires OnlyFindingsDiffer(r, s)
    ensures GatesFor(a, s) == GatesFor(a, r)
  {
  }

  lemma DecisionUnderGates(a: Assessment, g: Gates, r: ReportDoc)
    requires g == GatesFor(a, r)
    ensures DecisionOn(a, Some(r)) == DecisionUnder(a, g, r)
  {
    DecisionTable(a, Some(r));
  }

  /** The earlier assessment leaves findings no way to help: its readiness is a listed one, or something
      else in it decides before the readiness does, or the decision it would fall back to is no more
      cautious than the one a risk brings. */
  predicate FindingsCannotHelp(a: Assessment) {
    || !a.readiness.status.ReadinessOther?
    || a.eligibility.status == Unavailable || a.eligibility.status == EligibilityUnknown || !a.evidenceComplete
    || DecisionRank(a.recommendation.decision) <= DecisionRank(FixForwardPreferred)
  }

  lemma MoreConditionsFollow(g: Gates, c: Cluster, r: ReportDoc, s: ReportDoc)
    requires OnlyFindingsDiffer(r, s) && forall f | f in r.findings :: f in s.findings
    ensures HardStop(g, r) ==> HardStop(g, s)
    ensures Doubt(g, r) ==> Doubt(g, s)
    ensures Risk(r, c) ==> Risk(s, c)
  {
  }

  lemma MoreFindingsDeter(a: Assessment, g: Gates, r: ReportDoc, s: ReportDoc)
    requires FindingsCannotHelp(a)
    requires OnlyFindingsDiffer(r, s) && forall f | f in r.findings :: f in s.findings
    ensures DecisionRank(DecisionUnder(a, g, r)) <= DecisionRank(DecisionUnder(a, g, s))
  {
    MoreConditionsFollow(g, a.cluster, r, s);
  }

  /** Adding findings to `r`, wherever they stand and in whatever order, does not move the decision
      toward rollback. */
  ghost predicate Deters(a: Assessment, r: ReportDoc, s: ReportDoc) {
    OnlyFindingsDiffer(r, s) && (forall f | f in r.findings :: f in s.findings) ==>
      DecisionRank(DecisionOn(a, Some(r))) <= DecisionRank(DecisionOn(a, Some(s)))
  }

  lemma MoreFindingsDeterHere(a: Assessment, r: ReportDoc, s: ReportDoc)
    requires FindingsCannotHelp(a)
    ensures Deters(a, r, s)
  {
    if OnlyFindingsDiffer(r, s) && forall f | f in r.findings :: f in s.findings {
      SameGatesForBoth(a, r, s, GatesFor(a, r));
      MoreFindingsDeter(a, GatesFor(a, r), r, s);
    }
  }

  /** A scan of manifests alone that found nothing and has complete coverage. */
  ghost predicate IsQuiet(r: ReportDoc) {
    && IsManifestOnly(r) && r.provider != "eks" && r.findings == [] && r.eksNodegroups == [] && r.eksAddons == []
    && r.coverage == ScanCoverage(CoverageComplete, CoverageComplete, CoverageComplete)
  }

  function QuietReport(): ReportDoc {
    ReportDoc("", "", "", "", None, [], Summary(0, 0, 0, 0),
              ScanCoverage(CoverageComplete, CoverageComplete, CoverageComplete), None, [], [], None, None, false, [],
              false)
  }

  function DisruptionWarning(): Finding {
    Finding("PDB-001", SeverityWarning, TierObserved, [], [], "", [], GateUnset, false, false, "P2", "", false, "f")
  }

  lemma QuietReportSaysNothing(a: Assessment, r: ReportDoc)
    requires IsQuiet(r)
    ensures !Stopped(a, Some(r)) && !Doubtful(a, Some(r)) && !Risky(a, Some(r))
  {
  }

  lemma WarningIsOnlyARisk(a: Assessment, r: ReportDoc, f: Finding)
    requires IsQuiet(r) && f.ruleID == "PDB-001" && f.severity == SeverityWarning
    ensures var s := r.(findings := [f]);
            !Stopped(a, Some(s)) && !Doubtful(a, Some(s)) && Risky(a, Some(s))
  {
    var s := r.(findings := [f]);
    assert HasPrefix("PDB-001", "PDB-") by { assert "PDB-001"[..4] == "PDB-"; }
    assert DisruptionRule(f.ruleID) && !APIRule(f.ruleID) && !CRDWebhookRule(f.ruleID);
    assert f in s.findings;
  }

  lemma SilenceKeepsDecision(a: Assessment, r: ReportDoc)
    requires !FindingsCannotHelp(a) && !Stopped(a, Some(r)) && !Doubtful(a, Some(r)) && !Risky(a, Some(r))
    ensures DecisionOn(a, Some(r)) == a.recommendation.decision
  {
    DecisionTable(a, Some(r));
  }

  lemma RiskFixesForward(a: Assessment, s: ReportDoc)
    requires !FindingsCannotHelp(a) && !Stopped(a, Some(s)) && !Doubtful(a, Some(s)) && Risky(a, Some(s))
    ensures DecisionOn(a, Some(s)) == FixForwardPreferred
  {
    DecisionTable(a, Some(s));
  }

  /** The exception exists: an unlisted readiness and an earlier decision more cautious than fixing
      forward. A report without anything to object to leaves that decision; one disruption warning
      turns it into fixing forward. */
  lemma FindingCanHelp(a: Assessment, r: ReportDoc, f: Finding)
    requires !FindingsCannotHelp(a) && IsQuiet(r) && f.ruleID == "PDB-001" && f.severity == SeverityWarning
    ensures DecisionOn(a, Some(r)) == a.recommendation.decision
    ensures DecisionOn(a, Some(r.(findings := [f]))) == FixForwardPreferred
    ensures DecisionRank(FixForwardPreferred) < DecisionRank(a.recommendation.decision)
  {
    var s := r.(findings := [f]);
    QuietReportSaysNothing(a, r);
    SilenceKeepsDecision(a, r);
    WarningIsOnlyARisk(a, r, f);
    RiskFixesForward(a, s);
  }

  lemma SomeReportIsNotDeterred(a: Assessment, r: ReportDoc, f: Finding)
    requires !FindingsCannotHelp(a) && IsQuiet(r) && f.ruleID == "PDB-001" && f.severity == SeverityWarning
    ensures !Deters(a, r, r.(findings := [f]))
  {
    FindingCanHelp(a, r, f);
  }

  /** For every assessment: more findings never move the decision toward rollback, on any report,
      exactly when the assessment leaves them no way to help. */
  lemma FindingsOnlyDeterIff(a: Assessment)
    ensures (forall r: ReportDoc, s: ReportDoc :: Deters(a, r, s)) <==> FindingsCannotHelp(a)
  {
    if FindingsCannotHelp(a) {
      forall r: ReportDoc, s: ReportDoc
        ensures Deters(a, r, s)
      {
        MoreFindingsDeterHere(a, r, s);
      }
    } else {
      SomeReportIsNotDeterred(a, QuietReport(), DisruptionWarning());
    }
  }

  lemma SameGatesForBoth(a: Assessment, r: ReportDoc, s: ReportDoc, g: Gates)
    requires OnlyFindingsDiffer(r, s) && g == GatesFor(a, r)
    ensures DecisionOn(a, Some(r)) == DecisionUnder(a, g, r) && DecisionOn(a, Some(s)) == DecisionUnder(a, g, s)
  {
    GatesIgnoreFindings(a, r, s);
    DecisionUnderGates(a, g, r);
    DecisionUnderGates(a, g, s);
  }

  /** Permuting or repeating findings never changes the decision. */
  lemma DecisionIgnoresFindingOrder(a: Assessment, r: ReportDoc, s: ReportDoc)
    requires OnlyFindingsDiffer(r, s) && forall f :: f in r.findings <==> f in s.findings
    ensures DecisionOn(a, Some(r)) == DecisionOn(a, Some(s))
  {
    SameGatesForBoth(a, r, s, GatesFor(a, r));
    SameFindingsSameDecision(a, GatesFor(a, r), r, s);
  }

  lemma SameFindingsSameDecision(a: Assessment, g: Gates, r: ReportDoc, s: ReportDoc)
    requires OnlyFindingsDiffer(r, s) && forall f :: f in r.findings <==> f in s.findings
    ensures DecisionUnder(a, g, r) == DecisionUnder(a, g, s)
  {
    MoreConditionsFollow(g, a.cluster, r, s);
    MoreConditionsFollow(g, a.cluster, s, r);
  }

  // ---- validity of the document -----------------------------------------------------------------------------------

  ghost predicate ValidSignals(signals: seq<Signal>) {
    forall x | x in signals :: !x.reason.ReasonOther?
  }

  lemma {:induction false} RaisedReasons(c: Check, signals: seq<Signal>)
    requires ValidReasons(c.reasonCodes) && ValidSignals(signals)
    ensures ValidReasons(RaiseAll(c, signals).reasonCodes)
  {
    if signals != [] {
      var front, last := signals[..|signals| - 1], signals[|signals| - 1];
      assert signals == front + [last];
      RaisedReasons(c, front);
    }
  }

  lemma FindingReasonsValid(fs: seq<Finding>, prefixes: seq<string>, reason: ReasonCode)
    requires !reason.ReasonOther?
    ensures ValidSignals(FindingSignals(fs, prefixes, reason))
  {
    FindingSignalsAre(fs, prefixes, reason);
  }

  ghost predicate ValidGates(g: Gates) {
    && ValidSignals(GateSignals(g.identity)) && ValidSignals(GateSignals(g.freshness))
    && ValidSignals(GateSignals(g.target))
  }

  lemma IdentityGateIsValid(r: ReportDoc, c: Cluster)
    ensures ValidSignals(GateSignals(IdentityGate(r, c)))
  {
  }

  lemma FreshnessGateIsValid(r: ReportDoc, at: Option<int>)
    ensures ValidSignals(GateSignals(FreshnessGate(r, at)))
  {
  }

  lemma TargetGateIsValid(findingsTarget: string, rollbackTarget: string)
    ensures ValidSignals(GateSignals(TargetGate(findingsTarget, rollbackTarget)))
  {
  }

  lemma GatesAreValid(a: Assessment, r: ReportDoc)
    ensures ValidGates(GatesFor(a, r))
  {
    IdentityGateIsValid(r, a.cluster);
    FreshnessGateIsValid(r, a.generatedAt);
    TargetGateIsValid(r.targetVersion, a.cluster.rollbackTargetVersion);
  }

  lemma ReverseReasonsValid(g: Gates, fs: seq<Finding>)
    requires ValidGates(g)
    ensures ValidSignals(ReverseCompatibilitySignals(g, fs))
  {
    FindingReasonsValid(Matching(fs, API_RULES), API_RULES, NewVersionAPIAdoptionRisk);
    FindingReasonsValid(Matching(fs, LIVE_WEBHOOK_RULES), LIVE_WEBHOOK_RULES, CRDWebhookControllerRisk);
    FindingReasonsValid(TargetGated(fs), CRD_WEBHOOK_RULES, CRDWebhookControllerRisk);
  }

  lemma InventoryReasonsValid(r: ReportDoc, c: Cluster)
    ensures ValidSignals(NodegroupSignals(r.eksNodegroups, c)) && ValidSignals(AddonSignals(r.eksAddons))
    ensures ValidSignals(DisruptionSignals(r.findings, NO_OPERATION_EVIDENCE))
  {
    forall x | x in NodegroupSignals(r.eksNodegroups, c)
      ensures !x.reason.ReasonOther?
    {
      NodegroupSignalsAre(r.eksNodegroups, c, x);
    }
    forall x | x in AddonSignals(r.eksAddons)
      ensures !x.reason.ReasonOther?
    {
      AddonSignalsAre(r.eksAddons, x);
    }
    DisruptionSignalsAre(r.findings);
  }

  ghost predicate AllValid(s: CheckSignals) {
    && ValidSignals(s.nodegroups) && ValidSignals(s.nodeEvidence) && ValidSignals(s.fargate)
    && ValidSignals(s.addons) && ValidSignals(s.selfManagedAddons) && ValidSignals(s.workloads)
    && ValidSignals(s.disruption) && ValidSignals(s.reverseCompatibility) && ValidSignals(s.coverage)
  }

  lemma AddonReasonsValid(g: Gates, r: ReportDoc)
    requires ValidGates(g)
    ensures ValidSignals(Gated(g, AddonSignals(r.eksAddons)
                                  + FindingSignals(r.findings, ["ADDON-001"], ManagedAddonRollbackRequired)
                                  + FindingSignals(r.findings, ["ADDON-002"], ManagedAddonCompatibilityUnknown)))
  {
    InventoryReasonsValid(r, Cluster("", "", "", ""));
    FindingReasonsValid(r.findings, ["ADDON-001"], ManagedAddonRollbackRequired);
    FindingReasonsValid(r.findings, ["ADDON-002"], ManagedAddonCompatibilityUnknown);
  }

  lemma GatedIsValid(g: Gates, signals: seq<Signal>)
    requires ValidGates(g) && ValidSignals(signals)
    ensures ValidSignals(Gated(g, signals))
  {
  }

  lemma FargateReasonsValid(r: ReportDoc)
    ensures ValidSignals(FargateSignals(r))
  {
  }

  lemma SignalReasonsValid(g: Gates, c: Cluster, r: ReportDoc)
    requires ValidGates(g)
    ensures AllValid(SignalsByCheck(g, c, r))
  {
    var fs := r.findings;
    InventoryReasonsValid(r, c);
    GatedIsValid(g, NodegroupSignals(r.eksNodegroups, c));
    FargateReasonsValid(r);
    AddonReasonsValid(g, r);
    FindingReasonsValid(fs, ["ADDON-002"], SelfManagedAddonCompatibilityUnknown);
    GatedIsValid(g, FindingSignals(fs, ["ADDON-002"], SelfManagedAddonCompatibilityUnknown));
    FindingReasonsValid(fs, WORKLOAD_RULES, UnhealthyWorkloadsPresent);
    GatedIsValid(g, FindingSignals(fs, WORKLOAD_RULES, UnhealthyWorkloadsPresent));
    GatedIsValid(g, DisruptionSignals(fs, NO_OPERATION_EVIDENCE));
    ReverseReasonsValid(g, fs);
  }

  lemma ReportChecksAreValid(g: Gates, c: Cluster, r: ReportDoc)
    requires ValidGates(g)
    ensures ValidChecks(ChecksOf(SignalsByCheck(g, c, r)))
  {
    SignalReasonsValid(g, c, r);
    ChecksAreProfiled(g, c, r);
    RaisedChecksAreValid(SignalsByCheck(g, c, r), ProfilesOf(g, r, c));
  }

  lemma RaisedCheckIsValid(id: CheckID, signals: seq<Signal>, p: Profile)
    requires ValidSignals(signals) && Profiled(signals, p)
    ensures ValidChecks([RaiseAll(Passing(id), signals)])
  {
    CheckStatusOf(id, signals, p);
    RaisedReasons(Passing(id), signals);
  }

  lemma RaisedChecksAreValid(s: CheckSignals, p: CheckProfiles)
    requires AllValid(s) && AllProfiled(s, p)
    ensures ValidChecks(ChecksOf(s))
  {
    RaisedCheckIsValid(ManagedNodegroups, s.nodegroups, p.nodegroups);
    RaisedCheckIsValid(SelfManagedNodeEvidence, s.nodeEvidence, p.nodeEvidence);
    RaisedCheckIsValid(FargateEvidence, s.fargate, p.fargate);
    RaisedCheckIsValid(ManagedAddons, s.addons, p.addons);
    RaisedCheckIsValid(SelfManagedAddons, s.selfManagedAddons, p.selfManagedAddons);
    RaisedCheckIsValid(WorkloadHealth, s.workloads, p.workloads);
    RaisedCheckIsValid(DisruptionReadiness, s.disruption, p.disruption);
    RaisedCheckIsValid(ReverseCompatibility, s.reverseCompatibility, p.reverseCompatibility);
    RaisedCheckIsValid(EvidenceCoverage, s.coverage, p.coverage);
    var checks := ChecksOf(s);
    forall k: nat | k < 9
      ensures ValidChecks([checks[k]])
    {
    }
    forall c | c in checks
      ensures ValidChecks([c])
    {
    }
    ValidOneByOne(checks);
  }

  lemma ValidOneByOne(checks: seq<Check>)
    requires forall c | c in checks :: ValidChecks([c])
    ensures ValidChecks(checks)
  {
    forall c | c in checks
      ensures !c.status.CheckOther? && ValidReasons(c.reasonCodes)
    {
      assert c in [c];
    }
  }

  lemma NewChecksAreValid(a: Assessment, report: Option<ReportDoc>)
    ensures ValidChecks(NewChecks(a, report))
  {
    match report
    case None =>
      RaisedReasons(Passing(OperationalEvidence), [Signal(CheckUnknown, ObservabilityEvidenceMissing)]);
      ProfileOfOne(Signal(CheckUnknown, ObservabilityEvidenceMissing));
      CheckStatusOf(OperationalEvidence, [Signal(CheckUnknown, ObservabilityEvidenceMissing)], DOUBTFUL);
    case Some(r) =>
      GatesAreValid(a, r);
      ReportChecksAreValid(GatesFor(a, r), a.cluster, r);
  }

  ghost predicate ValidInputs(a: Assessment) {
    && a.schemaVersion == SCHEMA_VERSION && !a.mode.ModeOther? && !a.eligibility.status.EligibilityOther?
    && ValidReasons(a.eligibility.reasonCodes) && ValidReasons(a.recommendation.reasonCodes) && ValidChecks(a.checks)
  }

  lemma ReasonsAreValid(b: Assessment)
    ensures ValidReasons(b.eligibility.reasonCodes) && ValidReasons(b.recommendation.reasonCodes)
            && ValidChecks(b.checks)
            ==> ValidReasons(RecommendationReasonsOf(b))
    ensures ValidReasons(RecommendationReasonsOf(b)) ==> ValidReasons(b.recommendation.reasonCodes)
  {
    forall c
      ensures c in RecommendationReasonsOf(b) <==>
              || c in b.eligibility.reasonCodes || c in b.recommendation.reasonCodes
              || exists k :: k in b.checks && c in k.reasonCodes
    {
      RecommendationCites(b, c);
    }
  }

  lemma ResultOfChecksValidatesIff(a: Assessment, checks: seq<Check>, stop: bool, doubt: bool, risk: bool)
    requires ValidChecks(checks) && ChecksSay(checks, stop, doubt, risk)
    ensures Validates(Recommended(WithReadiness(a, checks))) <==>
            ValidInputs(a) && (PriorReadiness(a) || stop || doubt || risk)
  {
    StatusOfChecks(checks, stop, doubt, risk);
    ReasonsAreValid(WithReadiness(a, checks));
    assert ValidChecks(a.checks + checks) <==> ValidChecks(a.checks) by {
      assert forall k :: k in a.checks + checks <==> k in a.checks || k in checks;
    }
  }

  /** The document the pipeline produces passes validation exactly when the parts it was given are
      valid and an earlier readiness that is neither absent nor recognised was overruled by a check
      that does not pass. */
  lemma ResultValidatesIff(a: Assessment, report: Option<ReportDoc>)
    ensures Validates(Assess(a, report)) <==>
            ValidInputs(a) && (PriorReadiness(a) || Stopped(a, report) || Doubtful(a, report) || Risky(a, report))
  {
    NewChecksSay(a, report);
    NewChecksAreValid(a, report);
    ResultOfChecksValidatesIff(a, NewChecks(a, report), Stopped(a, report), Doubtful(a, report), Risky(a, report));
  }

  /** The exception exists: valid inputs whose earlier readiness has an unlisted value, and a report
      without anything to object to, give a document that fails validation. */
  lemma UnlistedReadinessSurvives(a: Assessment, r: ReportDoc)
    requires ValidInputs(a) && a.readiness.status.ReadinessOther? && IsQuiet(r)
    ensures !Validates(Assess(a, Some(r)))
  {
    QuietReportSaysNothing(a, r);
    ResultValidatesIff(a, Some(r));
  }

  lemma ValidGoOfChecks(a: Assessment, checks: seq<Check>, stop: bool, doubt: bool, risk: bool)
    requires ValidChecks(checks) && ChecksSay(checks, stop, doubt, risk)
    requires Validates(Recommended(WithReadiness(a, checks)))
    ensures Recommended(WithReadiness(a, checks)).recommendation.decision == RollbackPreferred <==>
              && a.eligibility.status == Eligible && a.evidenceComplete
              && (a.readiness.status == ReadinessUnset || a.readiness.status == Ready)
              && !stop && !doubt && !risk
  {
    ResultOfChecksValidatesIff(a, checks, stop, doubt, risk);
    GoOfChecks(a, checks, stop, doubt, risk);
  }

  /** A valid document that prefers the rollback was given a listed readiness and an eligible cluster:
      validation refuses the go for every other eligibility and every unlisted readiness. */
  lemma ValidGoIff(a: Assessment, report: Option<ReportDoc>)
    requires Validates(Assess(a, report))
    ensures DecisionOn(a, report) == RollbackPreferred <==>
              && a.eligibility.status == Eligible && a.evidenceComplete
              && (a.readiness.status == ReadinessUnset || a.readiness.status == Ready)
              && report.Some? && forall c | c in NewChecks(a, report) :: c.status == CheckPass
  {
    NewChecksSay(a, report);
    NewChecksAreValid(a, report);
    ValidGoOfChecks(a, NewChecks(a, report), Stopped(a, report), Doubtful(a, report), Risky(a, report));
    assert report.None? ==> Doubtful(a, report);
  }
}
