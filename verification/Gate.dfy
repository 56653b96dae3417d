/** Turning a comparison into a CI decision under a policy (internal/gate). */
module Gate {
  import opened Findings
  import opened Reports
  import opened Scorecard
  import opened Coverage
  import opened Comparison

  datatype Decision = Pass | Fail | Neutral
  datatype WarningPolicy = IgnoreWarnings | FailOnNew | FailOnAny | WarningPolicyOther(raw: string)
  datatype ReasonCode =
    | NewBlockersDetected | NewWarningsDetected | WarningsPresent | VerdictRegressed | ScoreRegressed
    | InsufficientEvidence

  datatype Policy = Policy(
    failOnNewBlockers: bool, warningPolicy: WarningPolicy, failOnVerdictRegression: bool, minimumScoreDelta: int)

  const DEFAULT_POLICY: Policy := Policy(true, IgnoreWarnings, true, 0)

  /** Shown beside the decision; the texts are left out. */
  datatype Advisory =
    | CoverageAdvisory(status: CoverageVerdict, gap: nat, degradedPlanes: seq<string>)
    | NotReEvaluatedAdvisory(count: nat)

  datatype GateCoverage = GateCoverage(
    status: CoverageVerdict, notEvaluated: nat, insufficientEvidence: nat, failed: nat, normalized: bool,
    degradedPlanes: seq<string>, notReEvaluated: nat)

  datatype GateResult = GateResult(
    decision: Decision, reasons: seq<ReasonCode>, newBlockers: nat, newWarnings: nat, currentWarnings: nat,
    resolvedFindings: nat, scoreDelta: int, coverage: GateCoverage, advisories: seq<Advisory>)

  /** A verdict missing from the table, INCOMPLETE, ranks like CLEAN; the evidence check comes first. */
  function VerdictRank(v: Verdict): nat {
    match v case CLEAN => 0 case PASSED_WITH_WARNINGS => 1 case BLOCKED => 2 case INCOMPLETE => 0
  }

  predicate HasRegressed(baseline: Verdict, current: Verdict) {
    VerdictRank(current) > VerdictRank(baseline)
  }

  predicate IsWarning(f: Finding) {
    f.severity == SeverityWarning
  }

  method CountSeverity(entries: seq<Finding>, severity: Severity) returns (n: nat)
    ensures n == Count(entries, (f: Finding) => f.severity == severity)
  {
    n := 0;
    var has := (f: Finding) => f.severity == severity;
    for i := 0 to |entries|
      invariant n == Count(entries[..i], has)
    {
      assert entries[..i + 1][..i] == entries[..i];
      if entries[i].severity == severity {
        n := n + 1;
      }
    }
    assert entries[..|entries|] == entries;
    SameCount(entries, has, (f: Finding) => f.severity == severity);
  }

  // ---- what a decision means ------------------------------------------------------------------------------------

  /** Too little is known to decide: a scan is incomplete, or the two scans do not compare. */
  ghost predicate LacksEvidence(baseline: ReportDoc, current: ReportDoc, cmp: Comparison) {
    !baseline.IsComplete() || !current.IsComplete() || cmp.warnings != []
  }

  /** What a policy looks at. */
  datatype Facts = Facts(newBlockers: nat, newWarnings: nat, currentWarnings: nat, regressed: bool, scoreDelta: int)

  function FactsOf(current: ReportDoc, cmp: Comparison): Facts {
    Facts(cmp.summary.newBlockers, Count(cmp.buckets.added, IsWarning), current.summary.warnings,
          HasRegressed(cmp.summary.baselineVerdict, cmp.summary.currentVerdict), cmp.summary.readinessScoreDelta)
  }

  /** The policy objects to a comparison with these facts for this reason. */
  predicate Objects(p: Policy, facts: Facts, reason: ReasonCode) {
    match reason
    case NewBlockersDetected => p.failOnNewBlockers && facts.newBlockers > 0
    case NewWarningsDetected => p.warningPolicy == FailOnNew && facts.newWarnings > 0
    case WarningsPresent => p.warningPolicy == FailOnAny && facts.currentWarnings > 0
    case VerdictRegressed => p.failOnVerdictRegression && facts.regressed
    case ScoreRegressed => facts.scoreDelta < p.minimumScoreDelta
    case InsufficientEvidence => false
  }

  function ReasonRank(r: ReasonCode): nat {
    match r
    case NewBlockersDetected => 0
    case NewWarningsDetected => 1
    case WarningsPresent => 2
    case VerdictRegressed => 3
    case ScoreRegressed => 4
    case InsufficientEvidence => 5
  }

  ghost predicate InReasonOrder(reasons: seq<ReasonCode>) {
    forall i, j | 0 <= i < j < |reasons| :: ReasonRank(reasons[i]) < ReasonRank(reasons[j])
  }

  /** Evidence decides before policy does; otherwise the gate fails exactly when the policy objects,
      and cites every objection once, in a fixed order. */
  ghost predicate IsDecision(baseline: ReportDoc, current: ReportDoc, cmp: Comparison, p: Policy, r: GateResult) {
    && (r.decision == Neutral <==> LacksEvidence(baseline, current, cmp))
    && (r.decision == Neutral ==> r.reasons == [InsufficientEvidence])
    && (r.decision != Neutral ==>
          && InReasonOrder(r.reasons)
          && forall reason :: reason in r.reasons <==> Objects(p, FactsOf(current, cmp), reason))
    && (r.decision == Fail <==> r.decision != Neutral && r.reasons != [])
  }

  ghost predicate IsPresentation(current: ReportDoc, cmp: Comparison, c: GateCoverage, advisories: seq<Advisory>) {
    && c.status == OverallStatus(current)
    && c.notReEvaluated == cmp.summary.notReEvaluated
    && c.normalized == (|current.ruleExecutions| > 0 && current.ruleExecutionsNormalized)
    && c.notEvaluated == CountRecords(current.ruleExecutions, WasNotEvaluated)
    && c.insufficientEvidence == CountRecords(current.ruleExecutions, LackedEvidence)
    && c.failed == CountRecords(current.ruleExecutions, HasFailed)
    && c.degradedPlanes == (if c.status == Unavailable || c.status == NormalizedLegacy then []
                            else Degraded(PlanesOf(current.coverage)))
    && (c.status == Complete ==> c.degradedPlanes == [])
    && advisories
       == (if c.status == Complete then []
           else [CoverageAdvisory(c.status, c.notEvaluated + c.insufficientEvidence + c.failed, c.degradedPlanes)])
          + (if c.notReEvaluated == 0 then [] else [NotReEvaluatedAdvisory(c.notReEvaluated)])
  }

  ghost predicate IsEvaluation(baseline: ReportDoc, current: ReportDoc, cmp: Comparison, p: Policy, r: GateResult) {
    && IsDecision(baseline, current, cmp, p, r)
    && IsPresentation(current, cmp, r.coverage, r.advisories)
    && r.newBlockers == cmp.summary.newBlockers && r.newWarnings == Count(cmp.buckets.added, IsWarning)
    && r.currentWarnings == current.summary.warnings && r.resolvedFindings == cmp.summary.resolved
    && r.scoreDelta == cmp.summary.readinessScoreDelta
  }

  // ---- the operations ----------------------------------------------------------------------------------------------

  method BuildEvaluationPresentation(current: ReportDoc, cmp: Comparison)
    returns (c: GateCoverage, advisories: seq<Advisory>)
    ensures IsPresentation(current, cmp, c, advisories)
  {
    var rules := BuildEvaluationCoverage(current);
    var overall := BuildOverallCoverage(rules, current.coverage);
    OverallStatusIs(current, rules, overall);
    DegradedIffPartial(current.coverage);
    c := GateCoverage(overall.status, rules.notEvaluated, rules.insufficientEvidence, rules.failed, rules.normalized,
                      overall.degradedPlanes, cmp.summary.notReEvaluated);
    advisories := [];
    if overall.status != Complete {
      advisories := advisories + [CoverageAdvisory(overall.status, c.notEvaluated + c.insufficientEvidence + c.failed,
                                                   c.degradedPlanes)];
    }
    if cmp.summary.notReEvaluated > 0 {
      advisories := advisories + [NotReEvaluatedAdvisory(cmp.summary.notReEvaluated)];
    }
  }

  method Evaluate(baseline: ReportDoc, current: ReportDoc, cmp: Comparison, p: Policy) returns (r: GateResult)
    ensures IsEvaluation(baseline, current, cmp, p, r)
  {
    var newWarnings := CountSeverity(cmp.buckets.added, SeverityWarning);
    SameCount(cmp.buckets.added, (f: Finding) => f.severity == SeverityWarning, IsWarning);
    var coverage, advisories := BuildEvaluationPresentation(current, cmp);
    r := GateResult(Pass, [], cmp.summary.newBlockers, newWarnings, current.summary.warnings, cmp.summary.resolved,
                    cmp.summary.readinessScoreDelta, coverage, advisories);
    if !baseline.IsComplete() || !current.IsComplete() || |cmp.warnings| > 0 {
      return r.(decision := Neutral, reasons := [InsufficientEvidence]);
    }
    var regressed := HasRegressed(cmp.summary.baselineVerdict, cmp.summary.currentVerdict);
    var reasons := CollectReasons(p, Facts(r.newBlockers, newWarnings, r.currentWarnings, regressed, r.scoreDelta));
    r := r.(decision := if |reasons| > 0 then Fail else Pass, reasons := reasons);
  }

  /** The objections among the first `n` reasons, in order. */
  ghost predicate Collected(p: Policy, facts: Facts, reasons: seq<ReasonCode>, n: nat) {
    && InReasonOrder(reasons)
    && forall reason :: reason in reasons <==> ReasonRank(reason) < n && Objects(p, facts, reason)
  }

  lemma CollectNext(p: Policy, facts: Facts, reasons: seq<ReasonCode>, next: ReasonCode)
    requires Collected(p, facts, reasons, ReasonRank(next))
    ensures Collected(p, facts, if Objects(p, facts, next) then reasons + [next] else reasons, ReasonRank(next) + 1)
  {
    forall i | 0 <= i < |reasons|
      ensures ReasonRank(reasons[i]) < ReasonRank(next)
    {
      assert reasons[i] in reasons;
    }
  }

  method CollectReasons(p: Policy, facts: Facts) returns (reasons: seq<ReasonCode>)
    ensures Collected(p, facts, reasons, 6)
  {
    reasons := CollectFindingReasons(p, facts);
    CollectNext(p, facts, reasons, VerdictRegressed);
    if p.failOnVerdictRegression && facts.regressed {
      reasons := reasons + [VerdictRegressed];
    }
    CollectNext(p, facts, reasons, ScoreRegressed);
    if facts.scoreDelta < p.minimumScoreDelta {
      reasons := reasons + [ScoreRegressed];
    }
    CollectNext(p, facts, reasons, InsufficientEvidence);
  }

  /** The reasons that look at blockers and warnings. */
  method CollectFindingReasons(p: Policy, facts: Facts) returns (reasons: seq<ReasonCode>)
    ensures Collected(p, facts, reasons, 3)
  {
    reasons := [];
    if p.failOnNewBlockers && facts.newBlockers > 0 {
      reasons := [NewBlockersDetected];
    }
    CollectNext(p, facts, reasons, NewWarningsDetected);
    match p.warningPolicy {
      case FailOnNew =>
        if facts.newWarnings > 0 {
          reasons := reasons + [NewWarningsDetected];
        }
        CollectNext(p, facts, reasons, WarningsPresent);
      case FailOnAny =>
        CollectNext(p, facts, reasons, WarningsPresent);
        if facts.currentWarnings > 0 {
          reasons := reasons + [WarningsPresent];
        }
      case _ =>
        CollectNext(p, facts, reasons, WarningsPresent);
    }
  }
}
