/** The coverage summaries shown beside every verdict (internal/report/evaluation_coverage.go), and
    when they agree with the report's own notion of completeness. */
module Coverage {
  import opened Reports

  datatype CoverageVerdict = Complete | Partial | Unavailable | NormalizedLegacy

  datatype EvaluationCoverage = EvaluationCoverage(
    hasData: bool, complete: bool, total: nat, evaluated: nat, notEvaluated: nat, insufficientEvidence: nat,
    failed: nat, notApplicable: nat, normalized: bool, status: CoverageVerdict)

  datatype OverallCoverage = OverallCoverage(status: CoverageVerdict, rules: EvaluationCoverage,
                                             degradedPlanes: seq<string>)

  function CountRecords(records: seq<RuleExecutionRecord>, p: RuleExecutionRecord -> bool): nat {
    if records == [] then 0
    else CountRecords(records[..|records| - 1], p) + if p(records[|records| - 1]) then 1 else 0
  }

  lemma {:induction false} RecordsPositive(records: seq<RuleExecutionRecord>, p: RuleExecutionRecord -> bool)
    ensures CountRecords(records, p) > 0 <==> exists rec :: rec in records && p(rec)
  {
    if records != [] {
      RecordsPositive(records[..|records| - 1], p);
      assert records == records[..|records| - 1] + [records[|records| - 1]];
    }
  }

  predicate IsNotApplicable(rec: RuleExecutionRecord) {
    rec.applicability == NotApplicable
  }

  /** In scope and in this state; a state the build does not know counts as not evaluated. */
  predicate WasEvaluated(rec: RuleExecutionRecord) {
    !IsNotApplicable(rec) && rec.state == ExecutionEvaluated
  }

  predicate LackedEvidence(rec: RuleExecutionRecord) {
    !IsNotApplicable(rec) && rec.state == ExecutionInsufficientEvidence
  }

  predicate HasFailed(rec: RuleExecutionRecord) {
    !IsNotApplicable(rec) && rec.state == ExecutionFailed
  }

  predicate WasNotEvaluated(rec: RuleExecutionRecord) {
    !IsNotApplicable(rec) && (rec.state == ExecutionNotEvaluated || rec.state.ExecutionOther?)
  }

  ghost predicate IsGap(rec: RuleExecutionRecord) {
    !IsNotApplicable(rec) && rec.state != ExecutionEvaluated
  }

  /** `BuildEvaluationCoverage`: the five counts, and a status that backfilled data can never turn
      into "complete". */
  method BuildEvaluationCoverage(d: ReportDoc) returns (c: EvaluationCoverage)
    ensures |d.ruleExecutions| == 0 ==> c == EvaluationCoverage(false, false, 0, 0, 0, 0, 0, 0, false, Unavailable)
    ensures |d.ruleExecutions| > 0 ==> IsEvaluationCoverage(d, c)
  {
    var records := d.ruleExecutions;
    if |records| == 0 {
      return EvaluationCoverage(false, false, 0, 0, 0, 0, 0, 0, false, Unavailable);
    }
    var evaluated, notEvaluated, insufficient, failed, notApplicable := 0, 0, 0, 0, 0;
    for i := 0 to |records|
      invariant evaluated == CountRecords(records[..i], WasEvaluated)
      invariant notEvaluated == CountRecords(records[..i], WasNotEvaluated)
      invariant insufficient == CountRecords(records[..i], LackedEvidence)
      invariant failed == CountRecords(records[..i], HasFailed)
      invariant notApplicable == CountRecords(records[..i], IsNotApplicable)
    {
      assert records[..i + 1][..i] == records[..i];
      if records[i].applicability == NotApplicable {
        notApplicable := notApplicable + 1;
      } else {
        match records[i].state
        case ExecutionEvaluated => evaluated := evaluated + 1;
        case ExecutionInsufficientEvidence => insufficient := insufficient + 1;
        case ExecutionFailed => failed := failed + 1;
        case _ => notEvaluated := notEvaluated + 1;
      }
    }
    assert records[..|records|] == records;
    var complete := notEvaluated == 0 && insufficient == 0 && failed == 0;
    var status := if d.ruleExecutionsNormalized then NormalizedLegacy else if complete then Complete else Partial;
    c := EvaluationCoverage(true, complete, |records|, evaluated, notEvaluated, insufficient, failed, notApplicable,
                            d.ruleExecutionsNormalized, status);
    NoGapIffCountsVanish(records);
  }

  ghost predicate IsEvaluationCoverage(d: ReportDoc, c: EvaluationCoverage) {
    && c.hasData && c.total == |d.ruleExecutions| && c.normalized == d.ruleExecutionsNormalized
    && c.evaluated == CountRecords(d.ruleExecutions, WasEvaluated)
    && c.notEvaluated == CountRecords(d.ruleExecutions, WasNotEvaluated)
    && c.insufficientEvidence == CountRecords(d.ruleExecutions, LackedEvidence)
    && c.failed == CountRecords(d.ruleExecutions, HasFailed)
    && c.notApplicable == CountRecords(d.ruleExecutions, IsNotApplicable)
    && (c.complete <==> forall rec | rec in d.ruleExecutions :: !IsGap(rec))
    && c.status == if d.ruleExecutionsNormalized then NormalizedLegacy else if c.complete then Complete else Partial
  }

  lemma NoGapIffCountsVanish(records: seq<RuleExecutionRecord>)
    ensures (&& CountRecords(records, WasNotEvaluated) == 0
             && CountRecords(records, LackedEvidence) == 0
             && CountRecords(records, HasFailed) == 0)
            <==> forall rec | rec in records :: !IsGap(rec)
  {
    RecordsPositive(records, WasNotEvaluated);
    RecordsPositive(records, LackedEvidence);
    RecordsPositive(records, HasFailed);
    assert forall rec :: IsGap(rec) <==> WasNotEvaluated(rec) || LackedEvidence(rec) || HasFailed(rec);
  }

  /** Every record falls under exactly one of the five counts. */
  lemma {:induction false} CountsCoverAllRules(records: seq<RuleExecutionRecord>)
    ensures CountRecords(records, WasEvaluated) + CountRecords(records, WasNotEvaluated)
            + CountRecords(records, LackedEvidence)
            + CountRecords(records, HasFailed) + CountRecords(records, IsNotApplicable) == |records|
  {
    if records != [] {
      CountsCoverAllRules(records[..|records| - 1]);
    }
  }

  /** `BuildOverallCoverage`: rule coverage joined with the planes that came back partial. */
  method BuildOverallCoverage(rules: EvaluationCoverage, sc: ScanCoverage) returns (o: OverallCoverage)
    ensures IsOverallCoverage(rules, sc, o)
  {
    if rules.status == Unavailable || rules.status == NormalizedLegacy {
      return OverallCoverage(rules.status, rules, []);
    }
    var planes := PlanesOf(sc);
    var degraded: seq<string> := [];
    for i := 0 to |planes|
      invariant degraded == Degraded(planes[..i])
    {
      assert planes[..i + 1][..i] == planes[..i];
      if planes[i].1 == CoveragePartial {
        degraded := degraded + [planes[i].0];
      }
    }
    assert planes[..|planes|] == planes;
    DegradedIffPartial(sc);
    o := OverallCoverage(if rules.status == Partial || |degraded| > 0 then Partial else Complete, rules, degraded);
  }

  function PlanesOf(sc: ScanCoverage): seq<(string, CoverageStatus)> {
    [("Kubernetes", sc.kubernetes), ("AWS", sc.aws), ("Manifests", sc.manifests)]
  }

  function Degraded(planes: seq<(string, CoverageStatus)>): seq<string> {
    if planes == [] then []
    else
      var front, last := Degraded(planes[..|planes| - 1]), planes[|planes| - 1];
      if last.1 == CoveragePartial then front + [last.0] else front
  }

  lemma {:induction false} DegradedIffSomePartial(planes: seq<(string, CoverageStatus)>)
    ensures Degraded(planes) != [] <==> exists p :: p in planes && p.1 == CoveragePartial
  {
    if planes != [] {
      DegradedIffSomePartial(planes[..|planes| - 1]);
      assert planes == planes[..|planes| - 1] + [planes[|planes| - 1]];
    }
  }

  /** Which planes are named, and in which order. */
  lemma DegradedMeans(sc: ScanCoverage)
    ensures Degraded(PlanesOf(sc)) ==
            (if sc.kubernetes == CoveragePartial then ["Kubernetes"] else [])
            + (if sc.aws == CoveragePartial then ["AWS"] else [])
            + (if sc.manifests == CoveragePartial then ["Manifests"] else [])
  {
    var planes := PlanesOf(sc);
    assert planes[..2][..1] == planes[..1];
    assert Degraded(planes[..1]) == if sc.kubernetes == CoveragePartial then ["Kubernetes"] else [];
  }

  lemma DegradedIffPartial(sc: ScanCoverage)
    ensures Degraded(PlanesOf(sc)) == [] <==> !sc.AnyPartial()
  {
    var p := PlanesOf(sc);
    DegradedIffSomePartial(p);
    assert p[0] in p && p[1] in p && p[2] in p;
  }

  ghost predicate IsOverallCoverage(rules: EvaluationCoverage, sc: ScanCoverage, o: OverallCoverage) {
    && o.rules == rules
    && o.status == (if rules.status == Unavailable || rules.status == NormalizedLegacy then rules.status
                    else if rules.status == Partial || sc.AnyPartial() then Partial else Complete)
    && o.degradedPlanes == (if rules.status == Unavailable || rules.status == NormalizedLegacy then []
                            else Degraded(PlanesOf(sc)))
  }

  /** What the overall status of a report is. */
  ghost function OverallStatus(d: ReportDoc): CoverageVerdict {
    if |d.ruleExecutions| == 0 then Unavailable
    else if d.ruleExecutionsNormalized then NormalizedLegacy
    else if d.coverage.AnyPartial() || exists rec :: rec in d.ruleExecutions && IsGap(rec) then Partial
    else Complete
  }

  lemma OverallStatusIs(d: ReportDoc, c: EvaluationCoverage, o: OverallCoverage)
    requires |d.ruleExecutions| == 0 ==> c.status == Unavailable
    requires |d.ruleExecutions| > 0 ==> IsEvaluationCoverage(d, c)
    requires IsOverallCoverage(c, d.coverage, o)
    ensures o.status == OverallStatus(d)
  {
    assert |d.ruleExecutions| > 0 ==> (c.complete <==> !exists rec :: rec in d.ruleExecutions && IsGap(rec));
  }

  /** A record with an applicability value that is neither of the two known ones and a state other
      than evaluated: the coverage summary counts it as a gap, the report's completeness does not. */
  ghost predicate HasStrayGap(d: ReportDoc) {
    exists rec :: rec in d.ruleExecutions && rec.applicability.ApplicabilityOther? && rec.state != ExecutionEvaluated
  }

  ghost predicate NotionsAgree(d: ReportDoc) {
    OverallStatus(d) == Complete <==> d.IsComplete() && |d.ruleExecutions| > 0 && !d.ruleExecutionsNormalized
  }

  /** The two notions of completeness agree on every report except a native one that is complete by
      its own account and carries a stray gap; so on every report that uses the two known
      applicability values. */
  lemma CompletenessNotionsAgreeIff(d: ReportDoc)
    ensures NotionsAgree(d) <==> !(d.IsComplete() && !d.ruleExecutionsNormalized && HasStrayGap(d))
  {
    if d.IsComplete() && !d.ruleExecutionsNormalized {
      forall rec | rec in d.ruleExecutions && IsGap(rec)
        ensures rec.applicability.ApplicabilityOther?
      {
        assert rec.applicability == Applicable ==> rec.state == ExecutionEvaluated;
      }
      if HasStrayGap(d) {
        var rec :| rec in d.ruleExecutions && rec.applicability.ApplicabilityOther? && rec.state != ExecutionEvaluated;
        assert IsGap(rec);
      }
    }
    if !d.IsComplete() && !d.ruleExecutionsNormalized && !d.coverage.AnyPartial() {
      var rec :| rec in d.ruleExecutions && rec.applicability == Applicable && rec.state != ExecutionEvaluated;
      assert IsGap(rec);
    }
  }

  /** The exception exists: one record of unknown applicability that was not evaluated. */
  lemma StrayGapDisagrees(d: ReportDoc, ruleID: string, raw: string)
    requires d.ruleExecutions == [RuleExecutionRecord(ruleID, ApplicabilityOther(raw), ExecutionNotEvaluated)]
    requires !d.ruleExecutionsNormalized && !d.coverage.AnyPartial()
    ensures d.IsComplete() && OverallStatus(d) == Partial
  {
    assert d.ruleExecutions[0] in d.ruleExecutions && IsGap(d.ruleExecutions[0]);
  }
}
