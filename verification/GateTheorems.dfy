/** What a gate decision tells about the two scans it compares. */
module GateTheorems {
  import opened Orders
  import opened Findings
  import opened Reports
  import opened Scorecard
  import opened ScanReport
  import opened Coverage
  import opened CompareOrder
  import opened Comparison
  import opened ComparisonTheorems
  import opened Gate

  // ---- stricter policies ------------------------------------------------------------------------------------------

  function Strictness(w: WarningPolicy): nat {
    match w case IgnoreWarnings => 0 case FailOnNew => 1 case FailOnAny => 2 case WarningPolicyOther(_) => 0
  }

  ghost predicate AtLeastAsStrict(q: Policy, p: Policy) {
    && (p.failOnNewBlockers ==> q.failOnNewBlockers)
    && (p.failOnVerdictRegression ==> q.failOnVerdictRegression)
    && Strictness(p.warningPolicy) <= Strictness(q.warningPolicy)
    && p.minimumScoreDelta <= q.minimumScoreDelta
  }

  lemma DistinctSubBag<T>(a: seq<T>, b: seq<T>)
    requires NoDuplicates(a) && forall x | x in a :: x in b
    ensures multiset(a) <= multiset(b)
  {
    forall x
      ensures multiset(a)[x] <= multiset(b)[x]
    {
      OccursOnce(a, x);
      if x in a {
        assert x in multiset(b);
      }
    }
  }

  lemma {:induction false} CountWidens(fs: seq<Finding>, p: Finding -> bool, q: Finding -> bool)
    requires forall f | p(f) :: q(f)
    ensures Count(fs, p) <= Count(fs, q)
  {
    if fs != [] {
      CountWidens(fs[..|fs| - 1], p, q);
    }
  }

  /** The new warnings never outnumber the warnings the current report counts. */
  lemma NewWarningsAreCounted(baseline: ReportDoc, current: ReportDoc, b: Index, c: Index, cmp: Comparison)
    requires IsComparison(baseline, current, b, c, cmp) && current.summary == SummaryOf(current.findings)
    ensures Count(cmp.buckets.added, IsWarning) <= current.summary.warnings
  {
    DistinctSubBag(cmp.buckets.added, current.findings);
    CountGrows(cmp.buckets.added, current.findings, IsWarning);
    CountWidens(current.findings, IsWarning, CountsAsWarning);
  }

  /** A stricter policy fails whatever a laxer one fails; in particular failing on new warnings
      implies failing on any. */
  lemma StricterPoliciesFailMore(baseline: ReportDoc, current: ReportDoc, b: Index, c: Index, cmp: Comparison,
                                 p: Policy, r: GateResult, q: Policy, s: GateResult)
    requires IsComparison(baseline, current, b, c, cmp) && current.summary == SummaryOf(current.findings)
    requires IsDecision(baseline, current, cmp, p, r) && IsDecision(baseline, current, cmp, q, s)
    requires AtLeastAsStrict(q, p)
    ensures r.decision == Fail ==> s.decision == Fail
    ensures s.decision == Pass ==> r.decision == Pass
  {
    NewWarningsAreCounted(baseline, current, b, c, cmp);
    if r.decision == Fail {
      assert r.reasons[0] in r.reasons;
      ObjectionCarriesOver(FactsOf(current, cmp), p, q, r.reasons[0]);
    }
  }

  lemma ObjectionCarriesOver(facts: Facts, p: Policy, q: Policy, reason: ReasonCode)
    requires AtLeastAsStrict(q, p) && Objects(p, facts, reason) && facts.newWarnings <= facts.currentWarnings
    ensures exists other :: Objects(q, facts, other)
  {
    var other := if reason == NewWarningsDetected && q.warningPolicy == FailOnAny then WarningsPresent else reason;
    assert Objects(q, facts, other);
  }

  // ---- verdict regressions ------------------------------------------------------------------------------------------

  /** A change of this field was recorded. */
  ghost predicate Records(cmp: Comparison, field: Field) {
    exists x :: x in cmp.buckets.changed && field in x.changes
  }

  ghost predicate HasNewBlocker(cmp: Comparison) {
    exists f :: f in cmp.buckets.added && Blocks(f)
  }

  /** A finding of the current report that the baseline does not match in severity and gate shows up
      in the comparison. */
  lemma FindingIsAccountedFor(baseline: ReportDoc, current: ReportDoc, b: Index, c: Index, cmp: Comparison, f: Finding)
    requires IsComparison(baseline, current, b, c, cmp) && f in current.findings
    ensures || f in cmp.buckets.added
            || (exists x :: x in cmp.buckets.changed && x.fingerprint == f.fingerprint && FieldUpgradeGate in x.changes)
            || (exists x :: x in cmp.buckets.changed && x.fingerprint == f.fingerprint && FieldSeverity in x.changes
                            && b[f.fingerprint].EffectiveUpgradeGate() == f.EffectiveUpgradeGate())
            || (f.fingerprint in b && b[f.fingerprint] in baseline.findings && b[f.fingerprint].severity == f.severity
                && b[f.fingerprint].EffectiveUpgradeGate() == f.EffectiveUpgradeGate())
  {
    if f.fingerprint in b {
      var g := b[f.fingerprint];
      DiffFindingIs(g, f);
      var x := ChangedEntry(g, f);
      assert FieldUpgradeGate in x.changes <==> ValueOf(g, FieldUpgradeGate) != ValueOf(f, FieldUpgradeGate);
      assert FieldSeverity in x.changes <==> ValueOf(g, FieldSeverity) != ValueOf(f, FieldSeverity);
      if FieldUpgradeGate in x.changes || FieldSeverity in x.changes {
        assert IsChanged(b, c, x);
      }
    } else {
      assert IsAdded(b, c, f);
    }
  }

  /** The exit code of a scan. */
  function ExitCode(d: ReportDoc): int {
    d.ResultAndExitCode().1
  }

  /** Between complete scans the regression reason applies exactly when the exit code rises. */
  lemma RegressionIsExitCodeRise(p: Policy, baseline: ReportDoc, current: ReportDoc, cmp: Comparison)
    requires baseline.IsComplete() && current.IsComplete()
    requires cmp.summary.baselineVerdict == baseline.Result() && cmp.summary.currentVerdict == current.Result()
    ensures Objects(p, FactsOf(current, cmp), VerdictRegressed) <==>
              p.failOnVerdictRegression && ExitCode(baseline) < ExitCode(current)
  {
  }

  /** Every rise of the exit code between complete scans has a witness in the comparison: a new finding
      or a recorded change of severity or gate; when the new verdict is BLOCKED, a new blocking finding
      or a recorded change of gate. */
  lemma RegressionHasWitness(baseline: ReportDoc, current: ReportDoc, b: Index, c: Index, cmp: Comparison)
    requires IsComparison(baseline, current, b, c, cmp) && baseline.IsComplete() && current.IsComplete()
    requires baseline.summary == SummaryOf(baseline.findings) && current.summary == SummaryOf(current.findings)
    requires ExitCode(baseline) < ExitCode(current)
    ensures cmp.buckets.added != [] || Records(cmp, FieldSeverity) || Records(cmp, FieldUpgradeGate)
    ensures current.Result() == BLOCKED ==> HasNewBlocker(cmp) || Records(cmp, FieldUpgradeGate)
  {
    if current.Result() == BLOCKED {
      var f := SomeCounted(current.findings, Blocks);
      CountPositive(baseline.findings, Blocks);
      FindingIsAccountedFor(baseline, current, b, c, cmp, f);
    } else {
      CountPositive(baseline.findings, CountsAsWarning);
      CountPositive(baseline.findings, NeedsOperator);
      CountPositive(baseline.findings, Blocks);
      var f := SomeCounted(current.findings, if current.summary.warnings > 0 then CountsAsWarning else NeedsOperator);
      FindingIsAccountedFor(baseline, current, b, c, cmp, f);
    }
  }

  lemma SomeCounted(fs: seq<Finding>, p: Finding -> bool) returns (f: Finding)
    requires Count(fs, p) > 0
    ensures f in fs && p(f)
  {
    CountPositive(fs, p);
    f :| f in fs && p(f);
  }

  // ---- passing ------------------------------------------------------------------------------------------------------

  /** The default policy passes exactly when both scans are complete and comparable, every blocking
      finding was already in the baseline, and neither verdict nor score got worse. */
  lemma DefaultPassIff(baseline: ReportDoc, current: ReportDoc, b: Index, c: Index, cmp: Comparison, r: GateResult)
    requires IsComparison(baseline, current, b, c, cmp) && IsDecision(baseline, current, cmp, DEFAULT_POLICY, r)
    ensures r.decision == Pass <==>
              && baseline.IsComplete() && current.IsComplete()
              && baseline.targetVersion == current.targetVersion && baseline.upgradeContext == current.upgradeContext
              && (forall f | f in current.findings && Blocks(f) :: exists g ::
                  g in baseline.findings && g.fingerprint == f.fingerprint)
              && (current.Result() == BLOCKED ==> baseline.Result() == BLOCKED)
              && (baseline.Result() == CLEAN ==> current.Result() == CLEAN)
              && ScoreOf(baseline) <= ScoreOf(current)
  {
    NewBlockersIff(baseline, current, b, c, cmp);
    assert LacksEvidence(baseline, current, cmp) <==>
             !(baseline.IsComplete() && current.IsComplete() && baseline.targetVersion == current.targetVersion
               && baseline.upgradeContext == current.upgradeContext);
    PassIff(baseline, current, cmp, DEFAULT_POLICY, r);
    DefaultObjections(FactsOf(current, cmp));
  }

  lemma DefaultObjections(facts: Facts)
    ensures (forall reason :: !Objects(DEFAULT_POLICY, facts, reason)) <==>
              facts.newBlockers == 0 && facts.scoreDelta >= 0 && !facts.regressed
  {
    assert Objects(DEFAULT_POLICY, facts, NewBlockersDetected) <==> facts.newBlockers > 0;
    assert Objects(DEFAULT_POLICY, facts, ScoreRegressed) <==> facts.scoreDelta < 0;
    assert Objects(DEFAULT_POLICY, facts, VerdictRegressed) <==> facts.regressed;
  }

  lemma PassIff(baseline: ReportDoc, current: ReportDoc, cmp: Comparison, p: Policy, r: GateResult)
    requires IsDecision(baseline, current, cmp, p, r)
    ensures r.decision == Pass <==>
              !LacksEvidence(baseline, current, cmp) && forall reason :: !Objects(p, FactsOf(current, cmp), reason)
  {
    FirstIsMember(r.reasons);
  }

  lemma NewBlockersIff(baseline: ReportDoc, current: ReportDoc, b: Index, c: Index, cmp: Comparison)
    requires IsComparison(baseline, current, b, c, cmp)
    ensures cmp.summary.newBlockers == 0 <==>
              forall f | f in current.findings && Blocks(f) :: exists g ::
                  g in baseline.findings && g.fingerprint == f.fingerprint
  {
    CountPositive(cmp.buckets.added, Blocks);
    forall f | f in current.findings
      ensures f in cmp.buckets.added <==> !exists g :: g in baseline.findings && g.fingerprint == f.fingerprint
    {
      assert f in cmp.buckets.added <==> IsAdded(b, c, f);
    }
  }

  /** Some current finding of this kind has no counterpart in the baseline. */
  ghost predicate BringsNew(baseline: ReportDoc, current: ReportDoc, q: Finding -> bool) {
    exists f :: f in current.findings && q(f)
                && !exists g :: g in baseline.findings && g.fingerprint == f.fingerprint
  }

  lemma NewOnesAreCounted(baseline: ReportDoc, current: ReportDoc, b: Index, c: Index, cmp: Comparison,
                          q: Finding -> bool)
    requires IsComparison(baseline, current, b, c, cmp)
    ensures Count(cmp.buckets.added, q) > 0 <==> BringsNew(baseline, current, q)
  {
    CountPositive(cmp.buckets.added, q);
    forall f | f in current.findings
      ensures f in cmp.buckets.added <==> !exists g :: g in baseline.findings && g.fingerprint == f.fingerprint
    {
      assert f in cmp.buckets.added <==> IsAdded(b, c, f);
    }
    assert forall f | IsAdded(b, c, f) :: f in current.findings;
  }

  function When(cited: bool, reason: ReasonCode): seq<ReasonCode> {
    if cited then [reason] else []
  }

  /** The first `n` reasons among these, in order. */
  ghost predicate IsStart(part: seq<ReasonCode>, reasons: seq<ReasonCode>, n: nat) {
    InReasonOrder(part) && forall x :: x in part <==> x in reasons && ReasonRank(x) < n
  }

  lemma OneMoreReason(part: seq<ReasonCode>, reasons: seq<ReasonCode>, next: ReasonCode)
    requires IsStart(part, reasons, ReasonRank(next))
    ensures IsStart(part + When(next in reasons, next), reasons, ReasonRank(next) + 1)
  {
    assert forall i | 0 <= i < |part| :: part[i] in part;
    var more := part + When(next in reasons, next);
    assert forall x :: ReasonRank(x) < ReasonRank(next) + 1 <==> ReasonRank(x) < ReasonRank(next) || x == next;
    assert forall x :: x in more <==> x in part || (x == next && next in reasons);
  }

  lemma OrderedReasonsAgree(x: seq<ReasonCode>, y: seq<ReasonCode>)
    requires InReasonOrder(x) && InReasonOrder(y) && forall reason :: reason in x <==> reason in y
    ensures x == y
  {
    SortedListsAgree((r: ReasonCode, s: ReasonCode) => ReasonRank(r) < ReasonRank(s), x, y);
  }

  const REASONS: seq<ReasonCode> :=
    [NewBlockersDetected, NewWarningsDetected, WarningsPresent, VerdictRegressed, ScoreRegressed]

  /** Those of the first `n` reasons that are among these. */
  function Listing(reasons: seq<ReasonCode>, n: nat): seq<ReasonCode>
    requires n <= 5
  {
    if n == 0 then [] else Listing(reasons, n - 1) + When(REASONS[n - 1] in reasons, REASONS[n - 1])
  }

  lemma {:induction false} ListingIsStart(reasons: seq<ReasonCode>, n: nat)
    requires n <= 5
    ensures IsStart(Listing(reasons, n), reasons, n)
  {
    if n > 0 {
      ListingIsStart(reasons, n - 1);
      OneMoreReason(Listing(reasons, n - 1), reasons, REASONS[n - 1]);
    }
  }

  lemma ListingIs(reasons: seq<ReasonCode>)
    ensures Listing(reasons, 5)
            == When(NewBlockersDetected in reasons, NewBlockersDetected)
               + When(NewWarningsDetected in reasons, NewWarningsDetected)
               + When(WarningsPresent in reasons, WarningsPresent)
               + When(VerdictRegressed in reasons, VerdictRegressed)
               + When(ScoreRegressed in reasons, ScoreRegressed)
  {
    assert Listing(reasons, 1) == [] + When(NewBlockersDetected in reasons, NewBlockersDetected);
    assert Listing(reasons, 2) == Listing(reasons, 1) + When(NewWarningsDetected in reasons, NewWarningsDetected);
    assert Listing(reasons, 3) == Listing(reasons, 2) + When(WarningsPresent in reasons, WarningsPresent);
    assert Listing(reasons, 4) == Listing(reasons, 3) + When(VerdictRegressed in reasons, VerdictRegressed);
    assert Listing(reasons, 5) == Listing(reasons, 4) + When(ScoreRegressed in reasons, ScoreRegressed);
  }

  lemma OnlyFiveReasons(reasons: seq<ReasonCode>, x: ReasonCode)
    requires InsufficientEvidence !in reasons && x in reasons
    ensures ReasonRank(x) < 5
  {
  }

  lemma StartsAgree(part: seq<ReasonCode>, reasons: seq<ReasonCode>)
    requires InReasonOrder(reasons) && InsufficientEvidence !in reasons && IsStart(part, reasons, 5)
    ensures reasons == part
  {
    forall x
      ensures x in reasons <==> x in part
    {
      if x in reasons {
        OnlyFiveReasons(reasons, x);
      }
    }
    OrderedReasonsAgree(reasons, part);
  }

  lemma ReasonsInOrder(reasons: seq<ReasonCode>)
    requires InReasonOrder(reasons) && InsufficientEvidence !in reasons
    ensures reasons == Listing(reasons, 5)
  {
    ListingIsStart(reasons, 5);
    StartsAgree(Listing(reasons, 5), reasons);
  }

  lemma ObjectionsMean(baseline: ReportDoc, current: ReportDoc, b: Index, c: Index, cmp: Comparison, p: Policy)
    requires IsComparison(baseline, current, b, c, cmp) && baseline.IsComplete() && current.IsComplete()
    ensures var facts := FactsOf(current, cmp);
            && (Objects(p, facts, NewBlockersDetected) <==>
                p.failOnNewBlockers && BringsNew(baseline, current, Blocks))
            && (Objects(p, facts, NewWarningsDetected) <==>
                p.warningPolicy == FailOnNew
                && BringsNew(baseline, current, (f: Finding) => f.severity == SeverityWarning))
            && (Objects(p, facts, WarningsPresent) <==>
                p.warningPolicy == FailOnAny && current.summary.warnings > 0)
            && (Objects(p, facts, VerdictRegressed) <==>
                p.failOnVerdictRegression && ExitCode(baseline) < ExitCode(current))
            && (Objects(p, facts, ScoreRegressed) <==>
                ScoreOf(current) - ScoreOf(baseline) < p.minimumScoreDelta)
            && !Objects(p, facts, InsufficientEvidence)
  {
    var warns := (f: Finding) => f.severity == SeverityWarning;
    NewOnesAreCounted(baseline, current, b, c, cmp, Blocks);
    NewOnesAreCounted(baseline, current, b, c, cmp, warns);
    SameCount(cmp.buckets.added, IsWarning, warns);
    RegressionIsExitCodeRise(p, baseline, current, cmp);
  }

  /** What a policy objects to when two complete, comparable scans are given to it, and in which order. */
  lemma ReasonsAre(baseline: ReportDoc, current: ReportDoc, b: Index, c: Index, cmp: Comparison, p: Policy,
                   r: GateResult)
    requires IsComparison(baseline, current, b, c, cmp) && IsDecision(baseline, current, cmp, p, r)
    requires baseline.IsComplete() && current.IsComplete() && cmp.warnings == []
    ensures r.reasons
            == When(p.failOnNewBlockers && BringsNew(baseline, current, Blocks), NewBlockersDetected)
               + When(p.warningPolicy == FailOnNew
                      && BringsNew(baseline, current, (f: Finding) => f.severity == SeverityWarning),
                      NewWarningsDetected)
               + When(p.warningPolicy == FailOnAny && current.summary.warnings > 0, WarningsPresent)
               + When(p.failOnVerdictRegression && ExitCode(baseline) < ExitCode(current), VerdictRegressed)
               + When(ScoreOf(current) - ScoreOf(baseline) < p.minimumScoreDelta, ScoreRegressed)
    ensures r.decision == if r.reasons == [] then Pass else Fail
  {
    ObjectionsMean(baseline, current, b, c, cmp, p);
    assert forall reason :: reason in r.reasons <==> Objects(p, FactsOf(current, cmp), reason);
    ReasonsInOrder(r.reasons);
    ListingIs(r.reasons);
  }

  /** A complete report compared with itself passes the default policy, and every policy that neither
      fails on old warnings nor demands a rising score. */
  lemma SelfComparisonPasses(d: ReportDoc, b: Index, c: Index, cmp: Comparison, p: Policy, r: GateResult)
    requires d.IsComplete() && IsComparison(d, d, b, c, cmp) && IsDecision(d, d, cmp, p, r)
    ensures p == DEFAULT_POLICY ==> r.decision == Pass
    ensures r.decision == Pass <==>
              p.minimumScoreDelta <= 0 && !(p.warningPolicy == FailOnAny && d.summary.warnings > 0)
  {
    SelfComparison(d, b, c, cmp);
    PassIff(d, d, cmp, p, r);
    var facts := FactsOf(d, cmp);
    assert Objects(p, facts, ScoreRegressed) <==> p.minimumScoreDelta > 0;
    assert Objects(p, facts, WarningsPresent) <==> p.warningPolicy == FailOnAny && d.summary.warnings > 0;
  }

  // ---- coverage -----------------------------------------------------------------------------------------------------

  /** A gap both notions of completeness see. */
  ghost predicate HasKnownGap(d: ReportDoc) {
    || d.coverage.AnyPartial()
    || exists rec :: rec in d.ruleExecutions && rec.applicability == Applicable && rec.state != ExecutionEvaluated
  }

  /** A result whose coverage reads partial is neutral under every policy, except when the only gaps
      are records of unknown applicability: then policy decides. */
  lemma PartialIsNeutralIff(baseline: ReportDoc, current: ReportDoc, cmp: Comparison, p: Policy, r: GateResult)
    requires IsEvaluation(baseline, current, cmp, p, r) && r.coverage.status == Partial
    ensures r.decision == Neutral <==> HasKnownGap(current) || !baseline.IsComplete() || cmp.warnings != []
    ensures !HasStrayGap(current) ==> HasKnownGap(current) && r.decision == Neutral
  {
    if !current.coverage.AnyPartial() {
      var rec :| rec in current.ruleExecutions && IsGap(rec);
    }
  }

  /** The exception is reachable: such a report compared with itself reads partial and passes. */
  lemma StrayGapPasses(d: ReportDoc, ruleID: string, raw: string, b: Index, c: Index, cmp: Comparison, r: GateResult)
    requires d.ruleExecutions == [RuleExecutionRecord(ruleID, ApplicabilityOther(raw), ExecutionNotEvaluated)]
    requires !d.ruleExecutionsNormalized && !d.coverage.AnyPartial()
    requires IsComparison(d, d, b, c, cmp) && IsEvaluation(d, d, cmp, DEFAULT_POLICY, r)
    ensures r.coverage.status == Partial && r.decision == Pass
  {
    StrayGapDisagrees(d, ruleID, raw);
    SelfComparisonPasses(d, b, c, cmp, DEFAULT_POLICY, r);
  }
}
