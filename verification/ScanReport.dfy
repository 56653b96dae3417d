/** The report object: built from findings, updated in place when the real coverage is known or when
    an older document is normalised (internal/findings/report.go, priority.go and
    internal/comparison/normalize.go). */
module ScanReport {
  import opened Findings
  import opened Reports
  import opened Scorecard
  import opened ApiCompatibility

  // ---- priorities ------------------------------------------------------------------------------------

  /** The per-rule defaults; the guarantees below hold for every such table. */
  datatype PriorityTables = PriorityTables(priorityOf: string -> Option<string>, scopeOf: string -> string)

  /** `AssignPriority`: the per-rule default, escalated by the facts on the finding. */
  function AssignPriority(t: PriorityTables, f: Finding): Finding {
    var base := match t.priorityOf(f.ruleID) case Some(p) => p case None => "P4";
    var critical := f.criticalInfra && f.ruleID != "NODE-003" && PriorityRank(base) > PriorityRank("P2");
    var recommended := f.ruleID == "ADDON-002" && "compatibility status: upgrade recommended" in f.evidence;
    var priority := if f.globalBlocker then "P1" else if recommended then "P4" else if critical then "P2" else base;
    var scope := if f.globalBlocker then "global" else if recommended then "addon" else if critical then "cluster"
                 else t.scopeOf(f.ruleID);
    var gate := f.EffectiveUpgradeGate();
    f.(priority := priority, affectedScope := scope, upgradeGate := gate,
       canUpgradeContinue := gate == GateAllow && priority != "P1")
  }

  /** Assigning a priority settles the gate and leaves what the gate means, so counting before or
      after makes no difference; and doing it twice changes nothing. */
  lemma PriorityKeepsGate(t: PriorityTables, f: Finding)
    ensures AssignPriority(t, f).EffectiveUpgradeGate() == f.EffectiveUpgradeGate()
    ensures AssignPriority(t, f).severity == f.severity && AssignPriority(t, f).fingerprint == f.fingerprint
    ensures AssignPriority(t, AssignPriority(t, f)) == AssignPriority(t, f)
    ensures AssignPriority(t, f).canUpgradeContinue ==> !Blocks(f) && !f.globalBlocker && !NeedsOperator(f)
  {
  }

  const RECOMMENDED: string := "compatibility status: upgrade recommended"

  /** When a finding gets which priority, given the default `base` of its rule. A global blocker is P1; a
      recommended add-on upgrade is P4 whatever the default; critical infrastructure lifts P3, P4 and
      unlisted defaults to P2, except for NODE-003. */
  lemma AssignedPriorityMeans(t: PriorityTables, f: Finding)
    ensures var x := AssignPriority(t, f);
            var base := if t.priorityOf(f.ruleID).Some? then t.priorityOf(f.ruleID).value else "P4";
            var recommended := f.ruleID == "ADDON-002" && RECOMMENDED in f.evidence;
            var lifted := f.criticalInfra && f.ruleID != "NODE-003" && base != "P1" && base != "P2";
            && (x.priority == "P1" <==> f.globalBlocker || (base == "P1" && !recommended))
            && (x.priority == "P2" <==> !f.globalBlocker && !recommended && (base == "P2" || lifted))
            && (!f.globalBlocker && recommended ==> x.priority == "P4" && x.affectedScope == "addon")
            && (!f.globalBlocker && !recommended && !lifted ==>
                  x.priority == base && x.affectedScope == t.scopeOf(f.ruleID))
            && (f.globalBlocker ==> x.affectedScope == "global")
            && (!f.globalBlocker && !recommended && lifted ==> x.affectedScope == "cluster")
            && (x.canUpgradeContinue <==> x.upgradeGate == GateAllow && x.priority != "P1")
            && x.upgradeGate == f.EffectiveUpgradeGate()
  {
  }

  function Prioritized(t: PriorityTables, fs: seq<Finding>): seq<Finding> {
    seq(|fs|, k requires 0 <= k < |fs| => AssignPriority(t, fs[k]))
  }

  method PrioritizeAll(t: PriorityTables, fs: seq<Finding>) returns (prioritized: seq<Finding>)
    ensures prioritized == Prioritized(t, fs)
  {
    prioritized := [];
    for i := 0 to |fs|
      invariant |prioritized| == i && forall k | 0 <= k < i :: prioritized[k] == AssignPriority(t, fs[k])
    {
      prioritized := prioritized + [AssignPriority(t, fs[i])];
    }
  }

  // ---- summary counts -----------------------------------------------------------------------------------

  /** Counted under Summary.Warnings: warnings, and blockers that an explicit gate lets through. */
  predicate CountsAsWarning(f: Finding) {
    f.severity == SeverityWarning || (f.severity == SeverityBlocker && !Blocks(f))
  }

  predicate IsInfo(f: Finding) {
    f.severity == SeverityInfo
  }

  function SummaryOf(fs: seq<Finding>): Summary {
    Summary(Count(fs, Blocks), Count(fs, CountsAsWarning), Count(fs, IsInfo), Count(fs, NeedsOperator))
  }

  /** The four counts over gates and severities: a Blocker that an explicit gate lets through counts as
      a warning, and a warning that blocks counts twice. */
  lemma SummaryMeans(fs: seq<Finding>)
    ensures var s := SummaryOf(fs);
            && s.blockers
               == Count(fs, (f: Finding) =>
                    f.upgradeGate == GateBlock
                    || (f.upgradeGate == GateUnset && (f.globalBlocker || f.severity == SeverityBlocker)))
            && s.operatorDecisions == Count(fs, (f: Finding) => f.upgradeGate == GateOperatorDecision)
            && s.warnings
               == Count(fs, (f: Finding) =>
                    f.severity == SeverityWarning
                    || (f.severity == SeverityBlocker && f.upgradeGate != GateUnset && f.upgradeGate != GateBlock))
            && s.infos == Count(fs, (f: Finding) => f.severity == SeverityInfo)
  {
    SameCount(fs, Blocks, (f: Finding) =>
        f.upgradeGate == GateBlock
        || (f.upgradeGate == GateUnset && (f.globalBlocker || f.severity == SeverityBlocker)));
    SameCount(fs, NeedsOperator, (f: Finding) => f.upgradeGate == GateOperatorDecision);
    SameCount(fs, CountsAsWarning, (f: Finding) =>
        f.severity == SeverityWarning
        || (f.severity == SeverityBlocker && f.upgradeGate != GateUnset && f.upgradeGate != GateBlock));
    SameCount(fs, IsInfo, (f: Finding) => f.severity == SeverityInfo);
  }

  method Summarize(fs: seq<Finding>) returns (s: Summary)
    ensures s == SummaryOf(fs)
  {
    s := Summary(0, 0, 0, 0);
    for i := 0 to |fs|
      invariant s == SummaryOf(fs[..i])
    {
      var f := fs[i];
      assert fs[..i + 1][..i] == fs[..i];
      match f.EffectiveUpgradeGate() {
        case GateBlock => s := s.(blockers := s.blockers + 1);
        case GateOperatorDecision => s := s.(operatorDecisions := s.operatorDecisions + 1);
        case _ =>
      }
      match f.severity {
        case SeverityWarning => s := s.(warnings := s.warnings + 1);
        case SeverityInfo => s := s.(infos := s.infos + 1);
        case SeverityBlocker =>
          if f.EffectiveUpgradeGate() != GateBlock {
            s := s.(warnings := s.warnings + 1);
          }
        case SeverityOther(_) =>
      }
    }
    assert fs[..|fs|] == fs;
  }

  // ---- backfilled rule records -----------------------------------------------------------------------------

  predicate HasFinding(fs: seq<Finding>, ruleID: string) {
    exists f | f in fs :: f.ruleID == ruleID
  }

  /** The record inferred for one rule of a document that has none. */
  function BackfilledRecord(fs: seq<Finding>, ruleID: string): RuleExecutionRecord {
    RuleExecutionRecord(ruleID, Applicable,
                        if HasFinding(fs, ruleID) then ExecutionEvaluated else ExecutionNotEvaluated)
  }

  function Backfilled(universe: seq<string>, fs: seq<Finding>): seq<RuleExecutionRecord> {
    seq(|universe|, k requires 0 <= k < |universe| => BackfilledRecord(fs, universe[k]))
  }

  function NormalizedDoc(universe: seq<string>, d: ReportDoc): ReportDoc {
    if |d.ruleExecutions| > 0 then d
    else d.(ruleExecutions := Backfilled(universe, d.findings), ruleExecutionsNormalized := true)
  }

  /** Normalising is idempotent and never changes the verdict of the document. */
  lemma NormalizingIsIdempotent(universe: seq<string>, d: ReportDoc)
    ensures NormalizedDoc(universe, NormalizedDoc(universe, d)) == NormalizedDoc(universe, d)
    ensures NormalizedDoc(universe, d).ResultAndExitCode() == d.ResultAndExitCode()
  {
    if |d.ruleExecutions| == 0 && |universe| == 0 {
      assert Backfilled(universe, d.findings) == [];
    }
  }

  /** A backfilled document has one record per rule of the universe, in its order, and marks a rule
      evaluated exactly when the document shows a finding of it: silence is never read as a clean run. */
  lemma SilenceIsNotEvaluated(universe: seq<string>, d: ReportDoc, k: nat)
    requires |d.ruleExecutions| == 0 && k < |universe|
    ensures |NormalizedDoc(universe, d).ruleExecutions| == |universe|
    ensures NormalizedDoc(universe, d).ruleExecutions[k].ruleID == universe[k]
    ensures NormalizedDoc(universe, d).ruleExecutions[k].state == ExecutionEvaluated <==>
            exists f :: f in d.findings && f.ruleID == universe[k]
  {
  }

  ghost predicate PrioritiesFilled(tables: PriorityTables, before: seq<Finding>, after: seq<Finding>) {
    && |after| == |before|
    && forall k | 0 <= k < |before| ::
         after[k] == if before[k].priority == "" then AssignPriority(tables, before[k]) else before[k]
  }

  method FillPriorities(tables: PriorityTables, fs: seq<Finding>) returns (filled: seq<Finding>)
    ensures PrioritiesFilled(tables, fs, filled)
  {
    filled := fs;
    for i := 0 to |fs|
      invariant |filled| == |fs|
      invariant forall k | 0 <= k < |fs| ::
                  filled[k] == if k < i && fs[k].priority == "" then AssignPriority(tables, fs[k]) else fs[k]
    {
      if filled[i].priority == "" {
        filled := filled[i := AssignPriority(tables, filled[i])];
      }
    }
  }

  /** Some finding was seen on two planes. */
  ghost predicate SomeCrossesPlanes(fs: seq<Finding>) {
    exists f :: f in fs && CrossesPlanes(f.resources)
  }

  method AnyCrossPlane(fs: seq<Finding>) returns (found: bool)
    ensures found <==> SomeCrossesPlanes(fs)
  {
    for i := 0 to |fs|
      invariant forall f | f in fs[..i] :: !CrossesPlanes(f.resources)
    {
      assert fs[..i + 1] == fs[..i] + [fs[i]];
      var crossing := HasCrossPlaneMatch(fs[i].resources);
      if crossing {
        assert fs[i] in fs;
        return true;
      }
    }
    assert fs[..|fs|] == fs;
    found := false;
  }

  /** What a new report derives from its findings alone. */
  method Derive(tables: PriorityTables, fs: seq<Finding>)
    returns (prioritized: seq<Finding>, counts: Summary, api: APISummary, crossing: bool)
    ensures prioritized == Prioritized(tables, fs) && counts == SummaryOf(prioritized)
    ensures APIFilled(None, prioritized, Some(api)) && crossing == SomeCrossesPlanes(prioritized)
  {
    prioritized := PrioritizeAll(tables, fs);
    counts := Summarize(prioritized);
    crossing := AnyCrossPlane(prioritized);
    api := BuildAPISummary(prioritized);
  }

  // ---- missing summaries ---------------------------------------------------------------------------------

  /** An API summary that is there stays; a missing one is built from the findings. */
  ghost predicate APIFilled(before: Option<APISummary>, fs: seq<Finding>, after: Option<APISummary>) {
    if before.Some? then after == before else after.Some? && IsAPISummary(fs, after.value)
  }

  method FillAPI(before: Option<APISummary>, fs: seq<Finding>) returns (after: Option<APISummary>)
    ensures APIFilled(before, fs, after)
  {
    after := before;
    if before.None? {
      var api := BuildAPISummary(fs);
      after := Some(api);
    }
  }

  /** A scorecard that is there stays; a missing one is built for the verdict. */
  ghost predicate ReadinessFilled(table: CategoryTable, before: Option<ReadinessSummary>, fs: seq<Finding>,
                                  verdict: Verdict, after: Option<ReadinessSummary>) {
    if before.Some? then after == before else after.Some? && IsSummary(table, fs, verdict, after.value)
  }

  method FillReadiness(table: CategoryTable, before: Option<ReadinessSummary>, fs: seq<Finding>, verdict: Verdict)
    returns (after: Option<ReadinessSummary>)
    ensures ReadinessFilled(table, before, fs, verdict, after)
  {
    after := before;
    if before.None? {
      var s := BuildSummary(table, fs, verdict);
      after := Some(s);
    }
  }

  // ---- the object ---------------------------------------------------------------------------------------------

  class Report {
    const targetVersion: string
    const clusterContext: string
    const provider: string
    const upgradeContext: string
    const scannedAt: Option<int>
    const eksCluster: Option<EKSCluster>
    const eksAddons: seq<EKSAddon>
    const eksNodegroups: seq<EKSNodegroup>
    var findings: seq<Finding>
    var summary: Summary
    var coverage: ScanCoverage
    var upgradeReadiness: Option<ReadinessSummary>
    var apiCompatibility: Option<APISummary>
    var crossPlaneAssumption: bool
    var ruleExecutions: seq<RuleExecutionRecord>
    var ruleExecutionsNormalized: bool

    /** The report as a value. */
    function Doc(): ReportDoc
      reads this
    {
      ReportDoc(targetVersion, clusterContext, provider, upgradeContext, scannedAt, findings, summary, coverage,
                eksCluster, eksAddons, eksNodegroups, upgradeReadiness, apiCompatibility, crossPlaneAssumption,
                ruleExecutions, ruleExecutionsNormalized)
    }

    /** The scorecard agrees with the findings and with the verdict that drives the exit code. */
    ghost predicate Consistent(table: CategoryTable)
      reads this
    {
      upgradeReadiness.Some? && IsSummary(table, findings, Doc().Result(), upgradeReadiness.value)
    }

    /** `NewReport`: prioritised findings, their counts, the API summary, the assumption that goes with
        findings seen on two planes, and a scorecard under the placeholder coverage. */
    constructor New(targetVersion: string, clusterContext: string, provider: string, upgradeContext: string,
                    scannedAt: Option<int>, fs: seq<Finding>, tables: PriorityTables, table: CategoryTable)
      ensures findings == Prioritized(tables, fs)
      ensures summary == SummaryOf(findings)
      ensures coverage == ScanCoverage(CoverageComplete, CoverageSkipped, CoverageSkipped)
      ensures ruleExecutions == [] && !ruleExecutionsNormalized
      ensures this.targetVersion == targetVersion && this.upgradeContext == upgradeContext
              && this.scannedAt == scannedAt
      ensures APIFilled(None, findings, apiCompatibility) && crossPlaneAssumption == SomeCrossesPlanes(findings)
      ensures Consistent(table)
    {
      this.targetVersion, this.clusterContext, this.provider := targetVersion, clusterContext, provider;
      this.upgradeContext, this.scannedAt := upgradeContext, scannedAt;
      eksCluster, eksAddons, eksNodegroups := None, [], [];
      var prioritized, counts, api, crossing := Derive(tables, fs);
      findings, summary := prioritized, counts;
      apiCompatibility, crossPlaneAssumption := Some(api), crossing;
      coverage := ScanCoverage(CoverageComplete, CoverageSkipped, CoverageSkipped);
      ruleExecutions, ruleExecutionsNormalized, upgradeReadiness := [], false, None;
      new;
      var s := BuildSummary(table, findings, Doc().Result());
      upgradeReadiness := Some(s);
    }

    /** A report decoded from a document. */
    constructor Load(d: ReportDoc)
      ensures Doc() == d
    {
      targetVersion, clusterContext, provider := d.targetVersion, d.clusterContext, d.provider;
      upgradeContext, scannedAt := d.upgradeContext, d.scannedAt;
      eksCluster, eksAddons, eksNodegroups := d.eksCluster, d.eksAddons, d.eksNodegroups;
      findings, summary, coverage := d.findings, d.summary, d.coverage;
      upgradeReadiness, apiCompatibility := d.upgradeReadiness, d.apiCompatibility;
      crossPlaneAssumption := d.crossPlaneAssumption;
      ruleExecutions, ruleExecutionsNormalized := d.ruleExecutions, d.ruleExecutionsNormalized;
    }

    /** Replaces the coverage and rebuilds the scorecard for the verdict that follows from it. */
    method SetCoverage(c: ScanCoverage, table: CategoryTable)
      modifies this
      ensures Doc() == old(Doc()).(coverage := c, upgradeReadiness := upgradeReadiness)
      ensures Consistent(table)
    {
      coverage := c;
      var s := BuildSummary(table, findings, Doc().Result());
      upgradeReadiness := Some(s);
    }

    /** Infers the rule records of a document that carries none. */
    method NormalizeRuleExecutions(universe: seq<string>)
      modifies this
      ensures Doc() == NormalizedDoc(universe, old(Doc()))
    {
      if |ruleExecutions| > 0 {
        return;
      }
      var hasFinding: map<string, bool> := map[];
      for i := 0 to |findings|
        invariant forall id :: id in hasFinding <==> HasFinding(findings[..i], id)
        invariant Doc() == old(Doc())
      {
        assert findings[..i + 1] == findings[..i] + [findings[i]];
        hasFinding := hasFinding[findings[i].ruleID := true];
      }
      assert findings[..|findings|] == findings;
      var records: seq<RuleExecutionRecord> := [];
      for i := 0 to |universe|
        invariant |records| == i && forall k | 0 <= k < i :: records[k] == BackfilledRecord(findings, universe[k])
        invariant Doc() == old(Doc())
      {
        var state := if universe[i] in hasFinding then ExecutionEvaluated else ExecutionNotEvaluated;
        records := records + [RuleExecutionRecord(universe[i], Applicable, state)];
      }
      assert records == Backfilled(universe, findings);
      ruleExecutions, ruleExecutionsNormalized := records, true;
    }

    /** The first half of the backfill: missing priorities and missing summaries. */
    method FillSummaries(tables: PriorityTables, table: CategoryTable)
      modifies this
      ensures Doc() == old(Doc()).(findings := findings, upgradeReadiness := upgradeReadiness,
                                   apiCompatibility := apiCompatibility)
      ensures IsFilled(tables, table, old(Doc()), Doc())
    {
      var filled := FillPriorities(tables, findings);
      var api := FillAPI(apiCompatibility, filled);
      findings, apiCompatibility := filled, api;
      var readiness := FillReadiness(table, upgradeReadiness, filled, Doc().Result());
      upgradeReadiness := readiness;
    }

    /** The backfill of `LoadAndNormalize`: missing priorities, missing summaries, missing records. */
    method Normalize(tables: PriorityTables, table: CategoryTable, universe: seq<string>)
      modifies this
      ensures Doc() == NormalizedDoc(universe, old(Doc()).(findings := findings, upgradeReadiness := upgradeReadiness,
                                                          apiCompatibility := apiCompatibility))
      ensures IsFilled(tables, table, old(Doc()), Doc())
    {
      FillSummaries(tables, table);
      NormalizingKeeps(universe, Doc());
      NormalizeRuleExecutions(universe);
    }
  }

  /** Priorities and summaries that were there are kept; the missing ones follow from the findings and
      the verdict. */
  ghost predicate IsFilled(tables: PriorityTables, table: CategoryTable, before: ReportDoc, after: ReportDoc) {
    && PrioritiesFilled(tables, before.findings, after.findings)
    && APIFilled(before.apiCompatibility, after.findings, after.apiCompatibility)
    && ReadinessFilled(table, before.upgradeReadiness, after.findings, after.Result(), after.upgradeReadiness)
  }

  /** Backfilling records touches nothing else, and not the verdict. */
  lemma NormalizingKeeps(universe: seq<string>, d: ReportDoc)
    ensures var n := NormalizedDoc(universe, d);
            && n.findings == d.findings && n.apiCompatibility == d.apiCompatibility
            && n.upgradeReadiness == d.upgradeReadiness && n.Result() == d.Result()
  {
    NormalizingIsIdempotent(universe, d);
  }

  /** What a scorecard says of the report it belongs to, whether it was built with the report or
      rebuilt for another coverage: the categories account for every blocker, and "continue" means
      complete, no blockers, no operator decisions. */
  lemma ScorecardAgreesWithReport(table: CategoryTable, d: ReportDoc, s: ReadinessSummary)
    requires d.summary == SummaryOf(d.findings) && IsSummary(table, d.findings, d.Result(), s)
    requires AllMapped(table, d.findings)
    ensures SumBlockers(s.categories) == d.summary.blockers
    ensures s.verdict == d.Result()
    ensures s.upgradeContinue <==> d.IsComplete() && d.summary.blockers == 0 && d.summary.operatorDecisions == 0
  {
    CategoryBlockersSum(table, d.findings, s.categories);
    CountPositive(d.findings, Blocks);
    CountPositive(d.findings, NeedsOperator);
    UpgradeContinueIff(table, d.findings, d.Result(), s);
  }

  // ---- the verdict over the findings ------------------------------------------------------------------------

  /** A finding that blocks. */
  ghost predicate HasGate(d: ReportDoc, g: UpgradeGate) {
    exists f :: f in d.findings && f.EffectiveUpgradeGate() == g
  }

  /** A warning, or a Blocker let through. */
  ghost predicate HasWarning(d: ReportDoc) {
    exists f :: && f in d.findings
                && (f.severity == SeverityWarning
                    || (f.severity == SeverityBlocker && f.EffectiveUpgradeGate() != GateBlock))
  }

  /** Verdict and exit code of a report whose counts are those of its findings. */
  lemma VerdictMeans(d: ReportDoc)
    requires d.summary == SummaryOf(d.findings)
    ensures d.ResultAndExitCode() == (INCOMPLETE, 3) <==> !d.IsComplete()
    ensures d.ResultAndExitCode() == (BLOCKED, 2) <==> d.IsComplete() && HasGate(d, GateBlock)
    ensures d.ResultAndExitCode() == (PASSED_WITH_WARNINGS, 1) <==>
              d.IsComplete() && !HasGate(d, GateBlock) && (HasGate(d, GateOperatorDecision) || HasWarning(d))
    ensures d.ResultAndExitCode() == (CLEAN, 0) <==>
              d.IsComplete() && !HasGate(d, GateBlock) && !HasGate(d, GateOperatorDecision) && !HasWarning(d)
  {
    CountPositive(d.findings, Blocks);
    CountPositive(d.findings, NeedsOperator);
    CountPositive(d.findings, CountsAsWarning);
  }

  /** A report is complete exactly when no plane came back partial and every applicable rule was evaluated,
      the latter only for native records. */
  lemma CompleteMeans(d: ReportDoc)
    ensures d.IsComplete() <==>
              && d.coverage.kubernetes != CoveragePartial && d.coverage.aws != CoveragePartial
              && d.coverage.manifests != CoveragePartial
              && (d.ruleExecutionsNormalized ||
                  !exists rec :: rec in d.ruleExecutions && rec.applicability == Applicable
                      && rec.state != ExecutionEvaluated)
  {
  }
}
