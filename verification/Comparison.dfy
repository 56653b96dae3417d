/** Comparing two reports by fingerprint (internal/comparison/compare.go). Go iterates its maps in
    arbitrary order; the loops below pick the next fingerprint arbitrarily too. */
module Comparison {
  import opened Orders
  import opened Findings
  import opened Reports
  import opened Scorecard
  import opened CompareOrder

  // ---- indexes ---------------------------------------------------------------------------------------------

  /** Every finding can be identified, and no two share an identity. */
  ghost predicate UniqueFingerprints(fs: seq<Finding>) {
    && (forall f | f in fs :: f.fingerprint != "")
    && forall i, j | 0 <= i < j < |fs| :: fs[i].fingerprint != fs[j].fingerprint
  }

  type Index = map<string, Finding>

  /** Findings by fingerprint. */
  ghost predicate IsIndex(fs: seq<Finding>, byFP: Index) {
    && (forall f | f in fs :: f.fingerprint in byFP && byFP[f.fingerprint] == f)
    && forall fp | fp in byFP :: byFP[fp] in fs && byFP[fp].fingerprint == fp
  }

  datatype IndexError = MissingFingerprint(ruleID: string) | DuplicateFingerprint(fingerprint: string, ruleID: string)
  datatype IndexResult = Indexed(byFP: Index) | IndexFailure(error: IndexError)

  /** The error names the first finding that cannot be indexed. */
  ghost predicate IsIndexError(fs: seq<Finding>, error: IndexError) {
    exists i :: 0 <= i < |fs| && UniqueFingerprints(fs[..i]) && FailsAt(fs, i, error)
  }

  ghost predicate FailsAt(fs: seq<Finding>, i: nat, error: IndexError)
    requires i < |fs|
  {
    if fs[i].fingerprint == "" then error == MissingFingerprint(fs[i].ruleID)
    else
      && error == DuplicateFingerprint(fs[i].fingerprint, fs[i].ruleID)
      && exists j :: 0 <= j < i && fs[j].fingerprint == fs[i].fingerprint
  }

  method IndexByFingerprint(fs: seq<Finding>) returns (r: IndexResult)
    ensures r.Indexed? <==> UniqueFingerprints(fs)
    ensures r.Indexed? ==> IsIndex(fs, r.byFP)
    ensures r.IndexFailure? ==> IsIndexError(fs, r.error)
  {
    var byFP: Index := map[];
    for i := 0 to |fs|
      invariant UniqueFingerprints(fs[..i]) && IsIndex(fs[..i], byFP)
    {
      assert fs[..i + 1] == fs[..i] + [fs[i]];
      if fs[i].fingerprint == "" {
        assert fs[i] in fs && FailsAt(fs, i, MissingFingerprint(fs[i].ruleID));
        return IndexFailure(MissingFingerprint(fs[i].ruleID));
      }
      if fs[i].fingerprint in byFP {
        var j :| 0 <= j < i && fs[..i][j] == byFP[fs[i].fingerprint];
        assert fs[j].fingerprint == fs[i].fingerprint;
        assert FailsAt(fs, i, DuplicateFingerprint(fs[i].fingerprint, fs[i].ruleID));
        return IndexFailure(DuplicateFingerprint(fs[i].fingerprint, fs[i].ruleID));
      }
      forall k | 0 <= k < i
        ensures fs[k].fingerprint != fs[i].fingerprint
      {
        assert fs[..i][k] in fs[..i];
      }
      byFP := byFP[fs[i].fingerprint := fs[i]];
    }
    assert fs[..|fs|] == fs;
    return Indexed(byFP);
  }

  /** The index of a list depends on its members only. */
  lemma IndexIgnoresOrder(fs: seq<Finding>, gs: seq<Finding>, m: Index, n: Index)
    requires multiset(fs) == multiset(gs) && IsIndex(fs, m) && IsIndex(gs, n)
    ensures m == n
  {
    SameMembers(fs, gs);
  }

  /** The records by rule; of several records of one rule the last counts. */
  function RecordsByRule(records: seq<RuleExecutionRecord>): map<string, RuleExecutionRecord> {
    if records == [] then map[]
    else RecordsByRule(records[..|records| - 1])[records[|records| - 1].ruleID := records[|records| - 1]]
  }

  method IndexRuleExecutions(records: seq<RuleExecutionRecord>) returns (byRule: map<string, RuleExecutionRecord>)
    ensures byRule == RecordsByRule(records)
  {
    byRule := map[];
    for i := 0 to |records|
      invariant byRule == RecordsByRule(records[..i])
    {
      assert records[..i + 1][..i] == records[..i];
      byRule := byRule[records[i].ruleID := records[i]];
    }
    assert records[..|records|] == records;
  }

  /** The one proof that a missing finding is resolved: its rule was in scope and was evaluated. */
  predicate ProvenEvaluated(ruleID: string, byRule: map<string, RuleExecutionRecord>) {
    ruleID in byRule && byRule[ruleID].applicability == Applicable && byRule[ruleID].state == ExecutionEvaluated
  }

  // ---- buckets -----------------------------------------------------------------------------------------------

  datatype Buckets = Buckets(
    added: seq<Finding>, resolved: seq<Finding>, changed: seq<Changed>, same: seq<Finding>,
    notReEvaluated: seq<Finding>)

  ghost predicate IsAdded(b: Index, c: Index, f: Finding) {
    f.fingerprint in c && c[f.fingerprint] == f && f.fingerprint !in b
  }

  ghost predicate IsUnchanged(b: Index, c: Index, f: Finding) {
    f.fingerprint in c && c[f.fingerprint] == f && f.fingerprint in b && DiffFinding(b[f.fingerprint], f) == map[]
  }

  ghost predicate IsChanged(b: Index, c: Index, x: Changed) {
    && x.fingerprint in c && x.fingerprint in b && x.changes != map[]
    && x == ChangedEntry(b[x.fingerprint], c[x.fingerprint])
  }

  ghost predicate IsGone(b: Index, c: Index, f: Finding) {
    f.fingerprint in b && b[f.fingerprint] == f && f.fingerprint !in c
  }

  type Records = map<string, RuleExecutionRecord>

  /** The five buckets hold exactly what they should, each entry once. */
  ghost predicate BucketsHold(b: Index, c: Index, byRule: Records, d: Buckets) {
    && NoDuplicates(d.added) && NoDuplicates(d.resolved) && NoDuplicates(d.changed)
    && NoDuplicates(d.same) && NoDuplicates(d.notReEvaluated)
    && (forall f :: f in d.added <==> IsAdded(b, c, f))
    && (forall f :: f in d.same <==> IsUnchanged(b, c, f))
    && (forall x :: x in d.changed <==> IsChanged(b, c, x))
    && (forall f :: f in d.resolved <==> IsGone(b, c, f) && ProvenEvaluated(f.ruleID, byRule))
    && (forall f :: f in d.notReEvaluated <==> IsGone(b, c, f) && !ProvenEvaluated(f.ruleID, byRule))
  }

  ghost predicate BucketsSorted(d: Buckets) {
    && Sorted(BlockerFirst, d.added) && Sorted(BlockerFirst, d.resolved) && Sorted(BlockerFirst, d.notReEvaluated)
    && Sorted(EntryLess, d.same) && Sorted(ChangedLess, d.changed)
  }

  ghost predicate WellIndexed(m: Index) {
    forall fp | fp in m :: m[fp].fingerprint == fp
  }

  method CurrentBuckets(b: Index, c: Index) returns (added: seq<Finding>, changed: seq<Changed>, same: seq<Finding>)
    requires WellIndexed(b) && WellIndexed(c)
    ensures NoDuplicates(added) && forall f :: f in added <==> IsAdded(b, c, f)
    ensures NoDuplicates(same) && forall f :: f in same <==> IsUnchanged(b, c, f)
    ensures NoDuplicates(changed) && forall x :: x in changed <==> IsChanged(b, c, x)
  {
    added, changed, same := [], [], [];
    var rest := c.Keys;
    while rest != {}
      invariant rest <= c.Keys
      invariant NoDuplicates(added) && forall f :: f in added <==> IsAdded(b, c, f) && f.fingerprint !in rest
      invariant NoDuplicates(same) && forall f :: f in same <==> IsUnchanged(b, c, f) && f.fingerprint !in rest
      invariant NoDuplicates(changed) && forall x :: x in changed <==> IsChanged(b, c, x) && x.fingerprint !in rest
    {
      var fp :| fp in rest;
      var after := c[fp];
      if fp !in b {
        added := added + [after];
      } else {
        var changes := DiffFinding(b[fp], after);
        if changes != map[] {
          changed := changed + [Changed(fp, after.ruleID, after.resources, changes)];
        } else {
          same := same + [after];
        }
      }
      rest := rest - {fp};
    }
  }

  method BaselineBuckets(b: Index, c: Index, byRule: Records)
    returns (resolved: seq<Finding>, notReEvaluated: seq<Finding>)
    requires WellIndexed(b) && WellIndexed(c)
    ensures NoDuplicates(resolved) && forall f :: f in resolved <==>
              IsGone(b, c, f) && ProvenEvaluated(f.ruleID, byRule)
    ensures NoDuplicates(notReEvaluated) && forall f :: f in notReEvaluated <==>
              IsGone(b, c, f) && !ProvenEvaluated(f.ruleID, byRule)
  {
    resolved, notReEvaluated := [], [];
    var rest := b.Keys;
    while rest != {}
      invariant rest <= b.Keys
      invariant NoDuplicates(resolved)
      invariant forall f :: f in resolved <==>
                  IsGone(b, c, f) && ProvenEvaluated(f.ruleID, byRule) && f.fingerprint !in rest
      invariant NoDuplicates(notReEvaluated)
      invariant forall f :: f in notReEvaluated <==>
                  IsGone(b, c, f) && !ProvenEvaluated(f.ruleID, byRule) && f.fingerprint !in rest
    {
      var fp :| fp in rest;
      if fp !in c {
        if ProvenEvaluated(b[fp].ruleID, byRule) {
          resolved := resolved + [b[fp]];
        } else {
          notReEvaluated := notReEvaluated + [b[fp]];
        }
      }
      rest := rest - {fp};
    }
  }

  method SortBuckets(ghost b: Index, ghost c: Index, ghost byRule: Records, d: Buckets) returns (s: Buckets)
    requires BucketsHold(b, c, byRule, d)
    ensures BucketsHold(b, c, byRule, s) && BucketsSorted(s)
  {
    BucketOrdersAreTotal(d.added);
    BucketOrdersAreTotal(d.resolved);
    BucketOrdersAreTotal(d.notReEvaluated);
    BucketOrdersAreTotal(d.same);
    var added := SortBucket(d.added, BlockerFirst);
    var resolved := SortBucket(d.resolved, BlockerFirst);
    var notReEvaluated := SortBucket(d.notReEvaluated, BlockerFirst);
    var same := SortBucket(d.same, EntryLess);
    var changed := SortChanges(d.changed);
    s := Buckets(added, resolved, changed, same, notReEvaluated);
  }

  /** Two sorted sets of buckets for the same inputs are identical, whatever order the maps were
      walked in: the fingerprint at the end of every sort key settles each tie. */
  lemma BucketsAreUnique(b: Index, c: Index, byRule: Records, d: Buckets, e: Buckets)
    requires BucketsHold(b, c, byRule, d) && BucketsSorted(d)
    requires BucketsHold(b, c, byRule, e) && BucketsSorted(e)
    ensures d == e
  {
    BucketOrdersAreTotal(d.added);
    BucketOrdersAreTotal(d.resolved);
    BucketOrdersAreTotal(d.notReEvaluated);
    BucketOrdersAreTotal(d.same);
    ChangedOrderIsTotal(d.changed);
    SortedListsAgree(BlockerFirst, d.added, e.added);
    SortedListsAgree(BlockerFirst, d.resolved, e.resolved);
    SortedListsAgree(BlockerFirst, d.notReEvaluated, e.notReEvaluated);
    SortedListsAgree(EntryLess, d.same, e.same);
    SortedListsAgree(ChangedLess, d.changed, e.changed);
  }

  // ---- the comparison -------------------------------------------------------------------------------------------

  datatype Warning = TargetVersionsDiffer | UpgradeContextsDiffer

  datatype ComparisonSummary = ComparisonSummary(
    baselineVerdict: Verdict, currentVerdict: Verdict, baselineUpgradeContext: string, currentUpgradeContext: string,
    verdictChanged: bool, baselineReadinessScore: int, currentReadinessScore: int, readinessScoreDelta: int,
    added: nat, resolved: nat, changed: nat, same: nat, newBlockers: nat, resolvedBlockers: nat, notReEvaluated: nat)

  datatype Comparison = Comparison(warnings: seq<Warning>, buckets: Buckets, summary: ComparisonSummary)
  datatype CompareResult =
    Compared(comparison: Comparison) | BaselineError(error: IndexError) | CurrentError(error: IndexError)

  function WarningsFor(baseline: ReportDoc, current: ReportDoc): seq<Warning> {
    (if baseline.targetVersion != current.targetVersion then [TargetVersionsDiffer] else [])
    + (if baseline.upgradeContext != current.upgradeContext then [UpgradeContextsDiffer] else [])
  }

  function ScoreOf(d: ReportDoc): int {
    if d.upgradeReadiness.Some? then d.upgradeReadiness.value.score else 0
  }

  ghost predicate IsComparisonSummary(baseline: ReportDoc, current: ReportDoc, d: Buckets, s: ComparisonSummary) {
    && s.baselineVerdict == baseline.Result() && s.currentVerdict == current.Result()
    && s.verdictChanged == (s.baselineVerdict != s.currentVerdict)
    && s.baselineUpgradeContext == baseline.upgradeContext && s.currentUpgradeContext == current.upgradeContext
    && s.baselineReadinessScore == ScoreOf(baseline) && s.currentReadinessScore == ScoreOf(current)
    && s.readinessScoreDelta == ScoreOf(current) - ScoreOf(baseline)
    && s.added == |d.added| && s.resolved == |d.resolved| && s.changed == |d.changed| && s.same == |d.same|
    && s.notReEvaluated == |d.notReEvaluated|
    && s.newBlockers == Count(d.added, Blocks) && s.resolvedBlockers == Count(d.resolved, Blocks)
  }

  ghost predicate IsComparison(baseline: ReportDoc, current: ReportDoc, b: Index, c: Index, cmp: Comparison) {
    && IsIndex(baseline.findings, b) && IsIndex(current.findings, c)
    && BucketsHold(b, c, RecordsByRule(current.ruleExecutions), cmp.buckets) && BucketsSorted(cmp.buckets)
    && cmp.warnings == WarningsFor(baseline, current)
    && IsComparisonSummary(baseline, current, cmp.buckets, cmp.summary)
  }

  method CountBlockers(fs: seq<Finding>) returns (n: nat)
    ensures n == Count(fs, Blocks)
  {
    n := 0;
    for i := 0 to |fs|
      invariant n == Count(fs[..i], Blocks)
    {
      assert fs[..i + 1][..i] == fs[..i];
      if fs[i].EffectiveUpgradeGate() == GateBlock {
        n := n + 1;
      }
    }
    assert fs[..|fs|] == fs;
  }

  method BuildComparisonSummary(baseline: ReportDoc, current: ReportDoc, d: Buckets) returns (s: ComparisonSummary)
    ensures IsComparisonSummary(baseline, current, d, s)
  {
    var newBlockers := CountBlockers(d.added);
    var resolvedBlockers := CountBlockers(d.resolved);
    s := ComparisonSummary(
      baseline.Result(), current.Result(), baseline.upgradeContext, current.upgradeContext,
      baseline.Result() != current.Result(), ScoreOf(baseline), ScoreOf(current), ScoreOf(current) - ScoreOf(baseline),
      |d.added|, |d.resolved|, |d.changed|, |d.same|, newBlockers, resolvedBlockers, |d.notReEvaluated|);
  }

  /** `Compare`. It fails exactly when a report holds a finding that cannot be identified. */
  method Compare(baseline: ReportDoc, current: ReportDoc) returns (r: CompareResult, ghost b: Index, ghost c: Index)
    ensures r.Compared? <==> UniqueFingerprints(baseline.findings) && UniqueFingerprints(current.findings)
    ensures r.Compared? ==> IsComparison(baseline, current, b, c, r.comparison)
    ensures r.BaselineError? ==> IsIndexError(baseline.findings, r.error)
    ensures r.CurrentError? ==> UniqueFingerprints(baseline.findings) && IsIndexError(current.findings, r.error)
  {
    b, c := map[], map[];
    var ib := IndexByFingerprint(baseline.findings);
    if ib.IndexFailure? {
      return BaselineError(ib.error), b, c;
    }
    var ic := IndexByFingerprint(current.findings);
    if ic.IndexFailure? {
      return CurrentError(ic.error), b, c;
    }
    b, c := ib.byFP, ic.byFP;
    var added, changed, same := CurrentBuckets(ib.byFP, ic.byFP);
    var byRule := IndexRuleExecutions(current.ruleExecutions);
    var resolved, notReEvaluated := BaselineBuckets(ib.byFP, ic.byFP, byRule);
    var buckets := SortBuckets(b, c, byRule, Buckets(added, resolved, changed, same, notReEvaluated));
    var summary := BuildComparisonSummary(baseline, current, buckets);
    r := Compared(Comparison(WarningsFor(baseline, current), buckets, summary));
  }
}
