/** What a comparison lists where and in which order (internal/comparison/compare.go, sort.go), over the
    findings and records of the two reports. */
module BucketMeaning {
  import opened Orders
  import opened Text
  import opened Findings
  import opened Reports
  import opened CompareOrder
  import opened Comparison
  import opened ComparisonTheorems

  // ---- membership -----------------------------------------------------------------------------------

  ghost predicate HasPrint(fs: seq<Finding>, fp: string) {
    exists f :: f in fs && f.fingerprint == fp
  }

  /** The last record of the rule says that it was in scope and evaluated. */
  ghost predicate RanToTheEnd(records: seq<RuleExecutionRecord>, ruleID: string) {
    exists k :: LastOfRule(records, k, ruleID)
                && records[k].applicability == Applicable && records[k].state == ExecutionEvaluated
  }

  lemma {:induction false} SomeRecordIsLast(records: seq<RuleExecutionRecord>, ruleID: string)
    requires Recorded(records, ruleID)
    ensures exists k :: LastOfRule(records, k, ruleID)
  {
    var n := |records| - 1;
    if records[n].ruleID == ruleID {
      assert LastOfRule(records, n, ruleID);
    } else {
      SomeRecordIsLast(records[..n], ruleID);
      var k :| LastOfRule(records[..n], k, ruleID);
      assert LastOfRule(records, k, ruleID);
    }
  }

  /** What counts as proof that a rule ran. */
  lemma ProofMeans(records: seq<RuleExecutionRecord>, ruleID: string)
    ensures ProvenEvaluated(ruleID, RecordsByRule(records)) <==> RanToTheEnd(records, ruleID)
  {
    LookupIsLastRecord(records, ruleID);
    if Recorded(records, ruleID) {
      SomeRecordIsLast(records, ruleID);
    }
  }

  /** A finding is new when the baseline has none of its fingerprint. A finding of the baseline whose
      fingerprint is gone is resolved when its rule ran to the end, and not re-evaluated otherwise. */
  lemma BucketsMean(baseline: ReportDoc, current: ReportDoc, b: Index, c: Index, cmp: Comparison, f: Finding)
    requires IsComparison(baseline, current, b, c, cmp)
    ensures f in cmp.buckets.added <==> f in current.findings && !HasPrint(baseline.findings, f.fingerprint)
    ensures f in cmp.buckets.resolved <==>
              && f in baseline.findings && !HasPrint(current.findings, f.fingerprint)
              && RanToTheEnd(current.ruleExecutions, f.ruleID)
    ensures f in cmp.buckets.notReEvaluated <==>
              && f in baseline.findings && !HasPrint(current.findings, f.fingerprint)
              && !RanToTheEnd(current.ruleExecutions, f.ruleID)
  {
    ProofMeans(current.ruleExecutions, f.ruleID);
    IndexedMeans(baseline.findings, b, f);
    IndexedMeans(current.findings, c, f);
  }

  lemma IndexedMeans(fs: seq<Finding>, m: Index, f: Finding)
    requires IsIndex(fs, m)
    ensures f in fs <==> f.fingerprint in m && m[f.fingerprint] == f
    ensures f.fingerprint in m <==> HasPrint(fs, f.fingerprint)
  {
  }

  // ---- order ----------------------------------------------------------------------------------------

  /** Info after everything else, Warning after Blocker and after unlisted severities. */
  predicate Milder(s: Severity, t: Severity) {
    || (s == SeverityInfo && t != SeverityInfo)
    || (s == SeverityWarning && t != SeverityInfo && t != SeverityWarning)
  }

  /** Rule ID, namespace and name of the first resource, fingerprint: the first difference decides. */
  predicate SubjectFirst(f: Finding, g: Finding) {
    var m, n := if f.resources == [] then "" else f.resources[0].namespace,
                if g.resources == [] then "" else g.resources[0].namespace;
    var p, q := if f.resources == [] then "" else f.resources[0].name,
                if g.resources == [] then "" else g.resources[0].name;
    || StrLess(f.ruleID, g.ruleID)
    || (f.ruleID == g.ruleID
        && (StrLess(m, n) || (m == n && (StrLess(p, q) || (p == q && StrLess(f.fingerprint, g.fingerprint))))))
  }

  /** The documented order: priority with a missing one read as "P9", then severity, then subject. */
  predicate ComesFirst(f: Finding, g: Finding) {
    var p, q := if f.priority == "" then "P9" else f.priority, if g.priority == "" then "P9" else g.priority;
    || StrLess(p, q)
    || (p == q && (Milder(g.severity, f.severity) || (!Milder(f.severity, g.severity) && SubjectFirst(f, g))))
  }

  lemma EntryOrderMeans(f: Finding, g: Finding)
    ensures EntryLess(f, g) <==> ComesFirst(f, g)
  {
    StrLessLaws();
    assert forall s: Severity, t: Severity :: Milder(s, t) <==> SeverityOrder(s) > SeverityOrder(t);
  }

  ghost predicate InDocumentedOrder(s: seq<Finding>) {
    forall i, j | 0 <= i < j < |s| :: !ComesFirst(s[j], s[i])
  }

  /** What blocks comes first; each half stands in the documented order. */
  ghost predicate BlockersLead(s: seq<Finding>) {
    forall i, j | 0 <= i < j < |s| ::
      (Blocks(s[j]) ==> Blocks(s[i])) && (Blocks(s[i]) == Blocks(s[j]) ==> !ComesFirst(s[j], s[i]))
  }

  lemma BlockerFirstMeans(f: Finding, g: Finding)
    ensures BlockerFirst(f, g) <==> if Blocks(f) != Blocks(g) then Blocks(f) else ComesFirst(f, g)
  {
    EntryOrderMeans(f, g);
  }

  lemma BlockerOrderMeans(s: seq<Finding>)
    requires Sorted(BlockerFirst, s)
    ensures BlockersLead(s)
  {
    forall i, j | 0 <= i < j < |s|
      ensures Blocks(s[j]) ==> Blocks(s[i])
      ensures Blocks(s[i]) == Blocks(s[j]) ==> !ComesFirst(s[j], s[i])
    {
      assert !BlockerFirst(s[j], s[i]);
      BlockerFirstMeans(s[j], s[i]);
    }
  }

  lemma PlainOrderMeans(s: seq<Finding>)
    requires Sorted(EntryLess, s)
    ensures InDocumentedOrder(s)
  {
    forall i, j | 0 <= i < j < |s|
      ensures !ComesFirst(s[j], s[i])
    {
      assert !EntryLess(s[j], s[i]);
      EntryOrderMeans(s[j], s[i]);
    }
  }

  /** The order of changed entries: a priority that changed, then the subject. */
  predicate ChangedComesFirst(x: Changed, f: Finding, y: Changed, g: Finding) {
    var p := if FieldPriority in x.changes then (if f.priority == "" then "P9" else f.priority) else "P9";
    var q := if FieldPriority in y.changes then (if g.priority == "" then "P9" else g.priority) else "P9";
    StrLess(p, q) || (p == q && SubjectFirst(f, g))
  }

  /** A changed entry is ordered by its current priority when that changed and as if it had none when it
      did not, then by its subject; never by its severity. */
  lemma ChangedOrderMeans(b: Index, c: Index, d: Buckets, byRule: Records, i: nat, j: nat)
    requires WellIndexed(b) && WellIndexed(c) && BucketsHold(b, c, byRule, d) && BucketsSorted(d)
    requires i < j < |d.changed|
    ensures var x, y := d.changed[i], d.changed[j];
            && x.fingerprint in c && y.fingerprint in c
            && !ChangedComesFirst(y, c[y.fingerprint], x, c[x.fingerprint])
  {
    var x, y := d.changed[i], d.changed[j];
    assert x in d.changed && y in d.changed && IsChanged(b, c, x) && IsChanged(b, c, y) && !ChangedLess(y, x);
    ShownPriorityMeans(b[x.fingerprint], c[x.fingerprint]);
    ShownPriorityMeans(b[y.fingerprint], c[y.fingerprint]);
    KeyOrderMeans(KeyOfChanged(y), c[y.fingerprint], KeyOfChanged(x), c[x.fingerprint]);
  }

  lemma ShownPriorityMeans(before: Finding, after: Finding)
    ensures var key := KeyOfChanged(ChangedEntry(before, after));
            var shown := FieldPriority in DiffFinding(before, after) && after.priority != "";
            && key.severity == 0 && key.priority == (if shown then after.priority else "P9")
            && key == KeyOf(after).(priority := key.priority, severity := 0)
  {
    ChangedKeyIs(before, after);
    DiffFindingIs(before, after);
    assert ValueOf(before, FieldPriority) != ValueOf(after, FieldPriority) <==> before.priority != after.priority;
  }

  lemma KeyOrderMeans(k: SortKey, f: Finding, l: SortKey, g: Finding)
    requires k == KeyOf(f).(priority := k.priority, severity := 0)
    requires l == KeyOf(g).(priority := l.priority, severity := 0)
    ensures k.Less(l) <==> StrLess(k.priority, l.priority) || (k.priority == l.priority && SubjectFirst(f, g))
  {
    StrLessLaws();
  }

  /** Every bucket stands in its documented order. */
  lemma BucketsStandInOrder(d: Buckets)
    requires BucketsSorted(d)
    ensures BlockersLead(d.added) && BlockersLead(d.resolved) && BlockersLead(d.notReEvaluated)
    ensures InDocumentedOrder(d.same)
  {
    BlockerOrderMeans(d.added);
    BlockerOrderMeans(d.resolved);
    BlockerOrderMeans(d.notReEvaluated);
    PlainOrderMeans(d.same);
  }

  // ---- summary --------------------------------------------------------------------------------------

  /** Which warnings a comparison carries, and what its score change is when the scorecards are there and
      when one of them is missing. */
  lemma WarningsAndScoreMean(baseline: ReportDoc, current: ReportDoc, b: Index, c: Index, cmp: Comparison)
    requires IsComparison(baseline, current, b, c, cmp)
    ensures TargetVersionsDiffer in cmp.warnings <==> baseline.targetVersion != current.targetVersion
    ensures UpgradeContextsDiffer in cmp.warnings <==> baseline.upgradeContext != current.upgradeContext
    ensures |cmp.warnings| <= 2 && NoDuplicates(cmp.warnings)
    ensures baseline.upgradeReadiness.Some? && current.upgradeReadiness.Some? ==>
              baseline.upgradeReadiness.value.score + cmp.summary.readinessScoreDelta
              == current.upgradeReadiness.value.score
    ensures baseline.upgradeReadiness.None? && current.upgradeReadiness.Some? ==>
              cmp.summary.readinessScoreDelta == current.upgradeReadiness.value.score
    ensures baseline.upgradeReadiness.Some? && current.upgradeReadiness.None? ==>
              cmp.summary.readinessScoreDelta == -baseline.upgradeReadiness.value.score
    ensures baseline.upgradeReadiness.None? && current.upgradeReadiness.None? ==> cmp.summary.readinessScoreDelta == 0
  {
  }
}
