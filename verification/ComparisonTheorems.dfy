/** What the five buckets say together: they depend on the findings alone, they account for every
    finding once, and swapping the two reports mirrors them. */
module ComparisonTheorems {
  import opened Orders
  import opened Findings
  import opened Reports
  import opened ScanReport
  import opened CompareOrder
  import opened Comparison

  // ---- determinism ------------------------------------------------------------------------------------------

  /** The same report with its findings listed in another order. */
  ghost predicate Reordered(d: ReportDoc, e: ReportDoc) {
    e == d.(findings := e.findings) && multiset(d.findings) == multiset(e.findings)
  }

  /** Two comparisons of the same findings are the same document, whatever the order of the two
      input lists and whatever order the maps were walked in. */
  lemma CompareIsDeterministic(baseline: ReportDoc, current: ReportDoc, b: Index, c: Index, x: Comparison,
                               baseline': ReportDoc, current': ReportDoc, b': Index, c': Index, y: Comparison)
    requires Reordered(baseline, baseline') && Reordered(current, current')
    requires IsComparison(baseline, current, b, c, x) && IsComparison(baseline', current', b', c', y)
    ensures x == y
  {
    IndexIgnoresOrder(baseline.findings, baseline'.findings, b, b');
    IndexIgnoresOrder(current.findings, current'.findings, c, c');
    BucketsAreUnique(b, c, RecordsByRule(current.ruleExecutions), x.buckets, y.buckets);
    assert baseline.Result() == baseline'.Result() && current.Result() == current'.Result();
  }

  // ---- counting by fingerprint ------------------------------------------------------------------------------------

  ghost function Prints(s: seq<Finding>): set<string> {
    set f | f in s :: f.fingerprint
  }

  ghost function ChangedPrints(s: seq<Changed>): set<string> {
    set x | x in s :: x.fingerprint
  }

  lemma {:induction false} PrintsCount(s: seq<Finding>)
    requires NoDuplicates(s) && Identified(s)
    ensures |Prints(s)| == |s|
  {
    if s != [] {
      var front, last := s[..|s| - 1], s[|s| - 1];
      assert s == front + [last];
      assert forall f | f in front :: f in s;
      PrintsCount(front);
      assert Prints(s) == Prints(front) + {last.fingerprint};
    }
  }

  lemma {:induction false} ChangedPrintsCount(s: seq<Changed>)
    requires NoDuplicates(s) && IdentifiedChanges(s)
    ensures |ChangedPrints(s)| == |s|
  {
    if s != [] {
      var front, last := s[..|s| - 1], s[|s| - 1];
      assert s == front + [last];
      assert forall x | x in front :: x in s;
      ChangedPrintsCount(front);
      assert ChangedPrints(s) == ChangedPrints(front) + {last.fingerprint};
    }
  }

  /** An index has one key for each finding of a report whose fingerprints are unique. */
  lemma IndexCountsFindings(fs: seq<Finding>, m: Index)
    requires UniqueFingerprints(fs) && IsIndex(fs, m)
    ensures m.Keys == Prints(fs) && |m| == |fs|
  {
    forall i, j | 0 <= i < j < |fs|
      ensures fs[i] != fs[j]
    {
      assert fs[i].fingerprint != fs[j].fingerprint;
    }
    PrintsCount(fs);
    assert m.Keys == Prints(fs);
    assert |m.Keys| == |m|;
  }

  // ---- partitions ---------------------------------------------------------------------------------------------------

  ghost predicate PartitionInto(whole: set<string>, parts: seq<set<string>>) {
    && (forall fp :: fp in whole <==> exists i :: 0 <= i < |parts| && fp in parts[i])
    && forall i, j | 0 <= i < j < |parts| :: parts[i] !! parts[j]
  }

  lemma BucketPrints(b: Index, c: Index, byRule: Records, d: Buckets)
    requires WellIndexed(b) && WellIndexed(c) && BucketsHold(b, c, byRule, d)
    ensures Prints(d.added) == c.Keys - b.Keys
    ensures Prints(d.same) + ChangedPrints(d.changed) == c.Keys * b.Keys
    ensures Prints(d.same) !! ChangedPrints(d.changed)
    ensures Prints(d.resolved) + Prints(d.notReEvaluated) == b.Keys - c.Keys
    ensures Prints(d.resolved) !! Prints(d.notReEvaluated)
  {
    forall fp | fp in c.Keys - b.Keys
      ensures fp in Prints(d.added)
    {
      assert IsAdded(b, c, c[fp]);
    }
    forall fp | fp in c.Keys * b.Keys
      ensures fp in Prints(d.same) + ChangedPrints(d.changed)
    {
      if DiffFinding(b[fp], c[fp]) == map[] {
        assert IsUnchanged(b, c, c[fp]);
      } else {
        assert IsChanged(b, c, ChangedEntry(b[fp], c[fp]));
      }
    }
    forall fp | fp in b.Keys - c.Keys
      ensures fp in Prints(d.resolved) + Prints(d.notReEvaluated)
    {
      assert IsGone(b, c, b[fp]);
    }
  }

  lemma BucketsAreIdentified(b: Index, c: Index, byRule: Records, d: Buckets)
    requires BucketsHold(b, c, byRule, d)
    ensures Identified(d.added) && Identified(d.same) && IdentifiedChanges(d.changed)
    ensures Identified(d.resolved) && Identified(d.notReEvaluated)
  {
  }

  /** New, changed and unchanged partition the current findings; resolved, not re-evaluated, changed
      and unchanged partition the baseline's. */
  lemma BucketsPartition(b: Index, c: Index, byRule: Records, d: Buckets)
    requires WellIndexed(b) && WellIndexed(c) && BucketsHold(b, c, byRule, d)
    ensures PartitionInto(c.Keys, [Prints(d.added), ChangedPrints(d.changed), Prints(d.same)])
    ensures PartitionInto(b.Keys,
                          [Prints(d.resolved), Prints(d.notReEvaluated), ChangedPrints(d.changed), Prints(d.same)])
  {
    BucketPrints(b, c, byRule, d);
    ThreeParts(c.Keys, Prints(d.added), ChangedPrints(d.changed), Prints(d.same));
    FourParts(b.Keys, Prints(d.resolved), Prints(d.notReEvaluated), ChangedPrints(d.changed), Prints(d.same));
  }

  lemma ThreeParts(whole: set<string>, p: set<string>, q: set<string>, r: set<string>)
    requires whole == p + q + r && p !! q && p !! r && q !! r
    ensures PartitionInto(whole, [p, q, r])
  {
    var parts := [p, q, r];
    assert parts[0] == p && parts[1] == q && parts[2] == r;
  }

  lemma FourParts(whole: set<string>, p: set<string>, q: set<string>, r: set<string>, s: set<string>)
    requires whole == p + q + r + s && p !! q && p !! r && p !! s && q !! r && q !! s && r !! s
    ensures PartitionInto(whole, [p, q, r, s])
  {
    var parts := [p, q, r, s];
    assert parts[0] == p && parts[1] == q && parts[2] == r && parts[3] == s;
  }

  /** The counts of a comparison account for every finding of both reports exactly once. */
  lemma SummaryConservesFindings(baseline: ReportDoc, current: ReportDoc, b: Index, c: Index, cmp: Comparison)
    requires UniqueFingerprints(baseline.findings) && UniqueFingerprints(current.findings)
    requires IsComparison(baseline, current, b, c, cmp)
    ensures cmp.summary.added + cmp.summary.changed + cmp.summary.same == |current.findings|
    ensures cmp.summary.resolved + cmp.summary.notReEvaluated + cmp.summary.changed + cmp.summary.same
            == |baseline.findings|
  {
    IndexCountsFindings(baseline.findings, b);
    IndexCountsFindings(current.findings, c);
    BucketsConserve(b, c, RecordsByRule(current.ruleExecutions), cmp.buckets);
  }

  lemma BucketsConserve(b: Index, c: Index, byRule: Records, d: Buckets)
    requires WellIndexed(b) && WellIndexed(c) && BucketsHold(b, c, byRule, d)
    ensures |d.added| + |d.changed| + |d.same| == |c|
    ensures |d.resolved| + |d.notReEvaluated| + |d.changed| + |d.same| == |b|
  {
    CountBuckets(b, c, byRule, d);
    SplitCount(c.Keys, b.Keys);
    SplitCount(b.Keys, c.Keys);
    assert c.Keys * b.Keys == b.Keys * c.Keys;
    assert |c.Keys| == |c| && |b.Keys| == |b|;
  }

  lemma SplitCount(x: set<string>, y: set<string>)
    ensures |x| == |x - y| + |x * y|
  {
    assert x == (x - y) + (x * y);
  }

  lemma CountBuckets(b: Index, c: Index, byRule: Records, d: Buckets)
    requires WellIndexed(b) && WellIndexed(c) && BucketsHold(b, c, byRule, d)
    ensures |d.added| == |c.Keys - b.Keys|
    ensures |d.same| == |Prints(d.same)| && |d.same| + |d.changed| == |c.Keys * b.Keys|
    ensures |d.resolved| + |d.notReEvaluated| == |b.Keys - c.Keys|
  {
    BucketPrints(b, c, byRule, d);
    BucketsAreIdentified(b, c, byRule, d);
    PrintsCount(d.added);
    PrintsCount(d.same);
    ChangedPrintsCount(d.changed);
    PrintsCount(d.resolved);
    PrintsCount(d.notReEvaluated);
    assert |Prints(d.same) + ChangedPrints(d.changed)| == |Prints(d.same)| + |ChangedPrints(d.changed)|;
    assert |Prints(d.resolved) + Prints(d.notReEvaluated)| == |Prints(d.resolved)| + |Prints(d.notReEvaluated)|;
  }

  // ---- swapping the inputs ------------------------------------------------------------------------------------------

  ghost predicate MirrorChanges(x: Changes, y: Changes) {
    && x.Keys == y.Keys
    && forall field | field in x :: y[field] == FieldChange(x[field].after, x[field].before)
  }

  lemma DiffMirrors(f: Finding, g: Finding)
    ensures MirrorChanges(DiffFinding(f, g), DiffFinding(g, f))
  {
    DiffFindingIs(f, g);
    DiffFindingIs(g, f);
  }

  /** Comparing the other way round: what was new is gone, what was gone is new, what was unchanged
      still is, and every change reads backwards. */
  lemma SwapMirrors(b: Index, c: Index, byRule: Records, d: Buckets, byRule': Records, e: Buckets)
    requires WellIndexed(b) && WellIndexed(c)
    requires BucketsHold(b, c, byRule, d) && BucketsHold(c, b, byRule', e)
    ensures forall f :: f in e.added <==> f in d.resolved || f in d.notReEvaluated
    ensures forall f :: f in d.added <==> f in e.resolved || f in e.notReEvaluated
    ensures Prints(d.same) == Prints(e.same)
    ensures forall x | x in d.changed :: exists y :: y in e.changed && MirrorOf(x, y)
  {
    UnchangedMirrors(b, c, byRule, d, byRule', e);
    forall x | x in d.changed
      ensures exists y :: y in e.changed && MirrorOf(x, y)
    {
      ChangeMirrors(b, c, x);
    }
  }

  /** And no bucket gains or loses an entry on the way. */
  lemma SwapKeepsCounts(b: Index, c: Index, byRule: Records, d: Buckets, byRule': Records, e: Buckets)
    requires WellIndexed(b) && WellIndexed(c)
    requires BucketsHold(b, c, byRule, d) && BucketsHold(c, b, byRule', e)
    ensures |e.added| == |d.resolved| + |d.notReEvaluated| && |d.added| == |e.resolved| + |e.notReEvaluated|
    ensures |d.changed| == |e.changed| && |d.same| == |e.same|
  {
    CountBuckets(b, c, byRule, d);
    CountBuckets(c, b, byRule', e);
    UnchangedMirrors(b, c, byRule, d, byRule', e);
    assert c.Keys * b.Keys == b.Keys * c.Keys;
  }

  ghost predicate MirrorOf(x: Changed, y: Changed) {
    y.fingerprint == x.fingerprint && MirrorChanges(x.changes, y.changes)
  }

  lemma UnchangedMirrors(b: Index, c: Index, byRule: Records, d: Buckets, byRule': Records, e: Buckets)
    requires WellIndexed(b) && WellIndexed(c)
    requires BucketsHold(b, c, byRule, d) && BucketsHold(c, b, byRule', e)
    ensures Prints(d.same) == Prints(e.same)
  {
    SameMirrors(b, c, byRule, d, byRule', e);
    SameMirrors(c, b, byRule', e, byRule, d);
  }

  lemma SameMirrors(b: Index, c: Index, byRule: Records, d: Buckets, byRule': Records, e: Buckets)
    requires WellIndexed(b) && WellIndexed(c)
    requires BucketsHold(b, c, byRule, d) && BucketsHold(c, b, byRule', e)
    ensures Prints(d.same) <= Prints(e.same)
  {
    forall fp | fp in Prints(d.same)
      ensures fp in Prints(e.same)
    {
      var f :| f in d.same && f.fingerprint == fp;
      DiffMirrors(b[fp], c[fp]);
      assert IsUnchanged(c, b, b[fp]);
    }
  }

  lemma ChangeMirrors(b: Index, c: Index, x: Changed)
    requires WellIndexed(b) && WellIndexed(c) && IsChanged(b, c, x)
    ensures var y := ChangedEntry(c[x.fingerprint], b[x.fingerprint]);
            IsChanged(c, b, y) && MirrorOf(x, y)
  {
    DiffMirrors(b[x.fingerprint], c[x.fingerprint]);
    var y := ChangedEntry(c[x.fingerprint], b[x.fingerprint]);
    assert y.changes.Keys == x.changes.Keys;
  }

  // ---- special inputs -----------------------------------------------------------------------------------------------

  lemma FirstIsMember<T>(s: seq<T>)
    ensures s == [] || s[0] in s
  {
  }

  /** A report compared with itself shows every finding as unchanged and nothing else. */
  lemma SelfComparison(d: ReportDoc, b: Index, c: Index, cmp: Comparison)
    requires IsComparison(d, d, b, c, cmp)
    ensures b == c
    ensures cmp.buckets.added == [] && cmp.buckets.resolved == [] && cmp.buckets.changed == []
            && cmp.buckets.notReEvaluated == []
    ensures forall f :: f in cmp.buckets.same <==> f in d.findings
    ensures cmp.warnings == [] && cmp.summary.readinessScoreDelta == 0 && !cmp.summary.verdictChanged
  {
    IndexIgnoresOrder(d.findings, d.findings, b, c);
    var k := cmp.buckets;
    FirstIsMember(k.added);
    FirstIsMember(k.resolved);
    FirstIsMember(k.changed);
    FirstIsMember(k.notReEvaluated);
    forall f: Finding
      ensures DiffFinding(f, f) == map[]
    {
      DiffFindingIs(f, f);
    }
  }

  ghost predicate AllBackfilled(fs: seq<Finding>, records: seq<RuleExecutionRecord>) {
    forall k | 0 <= k < |records| :: records[k] == BackfilledRecord(fs, records[k].ruleID)
  }

  ghost predicate Recorded(records: seq<RuleExecutionRecord>, ruleID: string) {
    exists k :: 0 <= k < |records| && records[k].ruleID == ruleID
  }

  lemma {:induction false} BackfilledLookup(fs: seq<Finding>, records: seq<RuleExecutionRecord>, ruleID: string)
    requires AllBackfilled(fs, records)
    ensures var m := RecordsByRule(records);
            && (ruleID in m <==> Recorded(records, ruleID))
            && (ruleID in m ==> m[ruleID] == BackfilledRecord(fs, ruleID))
  {
    if records != [] {
      var front := records[..|records| - 1];
      BackfilledLookup(fs, front, ruleID);
      assert Recorded(records, ruleID) <==> Recorded(front, ruleID) || records[|records| - 1].ruleID == ruleID;
    }
  }

  /** Against a backfilled report a missing finding is resolved exactly when its rule is in the
      universe and the report still shows some other finding of that rule: silence proves nothing. */
  lemma LegacyResolvedIff(universe: seq<string>, baseline: ReportDoc, current: ReportDoc, b: Index, c: Index,
                          cmp: Comparison, f: Finding)
    requires |current.ruleExecutions| == 0
    requires IsComparison(baseline, NormalizedDoc(universe, current), b, c, cmp)
    ensures f in cmp.buckets.resolved <==>
              && f in baseline.findings && !(exists g :: g in current.findings && g.fingerprint == f.fingerprint)
              && f.ruleID in universe && exists g :: g in current.findings && g.ruleID == f.ruleID
  {
    var records := Backfilled(universe, current.findings);
    BackfilledLookup(current.findings, records, f.ruleID);
    assert Recorded(records, f.ruleID) <==> f.ruleID in universe by {
      if f.ruleID in universe {
        var k :| 0 <= k < |universe| && universe[k] == f.ruleID;
        assert records[k].ruleID == f.ruleID;
      }
    }
    assert ProvenEvaluated(f.ruleID, RecordsByRule(records)) <==>
             f.ruleID in universe && HasFinding(current.findings, f.ruleID);
    assert IsGone(b, c, f) <==>
             f in baseline.findings && !(exists g :: g in current.findings && g.fingerprint == f.fingerprint);
  }

  /** Record `k` is the last one of its rule. */
  ghost predicate LastOfRule(records: seq<RuleExecutionRecord>, k: int, ruleID: string) {
    0 <= k < |records| && records[k].ruleID == ruleID && forall l | k < l < |records| :: records[l].ruleID != ruleID
  }

  /** The lookup returns the last record of a rule, and nothing for a rule without one. */
  lemma {:induction false} LookupIsLastRecord(records: seq<RuleExecutionRecord>, ruleID: string)
    ensures ruleID in RecordsByRule(records) <==> Recorded(records, ruleID)
    ensures forall k | LastOfRule(records, k, ruleID) ::
              ruleID in RecordsByRule(records) && RecordsByRule(records)[ruleID] == records[k]
  {
    if records != [] {
      var n := |records| - 1;
      LookupIsLastRecord(records[..n], ruleID);
      assert Recorded(records, ruleID) <==> Recorded(records[..n], ruleID) || records[n].ruleID == ruleID;
      forall k | LastOfRule(records, k, ruleID)
        ensures ruleID in RecordsByRule(records) && RecordsByRule(records)[ruleID] == records[k]
      {
        if k < n {
          assert LastOfRule(records[..n], k, ruleID);
        }
      }
    }
  }
}
