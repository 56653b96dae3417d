/** What the ranks of findings and groups mean (internal/report/view.go): the documented orders of
    priorities, severities and confidence tiers, read off the lists the report shows. */
module Urgency {
  import opened Orders
  import opened Text
  import opened Findings
  import opened Grouping
  import opened GroupOrder
  import opened NextActions

  /** Most urgent first; every other value comes after these. */
  const PRIORITIES: seq<string> := ["P1", "P2", "P3", "P4"]
  const SEVERITIES: seq<Severity> := [SeverityBlocker, SeverityWarning]
  const TIERS: seq<ConfidenceTier> := [TierStaticCertain, TierObserved, TierProviderReported, TierInferred]

  lemma PriorityRankMeans(p: string, k: nat)
    requires k <= 4
    ensures PriorityRank(p) < k <==> p in PRIORITIES[..k]
  {
    assert PRIORITIES[0] == "P1" && PRIORITIES[1] == "P2" && PRIORITIES[2] == "P3" && PRIORITIES[3] == "P4";
  }

  lemma SeverityRankMeans(s: Severity, k: nat)
    requires k <= 2
    ensures SeverityRank(s) < k <==> s in SEVERITIES[..k]
  {
    assert SEVERITIES[0] == SeverityBlocker && SEVERITIES[1] == SeverityWarning;
  }

  lemma ConfidenceRankMeans(c: ConfidenceTier, k: nat)
    requires k <= 4
    ensures ConfidenceRank(c) < k <==> c in TIERS[..k]
  {
    assert TIERS[0] == TierStaticCertain && TIERS[1] == TierObserved;
    assert TIERS[2] == TierProviderReported && TIERS[3] == TierInferred;
  }

  // ---- who speaks for a group ---------------------------------------------------------------------

  ghost predicate Holds(g: seq<FindingMeta>, s: Severity) {
    exists m :: m in g && m.finding.severity == s
  }

  /** Blocker like Blocker, Warning like Warning, and all the rest alike. */
  predicate SameSeverity(s: Severity, t: Severity) {
    (s == SeverityBlocker <==> t == SeverityBlocker) && (s == SeverityWarning <==> t == SeverityWarning)
  }

  /** An action is a Blocker exactly when its group holds one, a Warning exactly when the group holds one
      and no Blocker; and of the findings of that severity the one with the smallest rule ID speaks. */
  lemma ActionSpeaksFor(g: seq<FindingMeta>, x: NextAction)
    requires IsActionFor(g, x)
    ensures x.severity == SeverityBlocker <==> Holds(g, SeverityBlocker)
    ensures x.severity == SeverityWarning <==> Holds(g, SeverityWarning) && !Holds(g, SeverityBlocker)
    ensures x.primary.severity == x.severity
    ensures exists m :: m in g && m.finding == x.primary && m.resourceLabel == x.resourceLabel
    ensures forall m | m in g && SameSeverity(m.finding.severity, x.severity) ::
              !StrLess(m.finding.ruleID, x.primary.ruleID)
  {
    var p: nat :| IsPrimary(g, p) && x.primary == g[p].finding && x.resourceLabel == g[p].resourceLabel;
    assert g[p] in g;
    forall m | m in g
      ensures !Outranks(m, g[p])
      ensures SeverityRank(m.finding.severity) < 1 <==> m.finding.severity == SeverityBlocker
      ensures SeverityRank(m.finding.severity) < 2 <==>
                m.finding.severity == SeverityBlocker || m.finding.severity == SeverityWarning
    {
      PrimaryOutranksAll(g, p, m);
      SeverityRankIs(m.finding.severity);
    }
  }

  /** An action carries along the findings of its group whose rule and whose remediation both differ from
      what it already says. */
  lemma RelatedMeans(g: seq<FindingMeta>, x: NextAction)
    requires IsActionFor(g, x)
    ensures forall f :: f in x.related <==>
              && (exists m :: m in g && m.finding == f)
              && f.ruleID != x.primary.ruleID && f.remediation != x.primary.remediation
  {
    RelatedMembers(g, x.primary);
  }

  lemma {:induction false} RelatedMembers(g: seq<FindingMeta>, primary: Finding)
    ensures forall f :: f in RelatedTo(g, primary) <==>
              && (exists m :: m in g && m.finding == f)
              && f.ruleID != primary.ruleID && f.remediation != primary.remediation
  {
    if g != [] {
      var front, last := g[..|g| - 1], g[|g| - 1];
      RelatedMembers(front, primary);
      assert g == front + [last];
    }
  }

  lemma SeverityRankIs(s: Severity)
    ensures SeverityRank(s) < 1 <==> s == SeverityBlocker
    ensures SeverityRank(s) < 2 <==> s == SeverityBlocker || s == SeverityWarning
  {
    SeverityRankMeans(s, 1);
    SeverityRankMeans(s, 2);
    assert SEVERITIES[..1] == [SeverityBlocker] && SEVERITIES[..2] == [SeverityBlocker, SeverityWarning];
  }

  // ---- the order of findings ------------------------------------------------------------------------

  predicate PrioritiesTie(p: string, q: string) {
    forall k | 0 <= k <= 4 :: p in PRIORITIES[..k] <==> q in PRIORITIES[..k]
  }

  predicate TiersTie(c: ConfidenceTier, d: ConfidenceTier) {
    forall k | 0 <= k <= 4 :: c in TIERS[..k] <==> d in TIERS[..k]
  }

  /** `a` may stand before `b`: its priority is no lower, at equal priority its severity, at equal severity
      its confidence, and then rule ID and resource label do not descend. */
  predicate MayPrecede(a: FindingMeta, b: FindingMeta) {
    var f, g := a.finding, b.finding;
    && (forall k | 0 <= k <= 4 :: g.priority in PRIORITIES[..k] ==> f.priority in PRIORITIES[..k])
    && (PrioritiesTie(f.priority, g.priority) ==>
          && (forall k | 0 <= k <= 2 :: g.severity in SEVERITIES[..k] ==> f.severity in SEVERITIES[..k])
          && (SameSeverity(f.severity, g.severity) ==>
                && (forall k | 0 <= k <= 4 :: g.confidence in TIERS[..k] ==> f.confidence in TIERS[..k])
                && (TiersTie(f.confidence, g.confidence) ==>
                      && !StrLess(g.ruleID, f.ruleID)
                      && (f.ruleID == g.ruleID ==> !StrLess(b.resourceLabel, a.resourceLabel)))))
  }

  lemma PriorityTieMeans(p: string, q: string)
    ensures PriorityRank(p) == PriorityRank(q) <==> PrioritiesTie(p, q)
  {
    forall k: nat | k <= 4
      ensures p in PRIORITIES[..k] <==> PriorityRank(p) < k
      ensures q in PRIORITIES[..k] <==> PriorityRank(q) < k
    {
      PriorityRankMeans(p, k);
      PriorityRankMeans(q, k);
    }
    assert p !in PRIORITIES[..PriorityRank(p)] && q !in PRIORITIES[..PriorityRank(q)];
  }

  lemma SeverityTieMeans(s: Severity, t: Severity)
    ensures SeverityRank(s) == SeverityRank(t) <==> SameSeverity(s, t)
  {
    SeverityRankIs(s);
    SeverityRankIs(t);
  }

  lemma TierTieMeans(c: ConfidenceTier, d: ConfidenceTier)
    ensures ConfidenceRank(c) == ConfidenceRank(d) <==> TiersTie(c, d)
  {
    forall k: nat | k <= 4
      ensures c in TIERS[..k] <==> ConfidenceRank(c) < k
      ensures d in TIERS[..k] <==> ConfidenceRank(d) < k
    {
      ConfidenceRankMeans(c, k);
      ConfidenceRankMeans(d, k);
    }
    assert c !in TIERS[..ConfidenceRank(c)] && d !in TIERS[..ConfidenceRank(d)];
  }

  lemma DisplayOrderMeans(a: FindingMeta, b: FindingMeta)
    requires !FindingMetaLess(b, a)
    ensures MayPrecede(a, b)
  {
    var f, g := a.finding, b.finding;
    PriorityTieMeans(f.priority, g.priority);
    SeverityTieMeans(f.severity, g.severity);
    TierTieMeans(f.confidence, g.confidence);
    StrLessLaws();
    forall k: nat | k <= 4
      ensures g.priority in PRIORITIES[..k] && PriorityRank(f.priority) <= PriorityRank(g.priority) ==>
                f.priority in PRIORITIES[..k]
      ensures g.confidence in TIERS[..k] && ConfidenceRank(f.confidence) <= ConfidenceRank(g.confidence) ==>
                f.confidence in TIERS[..k]
    {
      PriorityRankMeans(f.priority, k);
      PriorityRankMeans(g.priority, k);
      ConfidenceRankMeans(f.confidence, k);
      ConfidenceRankMeans(g.confidence, k);
    }
    forall k: nat | k <= 2
      ensures g.severity in SEVERITIES[..k] && SeverityRank(f.severity) <= SeverityRank(g.severity) ==>
                f.severity in SEVERITIES[..k]
    {
      SeverityRankMeans(f.severity, k);
      SeverityRankMeans(g.severity, k);
    }
  }

  /** The findings at these positions stand in the documented order throughout. */
  predicate ShownInOrder(metas: seq<FindingMeta>, shown: seq<int>) {
    && (forall i | 0 <= i < |shown| :: 0 <= shown[i] < |metas|)
    && forall i, j | 0 <= i < j < |shown| :: MayPrecede(metas[shown[i]], metas[shown[j]])
  }

  /** A list of positions in display order does so: the whole index, and each of its buckets. */
  lemma DisplayedInOrder(metas: seq<FindingMeta>, shown: seq<int>)
    requires Sorted(PositionLess(metas), shown) && forall i | i in shown :: 0 <= i < |metas|
    ensures ShownInOrder(metas, shown)
  {
    forall i, j | 0 <= i < j < |shown|
      ensures 0 <= shown[i] < |metas| && 0 <= shown[j] < |metas| && MayPrecede(metas[shown[i]], metas[shown[j]])
    {
      assert shown[i] in shown && shown[j] in shown;
      assert !PositionLess(metas)(shown[j], shown[i]);
      DisplayOrderMeans(metas[shown[i]], metas[shown[j]]);
    }
    forall i | 0 <= i < |shown|
      ensures 0 <= shown[i] < |metas|
    {
      assert shown[i] in shown;
    }
  }

  /** Which findings the warning and the information bucket select: an explicit request for an operator
      always warns, and nothing that blocks does. */
  lemma BucketConditionsMean(f: Finding)
    ensures IsWarning(f) <==>
              || f.upgradeGate == GateOperatorDecision
              || (f.severity == SeverityWarning && f.upgradeGate != GateBlock
                  && !(f.upgradeGate == GateUnset && f.globalBlocker))
    ensures IsPlainInfo(f) <==>
              && f.severity == SeverityInfo && f.upgradeGate != GateBlock && f.upgradeGate != GateOperatorDecision
              && !(f.upgradeGate == GateUnset && f.globalBlocker)
  {
    GateMeans(f);
  }

  // ---- the order of groups ----------------------------------------------------------------------------

  /** The group holds one of the first `k` priorities, severities or tiers. */
  ghost predicate HoldsPriority(g: seq<FindingMeta>, k: nat)
    requires k <= 4
  {
    exists m :: m in g && m.finding.priority in PRIORITIES[..k]
  }

  ghost predicate HoldsSeverity(g: seq<FindingMeta>, k: nat)
    requires k <= 2
  {
    exists m :: m in g && m.finding.severity in SEVERITIES[..k]
  }

  ghost predicate HoldsTier(g: seq<FindingMeta>, k: nat)
    requires k <= 4
  {
    exists m :: m in g && m.finding.confidence in TIERS[..k]
  }

  /** The best priorities of the two groups are alike; P4 and no priority are. */
  ghost predicate BestPrioritiesTie(g: seq<FindingMeta>, h: seq<FindingMeta>) {
    forall k | 0 <= k <= 3 :: HoldsPriority(g, k) <==> HoldsPriority(h, k)
  }

  ghost predicate BestSeveritiesTie(g: seq<FindingMeta>, h: seq<FindingMeta>) {
    forall k | 0 <= k <= 2 :: HoldsSeverity(g, k) <==> HoldsSeverity(h, k)
  }

  ghost predicate BestTiersTie(g: seq<FindingMeta>, h: seq<FindingMeta>) {
    forall k | 0 <= k <= 3 :: HoldsTier(g, k) <==> HoldsTier(h, k)
  }

  /** Group `g` may stand before group `h`. */
  ghost predicate GroupMayPrecede(g: seq<FindingMeta>, h: seq<FindingMeta>) {
    && (forall k | 0 <= k <= 3 :: HoldsPriority(h, k) ==> HoldsPriority(g, k))
    && (BestPrioritiesTie(g, h) ==>
          && (forall k | 0 <= k <= 2 :: HoldsSeverity(h, k) ==> HoldsSeverity(g, k))
          && (BestSeveritiesTie(g, h) ==>
                && (forall k | 0 <= k <= 3 :: HoldsTier(h, k) ==> HoldsTier(g, k))
                && (BestTiersTie(g, h) ==> exists x, y :: IsSortText(g, x) && IsSortText(h, y) && !StrLess(y, x))))
  }

  lemma BestPriorityMeans(g: seq<FindingMeta>, r: nat, k: nat)
    requires IsCappedMin(g, PriorityOf, 3, r) && k <= 3
    ensures HoldsPriority(g, k) <==> r < k
  {
    forall m | m in g
      ensures m.finding.priority in PRIORITIES[..k] <==> PriorityOf(m) < k
    {
      PriorityRankMeans(m.finding.priority, k);
    }
  }

  lemma BestSeverityMeans(g: seq<FindingMeta>, r: nat, k: nat)
    requires IsCappedMin(g, SeverityOf, 2, r) && k <= 2
    ensures HoldsSeverity(g, k) <==> r < k
  {
    forall m | m in g
      ensures m.finding.severity in SEVERITIES[..k] <==> SeverityOf(m) < k
    {
      SeverityRankMeans(m.finding.severity, k);
    }
  }

  lemma BestTierMeans(g: seq<FindingMeta>, r: nat, k: nat)
    requires IsCappedMin(g, ConfidenceOf, 3, r) && k <= 3
    ensures HoldsTier(g, k) <==> r < k
  {
    forall m | m in g
      ensures m.finding.confidence in TIERS[..k] <==> ConfidenceOf(m) < k
    {
      ConfidenceRankMeans(m.finding.confidence, k);
    }
  }

  lemma BestPrioritiesMean(g: seq<FindingMeta>, r: nat, h: seq<FindingMeta>, s: nat)
    requires IsCappedMin(g, PriorityOf, 3, r) && IsCappedMin(h, PriorityOf, 3, s)
    ensures r <= s <==> forall k | 0 <= k <= 3 :: HoldsPriority(h, k) ==> HoldsPriority(g, k)
    ensures r == s <==> BestPrioritiesTie(g, h)
  {
    forall k: nat | k <= 3
      ensures (HoldsPriority(g, k) <==> r < k) && (HoldsPriority(h, k) <==> s < k)
    {
      BestPriorityMeans(g, r, k);
      BestPriorityMeans(h, s, k);
    }
    assert HoldsPriority(g, r) <==> r < r;
    assert HoldsPriority(h, s) <==> s < s;
  }

  lemma BestSeveritiesMean(g: seq<FindingMeta>, r: nat, h: seq<FindingMeta>, s: nat)
    requires IsCappedMin(g, SeverityOf, 2, r) && IsCappedMin(h, SeverityOf, 2, s)
    ensures r <= s <==> forall k | 0 <= k <= 2 :: HoldsSeverity(h, k) ==> HoldsSeverity(g, k)
    ensures r == s <==> BestSeveritiesTie(g, h)
  {
    forall k: nat | k <= 2
      ensures (HoldsSeverity(g, k) <==> r < k) && (HoldsSeverity(h, k) <==> s < k)
    {
      BestSeverityMeans(g, r, k);
      BestSeverityMeans(h, s, k);
    }
    assert HoldsSeverity(g, r) <==> r < r;
    assert HoldsSeverity(h, s) <==> s < s;
  }

  lemma BestTiersMean(g: seq<FindingMeta>, r: nat, h: seq<FindingMeta>, s: nat)
    requires IsCappedMin(g, ConfidenceOf, 3, r) && IsCappedMin(h, ConfidenceOf, 3, s)
    ensures r <= s <==> forall k | 0 <= k <= 3 :: HoldsTier(h, k) ==> HoldsTier(g, k)
    ensures r == s <==> BestTiersTie(g, h)
  {
    forall k: nat | k <= 3
      ensures (HoldsTier(g, k) <==> r < k) && (HoldsTier(h, k) <==> s < k)
    {
      BestTierMeans(g, r, k);
      BestTierMeans(h, s, k);
    }
    assert HoldsTier(g, r) <==> r < r;
    assert HoldsTier(h, s) <==> s < s;
  }

  lemma GroupOrderMeans(g: seq<FindingMeta>, x: OrderKey, h: seq<FindingMeta>, y: OrderKey)
    requires IsOrderKey(g, x) && IsOrderKey(h, y) && !OrderKeyLess(y, x)
    ensures GroupMayPrecede(g, h)
  {
    BestPrioritiesMean(g, x.priority, h, y.priority);
    BestSeveritiesMean(g, x.severity, h, y.severity);
    BestTiersMean(g, x.confidence, h, y.confidence);
    assert x.priority <= y.priority;
    if x.priority == y.priority && x.severity == y.severity && x.confidence == y.confidence {
      assert IsSortText(g, x.text) && IsSortText(h, y.text) && !StrLess(y.text, x.text);
    }
  }

  /** The actions stand in the documented order of their groups: P1 groups before the others, then P2,
      then P3; at equal best priority groups with a Blocker first, then those with a Warning; at equal
      severity by the best confidence, and then by the sorted resource keys. */
  lemma GroupsByUrgency(metas: seq<FindingMeta>, groups: seq<seq<FindingMeta>>, actions: seq<NextAction>)
    requires IsActionListFor(metas, groups, actions)
    ensures |actions| == |groups| && forall k | 0 <= k < |groups| :: IsActionFor(groups[k], actions[k])
    ensures forall i, j | 0 <= i < j < |groups| :: GroupMayPrecede(groups[i], groups[j])
  {
    var keys: seq<OrderKey> :| AreOrderKeys(groups, keys) && NeighboursOrdered(OrderKeyLess, keys);
    OrderKeyLessIsTotal(keys);
    NeighboursOrderedIsSorted(OrderKeyLess, keys);
    forall i, j | 0 <= i < j < |groups|
      ensures GroupMayPrecede(groups[i], groups[j])
    {
      assert !OrderKeyLess(keys[j], keys[i]);
      GroupOrderMeans(groups[i], keys[i], groups[j], keys[j]);
    }
  }
}
