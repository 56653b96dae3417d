/** The order of Next Actions and what one action says about its group
    (internal/report/view.go). The main result: the sequence of groups is a function of the
    multiset of findings, whatever order they arrive in and whichever keys became roots. */
module GroupOrder {
  import opened Orders
  import opened Text
  import opened Findings
  import opened Grouping

  function SeverityRank(s: Severity): nat {
    match s case SeverityBlocker => 0 case SeverityWarning => 1 case _ => 2
  }

  function ConfidenceRank(c: ConfidenceTier): nat {
    match c
    case TierStaticCertain => 0
    case TierObserved => 1
    case TierProviderReported => 2
    case TierInferred => 3
    case TierOther(_) => 4
  }

  /** What a group sorts by: three ranks, then the sorted union of its resource keys. */
  datatype OrderKey = OrderKey(priority: nat, severity: nat, confidence: nat, text: string)

  predicate OrderKeyLess(a: OrderKey, b: OrderKey) {
    if a.priority != b.priority then a.priority < b.priority
    else if a.severity != b.severity then a.severity < b.severity
    else if a.confidence != b.confidence then a.confidence < b.confidence
    else StrLess(a.text, b.text)
  }

  lemma OrderKeyLessIsTotal(keys: seq<OrderKey>)
    ensures StrictTotalOn(OrderKeyLess, keys)
  {
    StrLessLaws();
  }

  function PriorityOf(m: FindingMeta): nat {
    PriorityRank(m.finding.priority)
  }

  function SeverityOf(m: FindingMeta): nat {
    SeverityRank(m.finding.severity)
  }

  function ConfidenceOf(m: FindingMeta): nat {
    ConfidenceRank(m.finding.confidence)
  }

  /** `r` is the least rank in the group, never more than `cap`. */
  ghost predicate IsCappedMin(group: seq<FindingMeta>, rankOf: FindingMeta -> nat, cap: nat, r: nat) {
    && r <= cap
    && (forall m | m in group :: r <= rankOf(m))
    && (r == cap || exists m :: m in group && rankOf(m) == r)
  }

  ghost predicate IsKeyUnion(group: seq<FindingMeta>, keys: seq<string>) {
    NoDuplicates(keys) && Sorted(StrLess, keys) && forall k :: k in keys <==> exists m :: m in group && k in m.keys
  }

  ghost predicate IsSortText(group: seq<FindingMeta>, text: string) {
    exists keys :: IsKeyUnion(group, keys) && text == Join(keys, ":")
  }

  /** `key` is the order key of the group. */
  ghost predicate IsOrderKey(group: seq<FindingMeta>, key: OrderKey) {
    && IsCappedMin(group, PriorityOf, 3, key.priority)
    && IsCappedMin(group, SeverityOf, 2, key.severity)
    && IsCappedMin(group, ConfidenceOf, 3, key.confidence)
    && IsSortText(group, key.text)
  }

  /** No two neighbouring groups are in the wrong order. */
  ghost predicate GroupsOrdered(groups: seq<seq<FindingMeta>>) {
    exists keys: seq<OrderKey> :: AreOrderKeys(groups, keys) && NeighboursOrdered(OrderKeyLess, keys)
  }

  ghost predicate AreOrderKeys(groups: seq<seq<FindingMeta>>, keys: seq<OrderKey>) {
    |keys| == |groups| && forall k | 0 <= k < |groups| :: IsOrderKey(groups[k], keys[k])
  }

  ghost predicate SameElements<T(!new)>(a: seq<T>, b: seq<T>) {
    forall x :: x in a <==> x in b
  }

  lemma SortTextOfMembers(g: seq<FindingMeta>, h: seq<FindingMeta>, x: string, y: string)
    requires SameElements(g, h) && IsSortText(g, x) && IsSortText(h, y)
    ensures x == y
  {
    var kx :| IsKeyUnion(g, kx) && x == Join(kx, ":");
    var ky :| IsKeyUnion(h, ky) && y == Join(ky, ":");
    StrLessLaws();
    SortedListsAgree(StrLess, kx, ky);
  }

  /** A group's order key depends on its members only. */
  lemma OrderKeyOfMembers(g: seq<FindingMeta>, h: seq<FindingMeta>, x: OrderKey, y: OrderKey)
    requires SameElements(g, h) && IsOrderKey(g, x) && IsOrderKey(h, y)
    ensures x == y
  {
    SortTextOfMembers(g, h, x.text, y.text);
  }

  ghost predicate AllKeyed(metas: seq<FindingMeta>) {
    DigestKeys(metas) && forall m | m in metas :: m.keys != []
  }

  /** Groups with equal sort texts share a resource key: joining fixed-length keys loses nothing
      that matters here. */
  lemma EqualTextsShareKey(metas: seq<FindingMeta>, g: seq<FindingMeta>, h: seq<FindingMeta>, text: string)
    returns (a: FindingMeta, b: FindingMeta)
    requires AllKeyed(metas) && g != [] && h != []
    requires (forall m | m in g :: m in metas) && (forall m | m in h :: m in metas)
    requires IsSortText(g, text) && IsSortText(h, text)
    ensures a in g && b in h && SharesKey(a, b)
  {
    var kg :| IsKeyUnion(g, kg) && text == Join(kg, ":");
    var kh :| IsKeyUnion(h, kh) && text == Join(kh, ":");
    assert g[0].keys[0] in kg && h[0].keys[0] in kh;
    assert kg[0] in kg && kh[0] in kh;
    a :| a in g && kg[0] in a.keys;
    b :| b in h && kh[0] in b.keys;
    assert IsDigest(kg[0]) && IsDigest(kh[0]);
    JoinStartsWithFirst(kg, ":");
    JoinStartsWithFirst(kh, ":");
  }

  lemma JoinStartsWithFirst(parts: seq<string>, sep: string)
    requires parts != []
    ensures HasPrefix(Join(parts, sep), parts[0])
  {
    if |parts| > 1 {
      assert Join(parts, sep) == parts[0] + (sep + Join(parts[1..], sep));
    }
  }

  lemma SharersAreTogether(metas: seq<FindingMeta>, a: FindingMeta, b: FindingMeta)
    requires a in metas && b in metas && SharesKey(a, b)
    ensures SameGroup(metas, a, b)
  {
    LinkedRefl(metas, a);
    ChainExtends(metas, a, a, b);
  }

  /** Distinct groups never compare equal, so the order is strict and total on them. */
  lemma DistinctGroupsDiffer(metas: seq<FindingMeta>, groups: seq<seq<FindingMeta>>, keys: seq<OrderKey>)
    requires AllKeyed(metas) && IsGrouping(metas, groups) && AreOrderKeys(groups, keys)
    ensures forall i, j | 0 <= i < j < |groups| :: keys[i].text != keys[j].text
    ensures NoDuplicates(keys)
  {
    forall i, j | 0 <= i < j < |groups|
      ensures keys[i].text != keys[j].text
    {
      if keys[i].text == keys[j].text {
        GroupMembersAreInput(metas, groups, i);
        GroupMembersAreInput(metas, groups, j);
        var a, b := EqualTextsShareKey(metas, groups[i], groups[j], keys[i].text);
        SharersAreTogether(metas, a, b);
        GroupsAreClasses(metas, groups, i, j, a, b);
      }
    }
  }

  lemma GroupMembersAreInput(metas: seq<FindingMeta>, groups: seq<seq<FindingMeta>>, k: nat)
    requires IsGrouping(metas, groups) && k < |groups|
    ensures groups[k] != [] && forall m | m in groups[k] :: m in metas
  {
    assert WholeClass(metas, groups[k]);
    forall m | m in groups[k]
      ensures m in metas
    {
      InMembers(metas, metas, groups[k][0], m);
    }
  }

  lemma SameGroupIgnoresOrder(m1: seq<FindingMeta>, m2: seq<FindingMeta>, a: FindingMeta, b: FindingMeta)
    requires SameElements(m1, m2)
    ensures SameGroup(m1, a, b) <==> SameGroup(m2, a, b)
  {
    if Linked(m1, a, b) {
      var chain :| IsChain(m1, chain) && chain[0] == a && chain[|chain| - 1] == b;
      assert IsChain(m2, chain);
    }
    if Linked(m2, a, b) {
      var chain :| IsChain(m2, chain) && chain[0] == a && chain[|chain| - 1] == b;
      assert IsChain(m1, chain);
    }
  }

  lemma {:induction false} MembersCount(metas: seq<FindingMeta>, s: seq<FindingMeta>, rep: FindingMeta, m: FindingMeta)
    ensures multiset(Members(metas, s, rep))[m] == if SameGroup(metas, rep, m) then multiset(s)[m] else 0
  {
    if s != [] {
      MembersCount(metas, s[..|s| - 1], rep, m);
      assert s == s[..|s| - 1] + [s[|s| - 1]];
    }
  }

  /** Classes of the same findings that have a member in common hold the same findings. */
  lemma ClassesAgree(m1: seq<FindingMeta>, g1: seq<FindingMeta>, m2: seq<FindingMeta>, g2: seq<FindingMeta>,
                     a: FindingMeta, b: FindingMeta)
    requires multiset(m1) == multiset(m2) && WholeClass(m1, g1) && WholeClass(m2, g2)
    requires a in g1 && b in g2 && SameGroup(m1, a, b)
    ensures multiset(g1) == multiset(g2)
  {
    SameMembers(m1, m2);
    InMembers(m1, m1, g1[0], a);
    InMembers(m2, m2, g2[0], b);
    forall m
      ensures multiset(g1)[m] == multiset(g2)[m]
    {
      MembersCount(m1, m1, g1[0], m);
      MembersCount(m2, m2, g2[0], m);
      SameGroupIgnoresOrder(m1, m2, g2[0], m);
      SameGroupIgnoresOrder(m1, m2, g2[0], b);
      if m in m1 {
        SameReps(m1, g1[0], a, b, g2[0]);
        if SameGroup(m1, g1[0], m) { SameGroupTrans(m1, g2[0], g1[0], m); }
        if SameGroup(m1, g2[0], m) { SameGroupTrans(m1, g1[0], g2[0], m); }
      } else {
        assert multiset(m1)[m] == 0;
      }
    }
  }

  lemma CounterpartGroup(m1: seq<FindingMeta>, groups1: seq<seq<FindingMeta>>, keys1: seq<OrderKey>,
                         m2: seq<FindingMeta>, groups2: seq<seq<FindingMeta>>, keys2: seq<OrderKey>, i: nat)
    returns (j: nat)
    requires multiset(m1) == multiset(m2)
    requires IsGrouping(m1, groups1) && IsGrouping(m2, groups2) && i < |groups1|
    requires AreOrderKeys(groups1, keys1) && AreOrderKeys(groups2, keys2)
    ensures j < |groups2| && multiset(groups1[i]) == multiset(groups2[j]) && keys1[i] == keys2[j]
  {
    SameMembers(m1, m2);
    GroupMembersAreInput(m1, groups1, i);
    var a := groups1[i][0];
    assert a in groups1[i];
    assert Grouped(groups2, a);
    j :| 0 <= j < |groups2| && a in groups2[j];
    assert WholeClass(m1, groups1[i]) && WholeClass(m2, groups2[j]);
    SameGroupRefl(m1, a);
    ClassesAgree(m1, groups1[i], m2, groups2[j], a, a);
    SameMembers(groups1[i], groups2[j]);
    OrderKeyOfMembers(groups1[i], groups2[j], keys1[i], keys2[j]);
  }

  lemma CounterpartKeys(m1: seq<FindingMeta>, groups1: seq<seq<FindingMeta>>, keys1: seq<OrderKey>,
                        m2: seq<FindingMeta>, groups2: seq<seq<FindingMeta>>, keys2: seq<OrderKey>)
    requires multiset(m1) == multiset(m2)
    requires IsGrouping(m1, groups1) && IsGrouping(m2, groups2)
    requires AreOrderKeys(groups1, keys1) && AreOrderKeys(groups2, keys2)
    ensures forall x | x in keys1 :: x in keys2
  {
    forall x | x in keys1
      ensures x in keys2
    {
      var i :| 0 <= i < |keys1| && keys1[i] == x;
      var j := CounterpartGroup(m1, groups1, keys1, m2, groups2, keys2, i);
    }
  }

  /** No two groups compare equal. */
  ghost predicate DistinctOrderKeys(groups: seq<seq<FindingMeta>>) {
    forall keys: seq<OrderKey> | AreOrderKeys(groups, keys) :: NoDuplicates(keys)
  }

  /** Every group of the second run has its counterpart in the first, so its keys are distinct too. */
  lemma DistinctKeysCarryOver(m1: seq<FindingMeta>, groups1: seq<seq<FindingMeta>>, k1: seq<OrderKey>,
                              m2: seq<FindingMeta>, groups2: seq<seq<FindingMeta>>, k2: seq<OrderKey>)
    requires multiset(m1) == multiset(m2) && NoDuplicates(k1)
    requires IsGrouping(m1, groups1) && AreOrderKeys(groups1, k1)
    requires IsGrouping(m2, groups2) && AreOrderKeys(groups2, k2)
    ensures NoDuplicates(k2)
  {
    forall i, j | 0 <= i < j < |k2|
      ensures k2[i] != k2[j]
    {
      var x := CounterpartGroup(m2, groups2, k2, m1, groups1, k1, i);
      var y := CounterpartGroup(m2, groups2, k2, m1, groups1, k1, j);
      if x == y {
        GroupsAreDisjoint(m2, groups2, i, j);
      }
    }
  }

  /** Two groups of one grouping never hold the same findings. */
  lemma GroupsAreDisjoint(metas: seq<FindingMeta>, groups: seq<seq<FindingMeta>>, i: nat, j: nat)
    requires IsGrouping(metas, groups) && i < j < |groups|
    ensures multiset(groups[i]) != multiset(groups[j])
  {
    GroupMembersAreInput(metas, groups, i);
    GroupMembersAreInput(metas, groups, j);
    if multiset(groups[i]) == multiset(groups[j]) {
      SameMembers(groups[i], groups[j]);
      var a := groups[i][0];
      assert a in groups[i] && a in groups[j];
      SameGroupRefl(metas, a);
      GroupsAreClasses(metas, groups, i, j, a, a);
    }
  }

  lemma OrderKeysAgree(m1: seq<FindingMeta>, groups1: seq<seq<FindingMeta>>, k1: seq<OrderKey>,
                       m2: seq<FindingMeta>, groups2: seq<seq<FindingMeta>>, k2: seq<OrderKey>)
    requires multiset(m1) == multiset(m2) && NoDuplicates(k1)
    requires IsGrouping(m1, groups1) && AreOrderKeys(groups1, k1) && NeighboursOrdered(OrderKeyLess, k1)
    requires IsGrouping(m2, groups2) && AreOrderKeys(groups2, k2) && NeighboursOrdered(OrderKeyLess, k2)
    ensures k1 == k2
  {
    DistinctKeysCarryOver(m1, groups1, k1, m2, groups2, k2);
    OrderKeyLessIsTotal(k1);
    OrderKeyLessIsTotal(k2);
    NeighboursOrderedIsSorted(OrderKeyLess, k1);
    NeighboursOrderedIsSorted(OrderKeyLess, k2);
    CounterpartKeys(m1, groups1, k1, m2, groups2, k2);
    CounterpartKeys(m2, groups2, k2, m1, groups1, k1);
    SortedListsAgree(OrderKeyLess, k1, k2);
  }

  /** The sequence of groups is determined by the findings alone: two runs over the same findings
      in any order, with any roots, list the same groups in the same places, provided no two groups
      of the first compare equal. */
  lemma GroupSequenceIsCanonical(m1: seq<FindingMeta>, groups1: seq<seq<FindingMeta>>,
                                 m2: seq<FindingMeta>, groups2: seq<seq<FindingMeta>>)
    requires multiset(m1) == multiset(m2) && DistinctOrderKeys(groups1)
    requires IsGrouping(m1, groups1) && GroupsOrdered(groups1)
    requires IsGrouping(m2, groups2) && GroupsOrdered(groups2)
    ensures |groups1| == |groups2|
    ensures forall k | 0 <= k < |groups1| :: multiset(groups1[k]) == multiset(groups2[k])
  {
    var k1: seq<OrderKey> :| AreOrderKeys(groups1, k1) && NeighboursOrdered(OrderKeyLess, k1);
    var k2: seq<OrderKey> :| AreOrderKeys(groups2, k2) && NeighboursOrdered(OrderKeyLess, k2);
    OrderKeysAgree(m1, groups1, k1, m2, groups2, k2);
    EqualKeysEqualGroups(m1, groups1, m2, groups2, k1);
  }

  /** When every finding has a resource, as validated findings do, no two groups compare equal. */
  lemma KeyedGroupsAreDistinct(metas: seq<FindingMeta>, groups: seq<seq<FindingMeta>>)
    requires AllKeyed(metas) && IsGrouping(metas, groups)
    ensures DistinctOrderKeys(groups)
  {
    forall keys: seq<OrderKey> | AreOrderKeys(groups, keys)
      ensures NoDuplicates(keys)
    {
      DistinctGroupsDiffer(metas, groups, keys);
    }
  }

  lemma EqualKeysEqualGroups(m1: seq<FindingMeta>, groups1: seq<seq<FindingMeta>>,
                             m2: seq<FindingMeta>, groups2: seq<seq<FindingMeta>>, keys: seq<OrderKey>)
    requires multiset(m1) == multiset(m2) && IsGrouping(m1, groups1) && IsGrouping(m2, groups2)
    requires AreOrderKeys(groups1, keys) && AreOrderKeys(groups2, keys) && NoDuplicates(keys)
    ensures forall k | 0 <= k < |groups1| :: multiset(groups1[k]) == multiset(groups2[k])
  {
    forall k | 0 <= k < |groups1|
      ensures multiset(groups1[k]) == multiset(groups2[k])
    {
      var j := CounterpartGroup(m1, groups1, keys, m2, groups2, keys, k);
      assert keys[j] == keys[k];
    }
  }

  // ---- one action ----------------------------------------------------------------------------

  datatype NextAction = NextAction(
    resourceLabel: string, ruleIDs: seq<string>, severity: Severity, primary: Finding, related: seq<Finding>)

  /** More severe, or equally severe with the smaller rule ID. */
  predicate Outranks(a: FindingMeta, b: FindingMeta) {
    var ra, rb := SeverityRank(a.finding.severity), SeverityRank(b.finding.severity);
    ra < rb || (ra == rb && StrLess(a.finding.ruleID, b.finding.ruleID))
  }

  /** The first finding of the group that no other outranks. */
  ghost predicate IsPrimary(group: seq<FindingMeta>, p: nat) {
    && p < |group|
    && (forall q | 0 <= q < p :: Outranks(group[p], group[q]))
    && (forall q | p < q < |group| :: !Outranks(group[q], group[p]))
  }

  /** The other findings of the group whose rule and remediation both differ from the primary's. */
  ghost function RelatedTo(group: seq<FindingMeta>, primary: Finding): seq<Finding> {
    if group == [] then []
    else
      var front, f := RelatedTo(group[..|group| - 1], primary), group[|group| - 1].finding;
      if f.ruleID == primary.ruleID || f.remediation == primary.remediation then front else front + [f]
  }

  ghost predicate IsActionFor(group: seq<FindingMeta>, action: NextAction) {
    && (exists p: nat ::
          && IsPrimary(group, p) && action.primary == group[p].finding
          && action.resourceLabel == group[p].resourceLabel)
    && action.severity == action.primary.severity
    && multiset(action.ruleIDs) == RuleBag(group) && Sorted(StrLess, action.ruleIDs)
    && action.related == RelatedTo(group, action.primary)
  }

  lemma OutranksLaws(a: FindingMeta, b: FindingMeta, c: FindingMeta)
    ensures !Outranks(a, a)
    ensures Outranks(a, b) && Outranks(b, c) ==> Outranks(a, c)
    ensures Outranks(a, b) && !Outranks(c, b) ==> Outranks(a, c)
    ensures !Outranks(a, b) && !Outranks(b, c) ==> !Outranks(a, c)
    ensures !Outranks(a, b) && !Outranks(b, a) ==>
              && SeverityRank(a.finding.severity) == SeverityRank(b.finding.severity)
              && a.finding.ruleID == b.finding.ruleID
  {
    StrLessLaws();
  }

  lemma PrimaryOutranksAll(group: seq<FindingMeta>, p: nat, m: FindingMeta)
    requires IsPrimary(group, p) && m in group
    ensures !Outranks(m, group[p])
  {
    var q :| 0 <= q < |group| && group[q] == m;
    OutranksLaws(group[p], group[q], group[p]);
  }

  lemma {:induction false} RuleBagOfMembers(g: seq<FindingMeta>, h: seq<FindingMeta>)
    requires multiset(g) == multiset(h)
    ensures RuleBag(g) == RuleBag(h)
  {
    assert |g| == |multiset(g)| == |multiset(h)| == |h|;
    if g != [] {
      var n := |g| - 1;
      assert g[n] in multiset(h);
      var at :| 0 <= at < |h| && h[at] == g[n];
      OneRemoved(g, n);
      OneRemoved(h, at);
      assert g[..n] + g[n + 1..] == g[..n];
      RuleBagOfMembers(g[..n], h[..at] + h[at + 1..]);
      RuleBagWithout(h, at);
    }
  }

  lemma {:induction false} RuleBagConcat(g: seq<FindingMeta>, h: seq<FindingMeta>)
    ensures RuleBag(g + h) == RuleBag(g) + RuleBag(h)
  {
    if h == [] {
      assert g + h == g;
    } else {
      var front, last := h[..|h| - 1], h[|h| - 1];
      assert h == front + [last] && g + h == (g + front) + [last];
      RuleBagConcat(g, front);
      BagGainsOne(g + front, last);
      BagGainsOne(front, last);
      Regrouped(RuleBag(g), RuleBag(front), multiset{last.finding.ruleID});
    }
  }

  lemma RuleBagAround(front: seq<FindingMeta>, m: FindingMeta, back: seq<FindingMeta>)
    ensures RuleBag((front + [m]) + back) == RuleBag(front + back) + multiset{m.finding.ruleID}
  {
    BagGainsOne(front, m);
    RuleBagConcat(front + [m], back);
    RuleBagConcat(front, back);
    Regrouped(RuleBag(front), multiset{m.finding.ruleID}, RuleBag(back));
  }

  lemma RuleBagWithout(h: seq<FindingMeta>, at: nat)
    requires at < |h|
    ensures RuleBag(h) == RuleBag(h[..at] + h[at + 1..]) + multiset{h[at].finding.ruleID}
  {
    SplitAround(h, at);
    RuleBagAround(h[..at], h[at], h[at + 1..]);
  }

  lemma PrimariesTie(g: seq<FindingMeta>, p: nat, h: seq<FindingMeta>, q: nat)
    requires multiset(g) == multiset(h) && IsPrimary(g, p) && IsPrimary(h, q)
    ensures SeverityRank(g[p].finding.severity) == SeverityRank(h[q].finding.severity)
    ensures g[p].finding.ruleID == h[q].finding.ruleID
  {
    SameMembers(g, h);
    assert g[p] in h && h[q] in g;
    PrimaryOutranksAll(g, p, h[q]);
    PrimaryOutranksAll(h, q, g[p]);
    OutranksLaws(g[p], h[q], g[p]);
  }

  /** What an action says, apart from which of several equally ranked findings speaks for the
      group, does not depend on the order of the group either. */
  lemma ActionIsCanonical(g: seq<FindingMeta>, x: NextAction, h: seq<FindingMeta>, y: NextAction)
    requires multiset(g) == multiset(h) && IsActionFor(g, x) && IsActionFor(h, y)
    ensures x.ruleIDs == y.ruleIDs
    ensures SeverityRank(x.severity) == SeverityRank(y.severity) && x.primary.ruleID == y.primary.ruleID
  {
    RuleBagOfMembers(g, h);
    StrLessLaws();
    SortedPermutationsAgree(StrLess, x.ruleIDs, y.ruleIDs);
    var p: nat :| IsPrimary(g, p) && x.primary == g[p].finding && x.resourceLabel == g[p].resourceLabel;
    var q: nat :| IsPrimary(h, q) && y.primary == h[q].finding && y.resourceLabel == h[q].resourceLabel;
    PrimariesTie(g, p, h, q);
  }

  /** Up to the order of the related findings, which follows the order of the group. */
  ghost predicate SameAction(x: NextAction, y: NextAction) {
    x == y.(related := x.related) && multiset(x.related) == multiset(y.related)
  }

  lemma {:induction false} RelatedConcat(g: seq<FindingMeta>, h: seq<FindingMeta>, primary: Finding)
    ensures RelatedTo(g + h, primary) == RelatedTo(g, primary) + RelatedTo(h, primary)
  {
    if h == [] {
      assert g + h == g;
    } else {
      RelatedConcat(g, h[..|h| - 1], primary);
      assert (g + h)[..|g + h| - 1] == g + h[..|h| - 1];
    }
  }

  /** What one finding contributes to the related findings. */
  ghost function RelatedShare(m: FindingMeta, primary: Finding): multiset<Finding> {
    multiset(RelatedTo([m], primary))
  }

  lemma RelatedAround(front: seq<FindingMeta>, m: FindingMeta, back: seq<FindingMeta>, primary: Finding)
    ensures multiset(RelatedTo((front + [m]) + back, primary))
            == multiset(RelatedTo(front + back, primary)) + RelatedShare(m, primary)
  {
    RelatedConcat(front + [m], back, primary);
    RelatedConcat(front, [m], primary);
    RelatedConcat(front, back, primary);
    Regrouped(multiset(RelatedTo(front, primary)), RelatedShare(m, primary), multiset(RelatedTo(back, primary)));
  }

  /** The related findings of a group are a function of its findings as a bag. */
  lemma {:induction false} RelatedIgnoreOrder(g: seq<FindingMeta>, h: seq<FindingMeta>, primary: Finding)
    requires multiset(g) == multiset(h)
    ensures multiset(RelatedTo(g, primary)) == multiset(RelatedTo(h, primary))
  {
    assert |g| == |multiset(g)| == |multiset(h)| == |h|;
    if g != [] {
      var n := |g| - 1;
      var m := g[n];
      assert m in multiset(h);
      var at :| 0 <= at < |h| && h[at] == m;
      OneRemoved(g, n);
      OneRemoved(h, at);
      assert g[..n] + g[n + 1..] == g[..n];
      RelatedIgnoreOrder(g[..n], h[..at] + h[at + 1..], primary);
      SplitAround(h, at);
      RelatedAround(h[..at], m, h[at + 1..], primary);
      SplitAround(g, n);
      RelatedAround(g[..n], m, g[n + 1..], primary);
    }
  }

  /** A group in which one finding outranks all others gives the same action in every order. */
  lemma LedActionIsCanonical(g: seq<FindingMeta>, x: NextAction, h: seq<FindingMeta>, y: NextAction)
    requires multiset(g) == multiset(h) && IsActionFor(g, x) && IsActionFor(h, y) && HasLeader(g)
    ensures SameAction(x, y)
  {
    var p: nat :| IsPrimary(g, p) && x.primary == g[p].finding && x.resourceLabel == g[p].resourceLabel;
    var q: nat :| IsPrimary(h, q) && y.primary == h[q].finding && y.resourceLabel == h[q].resourceLabel;
    PrimaryIgnoresOrderIff(g, p);
    assert h[q] == g[p];
    ActionIsCanonical(g, x, h, y);
    RelatedIgnoreOrder(g, h, x.primary);
  }

  /** Whatever order a group's findings arrive in, the same finding speaks for it. */
  ghost predicate PrimaryIgnoresOrder(g: seq<FindingMeta>, p: nat)
    requires p < |g|
  {
    forall h: seq<FindingMeta>, q: nat | multiset(h) == multiset(g) && IsPrimary(h, q) :: h[q] == g[p]
  }

  /** One finding of the group outranks all others. */
  ghost predicate HasLeader(g: seq<FindingMeta>) {
    exists f :: f in g && LeadsAll(g, f)
  }

  ghost predicate LeadsAll(g: seq<FindingMeta>, f: FindingMeta) {
    forall m | m in g :: m == f || Outranks(f, m)
  }

  lemma LeaderIsPrimary(g: seq<FindingMeta>, p: nat)
    requires IsPrimary(g, p)
    ensures HasLeader(g) <==> LeadsAll(g, g[p])
  {
    if f :| f in g && LeadsAll(g, f) {
      PrimaryOutranksAll(g, p, f);
      assert g[p] in g;
    }
  }

  /** That holds exactly when one finding outranks all others of the group, by severity or else by
      rule ID; otherwise the first of the tied findings speaks. */
  lemma PrimaryIgnoresOrderIff(g: seq<FindingMeta>, p: nat)
    requires IsPrimary(g, p)
    ensures PrimaryIgnoresOrder(g, p) <==> HasLeader(g)
  {
    LeaderIsPrimary(g, p);
    if LeadsAll(g, g[p]) {
      forall h: seq<FindingMeta>, q: nat | multiset(h) == multiset(g) && IsPrimary(h, q)
        ensures h[q] == g[p]
      {
        SameMembers(g, h);
        assert h[q] in h && g[p] in g;
        PrimaryOutranksAll(h, q, g[p]);
      }
    } else {
      var m :| m in g && m != g[p] && !Outranks(g[p], m);
      var h := TiedFindingCanLead(g, p, m);
      assert h[0] != g[p];
    }
  }

  /** Two different findings of one rule and severity tie. */
  lemma TiedPairDependsOnOrder(a: FindingMeta, b: FindingMeta)
    requires a != b && a.finding.ruleID == b.finding.ruleID && a.finding.severity == b.finding.severity
    ensures IsPrimary([a, b], 0) && !PrimaryIgnoresOrder([a, b], 0)
  {
    OutranksLaws(a, b, a);
    StrLessLaws();
    assert [a, b][0] == a && [a, b][1] == b;
    assert multiset([b, a]) == multiset([a, b]);
    assert IsPrimary([b, a], 0) && [b, a][0] != [a, b][0];
  }

  lemma TiedFindingCanLead(g: seq<FindingMeta>, p: nat, m: FindingMeta) returns (h: seq<FindingMeta>)
    requires IsPrimary(g, p) && m in g && !Outranks(g[p], m)
    ensures multiset(h) == multiset(g) && IsPrimary(h, 0) && h[0] == m
  {
    var at :| 0 <= at < |g| && g[at] == m;
    var rest := g[..at] + g[at + 1..];
    h := [m] + rest;
    MovedToFront(g, at);
    forall x | x in rest
      ensures !Outranks(x, m)
    {
      PrimaryOutranksAll(g, p, x);
      OutranksLaws(x, g[p], m);
    }
  }
}
