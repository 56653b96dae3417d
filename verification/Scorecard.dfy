/** The upgrade-readiness scorecard (internal/findings/report.go): per-category counts, a capped
    penalty per category and one score. The theorems hold for every table of rule categories. */
module Scorecard {
  import opened Orders
  import opened Text
  import opened Findings
  import opened Reports

  /** The category a rule is filed under; None for a rule the table does not know. */
  type CategoryTable = string -> Option<CategoryName>

  // ---- counting ------------------------------------------------------------------------------------

  function Count(fs: seq<Finding>, p: Finding -> bool): nat {
    if fs == [] then 0 else Count(fs[..|fs| - 1], p) + if p(fs[|fs| - 1]) then 1 else 0
  }

  lemma {:induction false} CountWithout(fs: seq<Finding>, p: Finding -> bool, at: nat)
    requires at < |fs|
    ensures Count(fs, p) == Count(fs[..at] + fs[at + 1..], p) + if p(fs[at]) then 1 else 0
  {
    var n := |fs| - 1;
    if at == n {
      assert fs[..at] + fs[at + 1..] == fs[..n];
    } else {
      var rest := fs[..at] + fs[at + 1..];
      assert rest[..|rest| - 1] == fs[..n][..at] + fs[..n][at + 1..];
      CountWithout(fs[..n], p, at);
    }
  }

  /** A larger bag of findings counts at least as much, whatever the order. */
  lemma {:induction false} CountGrows(fs: seq<Finding>, more: seq<Finding>, p: Finding -> bool)
    requires multiset(fs) <= multiset(more)
    ensures Count(fs, p) <= Count(more, p)
  {
    if fs != [] {
      var n := |fs| - 1;
      var f := fs[n];
      assert fs == fs[..n] + [f];
      assert f in multiset(more);
      var at :| 0 <= at < |more| && more[at] == f;
      OneRemoved(more, at);
      OneRemoved(fs, n);
      assert fs[..n] + fs[n + 1..] == fs[..n];
      CountGrows(fs[..n], more[..at] + more[at + 1..], p);
      CountWithout(more, p, at);
    }
  }

  lemma CountIgnoresOrder(fs: seq<Finding>, gs: seq<Finding>, p: Finding -> bool)
    requires multiset(fs) == multiset(gs)
    ensures Count(fs, p) == Count(gs, p)
  {
    CountGrows(fs, gs, p);
    CountGrows(gs, fs, p);
  }

  lemma {:induction false} SameCount(fs: seq<Finding>, p: Finding -> bool, q: Finding -> bool)
    requires forall f | f in fs :: p(f) == q(f)
    ensures Count(fs, p) == Count(fs, q)
  {
    if fs != [] {
      assert fs == fs[..|fs| - 1] + [fs[|fs| - 1]];
      SameCount(fs[..|fs| - 1], p, q);
    }
  }

  lemma {:induction false} CountPositive(fs: seq<Finding>, p: Finding -> bool)
    ensures Count(fs, p) > 0 <==> exists f :: f in fs && p(f)
  {
    if fs != [] {
      CountPositive(fs[..|fs| - 1], p);
      assert fs == fs[..|fs| - 1] + [fs[|fs| - 1]];
    }
  }

  /** Counted as a warning on the scorecard. */
  predicate Warns(f: Finding) {
    NeedsOperator(f) || (!Blocks(f) && f.severity == SeverityWarning)
  }

  function BlocksIn(table: CategoryTable, name: CategoryName): Finding -> bool {
    (f: Finding) => table(f.ruleID) == Some(name) && Blocks(f)
  }

  function WarnsIn(table: CategoryTable, name: CategoryName): Finding -> bool {
    (f: Finding) => table(f.ruleID) == Some(name) && Warns(f)
  }

  // ---- one category ----------------------------------------------------------------------------------

  function StatusOf(blockers: nat, warnings: nat): CategoryStatus {
    if blockers > 0 then CategoryFailed else if warnings > 0 then CategoryWarning else CategoryPassed
  }

  ghost predicate IsRuleList(table: CategoryTable, name: CategoryName, fs: seq<Finding>, ids: seq<string>) {
    && NoDuplicates(ids) && Sorted(StrLess, ids)
    && forall id :: id in ids <==> table(id) == Some(name) && exists f :: f in fs && f.ruleID == id
  }

  ghost predicate IsCategory(table: CategoryTable, name: CategoryName, fs: seq<Finding>, c: Category) {
    && c.name == name
    && c.blockerCount == Count(fs, BlocksIn(table, name))
    && c.warningCount == Count(fs, WarnsIn(table, name))
    && c.status == StatusOf(c.blockerCount, c.warningCount)
    && IsRuleList(table, name, fs, c.ruleIDs)
  }

  /** A failed category costs 15 plus 3 per further blocker, at most 25; a warned one 5 plus 1 per
      further warning, at most 10. */
  function CategoryPenalty(c: Category): int {
    match c.status
    case CategoryFailed => if 15 + 3 * (c.blockerCount - 1) > 25 then 25 else 15 + 3 * (c.blockerCount - 1)
    case CategoryWarning => if 5 + (c.warningCount - 1) > 10 then 10 else 5 + (c.warningCount - 1)
    case CategoryPassed => 0
  }

  function TotalPenalty(cs: seq<Category>): int {
    if cs == [] then 0 else TotalPenalty(cs[..|cs| - 1]) + CategoryPenalty(cs[|cs| - 1])
  }

  ghost predicate AreCategories(table: CategoryTable, fs: seq<Finding>, cs: seq<Category>) {
    |cs| == |CATEGORY_ORDER| && forall k | 0 <= k < |cs| :: IsCategory(table, CATEGORY_ORDER[k], fs, cs[k])
  }

  /** `s` is the scorecard of these findings under this verdict. */
  ghost predicate IsSummary(table: CategoryTable, fs: seq<Finding>, verdict: Verdict, s: ReadinessSummary) {
    && AreCategories(table, fs, s.categories)
    && s.verdict == verdict
    && s.score == (if TotalPenalty(s.categories) > 100 then 0 else 100 - TotalPenalty(s.categories))
    && s.upgradeContinue == (verdict != INCOMPLETE && (forall c | c in s.categories :: c.blockerCount == 0)
                             && !exists f :: f in fs && NeedsOperator(f))
  }

  // ---- the code ------------------------------------------------------------------------------------------

  /** The category after the findings seen so far, its rule list not sorted yet. */
  ghost predicate IsTally(table: CategoryTable, name: CategoryName, seen: seq<Finding>, c: Category) {
    && c.name == name
    && c.blockerCount == Count(seen, BlocksIn(table, name))
    && c.warningCount == Count(seen, WarnsIn(table, name))
    && c.status == StatusOf(c.blockerCount, c.warningCount)
    && NoDuplicates(c.ruleIDs)
    && forall id :: id in c.ruleIDs <==> table(id) == Some(name) && exists f :: f in seen && f.ruleID == id
  }

  /** Records one finding of the category. */
  function Tally(c: Category, f: Finding): Category {
    var listed := c.(ruleIDs := if f.ruleID in c.ruleIDs then c.ruleIDs else c.ruleIDs + [f.ruleID]);
    match f.EffectiveUpgradeGate()
    case GateBlock => listed.(blockerCount := c.blockerCount + 1, status := CategoryFailed)
    case GateOperatorDecision =>
      listed.(warningCount := c.warningCount + 1,
              status := if c.status == CategoryFailed then CategoryFailed else CategoryWarning)
    case _ =>
      if f.severity == SeverityWarning then
        listed.(warningCount := c.warningCount + 1,
                status := if c.status == CategoryFailed then CategoryFailed else CategoryWarning)
      else listed
  }

  lemma CountNext(fs: seq<Finding>, i: nat, p: Finding -> bool)
    requires i < |fs|
    ensures Count(fs[..i + 1], p) == Count(fs[..i], p) + if p(fs[i]) then 1 else 0
  {
    assert fs[..i + 1][..i] == fs[..i];
  }

  lemma TallyStep(table: CategoryTable, name: CategoryName, fs: seq<Finding>, i: nat, c: Category)
    requires i < |fs| && IsTally(table, name, fs[..i], c)
    ensures IsTally(table, name, fs[..i + 1], if table(fs[i].ruleID) == Some(name) then Tally(c, fs[i]) else c)
  {
    CountNext(fs, i, BlocksIn(table, name));
    CountNext(fs, i, WarnsIn(table, name));
    assert fs[..i + 1] == fs[..i] + [fs[i]];
  }

  /** One pass over the findings updates the category each belongs to; a finding of an unfiled rule
      is skipped. */
  method FillCategories(table: CategoryTable, fs: seq<Finding>) returns (byCategory: map<CategoryName, Category>)
    ensures forall name :: name in byCategory && IsTally(table, name, fs, byCategory[name])
  {
    byCategory := map[];
    for k := 0 to |CATEGORY_ORDER|
      invariant forall name | name in CATEGORY_ORDER[..k] :: name in byCategory
      invariant forall name | name in byCategory :: byCategory[name] == Category(name, CategoryPassed, 0, 0, [])
    {
      byCategory := byCategory[CATEGORY_ORDER[k] := Category(CATEGORY_ORDER[k], CategoryPassed, 0, 0, [])];
    }
    assert CATEGORY_ORDER[..|CATEGORY_ORDER|] == CATEGORY_ORDER;
    forall name
      ensures name in byCategory
    {
      EveryCategoryIsListed(name);
    }
    for i := 0 to |fs|
      invariant forall name :: name in byCategory && IsTally(table, name, fs[..i], byCategory[name])
    {
      forall name { TallyStep(table, name, fs, i, byCategory[name]); }
      var filed := table(fs[i].ruleID);
      if filed.Some? {
        byCategory := byCategory[filed.value := Tally(byCategory[filed.value], fs[i])];
      }
    }
    assert fs[..|fs|] == fs;
  }

  method SortRuleIDs(table: CategoryTable, name: CategoryName, fs: seq<Finding>, c: Category) returns (sorted: Category)
    requires IsTally(table, name, fs, c)
    ensures IsCategory(table, name, fs, sorted)
  {
    StrLessLaws();
    var ids := SortSlice(c.ruleIDs, StrLess);
    PermutationKeepsNoDuplicates(c.ruleIDs, ids);
    SameMembers(c.ruleIDs, ids);
    NeighboursOrderedIsSorted(StrLess, ids);
    sorted := c.(ruleIDs := ids);
  }

  method AnyOperatorDecision(fs: seq<Finding>) returns (found: bool)
    ensures found <==> exists f :: f in fs && NeedsOperator(f)
  {
    for i := 0 to |fs|
      invariant !exists f :: f in fs[..i] && NeedsOperator(f)
    {
      assert fs[..i + 1] == fs[..i] + [fs[i]];
      if fs[i].EffectiveUpgradeGate() == GateOperatorDecision {
        assert fs[i] in fs && NeedsOperator(fs[i]);
        return true;
      }
    }
    assert fs[..|fs|] == fs;
    return false;
  }

  /** The categories in the order of `names`, the score left after their penalties, and whether any
      of them failed. */
  method BuildCategories(table: CategoryTable, names: seq<CategoryName>, fs: seq<Finding>,
                         byCategory: map<CategoryName, Category>)
    returns (categories: seq<Category>, score: int, anyBlocker: bool)
    requires forall name :: name in byCategory && IsTally(table, name, fs, byCategory[name])
    ensures |categories| == |names| && forall k | 0 <= k < |names| :: IsCategory(table, names[k], fs, categories[k])
    ensures score == 100 - TotalPenalty(categories)
    ensures anyBlocker <==> exists c :: c in categories && c.blockerCount > 0
  {
    categories, score, anyBlocker := [], 100, false;
    for k := 0 to |names|
      invariant |categories| == k && forall i | 0 <= i < k :: IsCategory(table, names[i], fs, categories[i])
      invariant score == 100 - TotalPenalty(categories)
      invariant anyBlocker <==> exists c :: c in categories && c.blockerCount > 0
    {
      var c := SortRuleIDs(table, names[k], fs, byCategory[names[k]]);
      assert (categories + [c])[..k] == categories;
      categories := categories + [c];
      score := score - CategoryPenalty(c);
      anyBlocker := anyBlocker || c.blockerCount > 0;
    }
  }

  /** `BuildUpgradeReadinessSummary`. */
  method BuildSummary(table: CategoryTable, fs: seq<Finding>, verdict: Verdict) returns (s: ReadinessSummary)
    ensures IsSummary(table, fs, verdict, s)
  {
    var byCategory := FillCategories(table, fs);
    var categories, score, anyBlocker := BuildCategories(table, CATEGORY_ORDER, fs, byCategory);
    if score < 0 {
      score := 0;
    }
    var operator := AnyOperatorDecision(fs);
    s := ReadinessSummary(verdict, verdict != INCOMPLETE && !anyBlocker && !operator, score, categories);
  }

  // ---- theorems -------------------------------------------------------------------------------------------

  lemma PenaltyBounds(table: CategoryTable, name: CategoryName, fs: seq<Finding>, c: Category)
    requires IsCategory(table, name, fs, c)
    ensures 0 <= CategoryPenalty(c) <= 25
  {
  }

  lemma {:induction false} TotalPenaltyIsNonNegative(cs: seq<Category>)
    requires forall c | c in cs :: 0 <= CategoryPenalty(c)
    ensures TotalPenalty(cs) >= 0
  {
    if cs != [] {
      TotalPenaltyIsNonNegative(cs[..|cs| - 1]);
    }
  }

  /** The score is between 0 and 100. */
  lemma ScoreInRange(table: CategoryTable, fs: seq<Finding>, verdict: Verdict, s: ReadinessSummary)
    requires IsSummary(table, fs, verdict, s)
    ensures 0 <= s.score <= 100
  {
    forall c | c in s.categories
      ensures 0 <= CategoryPenalty(c)
    {
      var k :| 0 <= k < |s.categories| && s.categories[k] == c;
      PenaltyBounds(table, CATEGORY_ORDER[k], fs, c);
    }
    TotalPenaltyIsNonNegative(s.categories);
  }

  /** Neither blocks nor waits for an operator nor warns. */
  ghost predicate Harmless(f: Finding) {
    && f.upgradeGate != GateBlock && f.upgradeGate != GateOperatorDecision && f.severity != SeverityWarning
    && (f.upgradeGate == GateUnset ==> !f.globalBlocker && f.severity != SeverityBlocker)
  }

  /** When a category fails, warns and passes, over the gates and severities of its findings. */
  lemma CategoryMeans(table: CategoryTable, name: CategoryName, fs: seq<Finding>, c: Category)
    requires IsCategory(table, name, fs, c)
    ensures c.status == CategoryFailed <==> exists f ::
              && f in fs && table(f.ruleID) == Some(name)
              && (|| f.upgradeGate == GateBlock
                  || (f.upgradeGate == GateUnset && (f.globalBlocker || f.severity == SeverityBlocker)))
    ensures c.status == CategoryPassed <==> forall f | f in fs && table(f.ruleID) == Some(name) :: Harmless(f)
  {
    CountPositive(fs, BlocksIn(table, name));
    CountPositive(fs, WarnsIn(table, name));
    forall f {
      GateMeans(f);
    }
  }

  /** What a category costs. */
  lemma PenaltyMeans(table: CategoryTable, name: CategoryName, fs: seq<Finding>, c: Category)
    requires IsCategory(table, name, fs, c)
    ensures c.blockerCount > 0 ==> CategoryPenalty(c) == if c.blockerCount > 4 then 25 else 12 + 3 * c.blockerCount
    ensures c.blockerCount == 0 && c.warningCount > 0 ==>
              CategoryPenalty(c) == if c.warningCount > 6 then 10 else 4 + c.warningCount
    ensures c.blockerCount == 0 && c.warningCount == 0 ==> CategoryPenalty(c) == 0
  {
  }

  lemma {:induction false} OnePenalty(cs: seq<Category>, k: nat)
    requires k < |cs| && forall i | 0 <= i < |cs| && i != k :: CategoryPenalty(cs[i]) == 0
    ensures TotalPenalty(cs) == CategoryPenalty(cs[k])
  {
    var n := |cs| - 1;
    if k < n {
      OnePenalty(cs[..n], k);
    } else {
      NoPenalty(cs[..n]);
    }
  }

  lemma {:induction false} NoPenalty(cs: seq<Category>)
    requires forall i | 0 <= i < |cs| :: CategoryPenalty(cs[i]) == 0
    ensures TotalPenalty(cs) == 0
  {
    if cs != [] {
      NoPenalty(cs[..|cs| - 1]);
    }
  }

  /** The score when one category alone has something to say. */
  lemma OneCategoryScores(table: CategoryTable, fs: seq<Finding>, verdict: Verdict, s: ReadinessSummary, k: nat)
    requires IsSummary(table, fs, verdict, s) && k < 10
    requires forall i | 0 <= i < 10 && i != k :: s.categories[i].status == CategoryPassed
    ensures var c := s.categories[k];
            && (c.blockerCount in {1, 2, 3, 4} ==> s.score == 88 - 3 * c.blockerCount)
            && (c.blockerCount > 4 ==> s.score == 75)
            && (c.blockerCount == 0 && c.warningCount in {1, 2, 3, 4, 5, 6} ==> s.score == 96 - c.warningCount)
            && (c.blockerCount == 0 && c.warningCount > 6 ==> s.score == 90)
            && (c.blockerCount == 0 && c.warningCount == 0 ==> s.score == 100)
  {
    PenaltyMeans(table, CATEGORY_ORDER[k], fs, s.categories[k]);
    OnePenalty(s.categories, k);
  }

  lemma {:induction false} PenaltiesPositive(cs: seq<Category>, k: nat)
    requires k < |cs| && CategoryPenalty(cs[k]) > 0 && forall c | c in cs :: 0 <= CategoryPenalty(c)
    ensures TotalPenalty(cs) > 0
  {
    var n := |cs| - 1;
    if k < n {
      PenaltiesPositive(cs[..n], k);
    } else {
      TotalPenaltyIsNonNegative(cs[..n]);
    }
  }

  /** The score is perfect exactly when no finding of a filed rule blocks, waits for an operator or
      warns. */
  lemma PerfectScoreIff(table: CategoryTable, fs: seq<Finding>, verdict: Verdict, s: ReadinessSummary)
    requires IsSummary(table, fs, verdict, s)
    ensures s.score == 100 <==> forall f | f in fs && table(f.ruleID).Some? :: Harmless(f)
  {
    var cs := s.categories;
    forall k | 0 <= k < |cs|
      ensures CategoryPenalty(cs[k]) >= 0 && (CategoryPenalty(cs[k]) == 0 <==> cs[k].status == CategoryPassed)
      ensures cs[k].status == CategoryPassed <==>
                forall f | f in fs && table(f.ruleID) == Some(CATEGORY_ORDER[k]) :: Harmless(f)
    {
      CategoryMeans(table, CATEGORY_ORDER[k], fs, cs[k]);
      PenaltyMeans(table, CATEGORY_ORDER[k], fs, cs[k]);
    }
    if k :| 0 <= k < |cs| && cs[k].status != CategoryPassed {
      PenaltiesPositive(cs, k);
      var f :| f in fs && table(f.ruleID) == Some(CATEGORY_ORDER[k]) && !Harmless(f);
    } else {
      NoPenalty(cs);
      forall f | f in fs && table(f.ruleID).Some?
        ensures Harmless(f)
      {
        EveryCategoryIsListed(table(f.ruleID).value);
      }
    }
  }

  lemma PenaltyGrows(table: CategoryTable, name: CategoryName, fs: seq<Finding>, c: Category, more: seq<Finding>,
                     d: Category)
    requires IsCategory(table, name, fs, c) && IsCategory(table, name, more, d) && multiset(fs) <= multiset(more)
    ensures CategoryPenalty(c) <= CategoryPenalty(d)
  {
    CountGrows(fs, more, BlocksIn(table, name));
    CountGrows(fs, more, WarnsIn(table, name));
  }

  lemma {:induction false} TotalPenaltyGrows(cs: seq<Category>, ds: seq<Category>)
    requires |cs| == |ds| && forall k | 0 <= k < |cs| :: CategoryPenalty(cs[k]) <= CategoryPenalty(ds[k])
    ensures TotalPenalty(cs) <= TotalPenalty(ds)
  {
    if cs != [] {
      TotalPenaltyGrows(cs[..|cs| - 1], ds[..|ds| - 1]);
    }
  }

  /** More findings never raise the score. */
  lemma FindingsNeverRaiseScore(table: CategoryTable, fs: seq<Finding>, v: Verdict, s: ReadinessSummary,
                                more: seq<Finding>, w: Verdict, t: ReadinessSummary)
    requires IsSummary(table, fs, v, s) && IsSummary(table, more, w, t) && multiset(fs) <= multiset(more)
    ensures t.score <= s.score
  {
    forall k | 0 <= k < |s.categories|
      ensures CategoryPenalty(s.categories[k]) <= CategoryPenalty(t.categories[k])
    {
      PenaltyGrows(table, CATEGORY_ORDER[k], fs, s.categories[k], more, t.categories[k]);
    }
    TotalPenaltyGrows(s.categories, t.categories);
  }

  lemma CategoryIgnoresOrder(table: CategoryTable, name: CategoryName, fs: seq<Finding>, c: Category, gs: seq<Finding>,
                             d: Category)
    requires IsCategory(table, name, fs, c) && IsCategory(table, name, gs, d) && multiset(fs) == multiset(gs)
    ensures c == d
  {
    CountIgnoresOrder(fs, gs, BlocksIn(table, name));
    CountIgnoresOrder(fs, gs, WarnsIn(table, name));
    SameMembers(fs, gs);
    StrLessLaws();
    SortedListsAgree(StrLess, c.ruleIDs, d.ruleIDs);
  }

  /** The whole scorecard is a function of the findings as a bag. */
  lemma SummaryIgnoresOrder(table: CategoryTable, fs: seq<Finding>, gs: seq<Finding>, v: Verdict, s: ReadinessSummary,
                            t: ReadinessSummary)
    requires IsSummary(table, fs, v, s) && IsSummary(table, gs, v, t) && multiset(fs) == multiset(gs)
    ensures s == t
  {
    forall k | 0 <= k < |s.categories|
      ensures s.categories[k] == t.categories[k]
    {
      CategoryIgnoresOrder(table, CATEGORY_ORDER[k], fs, s.categories[k], gs, t.categories[k]);
    }
    assert s.categories == t.categories;
    SameMembers(fs, gs);
  }

  ghost function SumBlockers(cs: seq<Category>): nat {
    if cs == [] then 0 else SumBlockers(cs[..|cs| - 1]) + cs[|cs| - 1].blockerCount
  }

  /** Blocking findings of any of these categories. */
  function BlocksAmong(table: CategoryTable, names: seq<CategoryName>): Finding -> bool {
    (f: Finding) => table(f.ruleID).Some? && table(f.ruleID).value in names && Blocks(f)
  }

  lemma {:induction false} CountsAddUp(fs: seq<Finding>, p: Finding -> bool, q: Finding -> bool, r: Finding -> bool)
    requires forall f | f in fs :: !(p(f) && q(f)) && (r(f) <==> p(f) || q(f))
    ensures Count(fs, r) == Count(fs, p) + Count(fs, q)
  {
    if fs != [] {
      CountsAddUp(fs[..|fs| - 1], p, q, r);
      assert fs[|fs| - 1] in fs;
    }
  }

  lemma {:induction false} CategoryBlockersCount(table: CategoryTable, names: seq<CategoryName>, fs: seq<Finding>,
                                                 cs: seq<Category>)
    requires NoDuplicates(names) && |cs| == |names|
    requires forall k | 0 <= k < |cs| :: IsCategory(table, names[k], fs, cs[k])
    ensures SumBlockers(cs) == Count(fs, BlocksAmong(table, names))
  {
    if cs == [] {
      CountPositive(fs, BlocksAmong(table, names));
    } else {
      var n := |cs| - 1;
      CategoryBlockersCount(table, names[..n], fs, cs[..n]);
      assert names == names[..n] + [names[n]];
      CountsAddUp(fs, BlocksAmong(table, names[..n]), BlocksIn(table, names[n]), BlocksAmong(table, names));
    }
  }

  ghost predicate AllMapped(table: CategoryTable, fs: seq<Finding>) {
    forall f | f in fs :: table(f.ruleID).Some?
  }

  lemma EveryCategoryIsListed(c: CategoryName)
    ensures exists k :: 0 <= k < |CATEGORY_ORDER| && CATEGORY_ORDER[k] == c
  {
    var k := match c
      case APICompatibility => 0
      case ExtensionAPIs => 1
      case AdmissionWebhooks => 2
      case DisruptionSafety => 3
      case DrainReadiness => 4
      case NodeReadiness => 5
      case Addons => 6
      case CoreDNS => 7
      case Workloads => 8
      case EKSUpgradeInsights => 9;
    assert CATEGORY_ORDER[k] == c;
  }

  /** When every rule is filed, the categories' blocker counts add up to the number of blocking
      findings. */
  lemma CategoryBlockersSum(table: CategoryTable, fs: seq<Finding>, cs: seq<Category>)
    requires AreCategories(table, fs, cs) && AllMapped(table, fs)
    ensures SumBlockers(cs) == Count(fs, Blocks)
  {
    CategoryBlockersCount(table, CATEGORY_ORDER, fs, cs);
    forall f | f in fs
      ensures BlocksAmong(table, CATEGORY_ORDER)(f) <==> Blocks(f)
    {
      EveryCategoryIsListed(table(f.ruleID).value);
    }
    CountsAddUp(fs, BlocksAmong(table, CATEGORY_ORDER), (f: Finding) => false, Blocks);
    CountPositive(fs, (f: Finding) => false);
  }

  lemma CategoryBlockersVanish(table: CategoryTable, fs: seq<Finding>, cs: seq<Category>)
    requires AreCategories(table, fs, cs)
    ensures (forall c | c in cs :: c.blockerCount == 0) <==> !exists f :: f in fs && Blocks(f) && table(f.ruleID).Some?
  {
    if c :| c in cs && c.blockerCount > 0 {
      var k :| 0 <= k < |cs| && cs[k] == c;
      CountPositive(fs, BlocksIn(table, CATEGORY_ORDER[k]));
    }
    if f :| f in fs && Blocks(f) && table(f.ruleID).Some? {
      EveryCategoryIsListed(table(f.ruleID).value);
      var k :| 0 <= k < |CATEGORY_ORDER| && CATEGORY_ORDER[k] == table(f.ruleID).value;
      CountPositive(fs, BlocksIn(table, CATEGORY_ORDER[k]));
      assert cs[k] in cs;
    }
  }

  /** Something blocks, but nothing the table files does. */
  ghost predicate OnlyUnfiledBlockers(table: CategoryTable, fs: seq<Finding>) {
    (exists f :: f in fs && Blocks(f)) && forall f | f in fs && Blocks(f) :: table(f.ruleID).None?
  }

  /** "The upgrade may continue" means: complete evidence, no blocking finding, no pending operator
      decision. The scorecard says so exactly when it is true, with one exception: a complete scan
      without operator decisions whose blockers all come from rules the table does not file. */
  lemma UpgradeContinueIff(table: CategoryTable, fs: seq<Finding>, verdict: Verdict, s: ReadinessSummary)
    requires IsSummary(table, fs, verdict, s)
    ensures (s.upgradeContinue <==>
             verdict != INCOMPLETE && (!exists f :: f in fs && Blocks(f)) && !exists f :: f in fs && NeedsOperator(f))
            <==> !(&& verdict != INCOMPLETE && (!exists f :: f in fs && NeedsOperator(f))
                   && OnlyUnfiledBlockers(table, fs))
    ensures AllMapped(table, fs) ==> !OnlyUnfiledBlockers(table, fs)
  {
    CategoryBlockersVanish(table, fs, s.categories);
  }

  /** The exception exists: one Blocker of an unfiled rule is the whole report, the verdict is BLOCKED,
      and the scorecard says continue. */
  lemma UnfiledBlockerContinues(table: CategoryTable, f: Finding, s: ReadinessSummary)
    requires f.severity == SeverityBlocker && f.upgradeGate == GateUnset && table(f.ruleID).None?
    requires IsSummary(table, [f], BLOCKED, s)
    ensures Blocks(f) && s.upgradeContinue
  {
    assert f in [f];
    UpgradeContinueIff(table, [f], BLOCKED, s);
  }
}
