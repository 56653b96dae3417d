/** The API compatibility summary of a report (internal/findings/report.go): removed and deprecated
    objects, grouped into families of API version and kind. */
module ApiCompatibility {
  import opened Orders
  import opened Text
  import opened Findings
  import opened Reports
  import opened Scorecard

  // ---- families -------------------------------------------------------------------------------

  const API_VERSION_EVIDENCE: string := "apiVersion: "

  /** The API version named by the first line of evidence that names one. */
  function APIVersionIn(evidence: seq<string>): string {
    if evidence == [] then ""
    else if HasPrefix(evidence[0], API_VERSION_EVIDENCE) then TrimSpace(TrimPrefix(evidence[0], API_VERSION_EVIDENCE))
    else APIVersionIn(evidence[1..])
  }

  /** API version and kind. */
  type Family = (string, string)

  function FamilyOf(f: Finding): Family {
    (APIVersionIn(f.evidence), if f.resources == [] then "" else f.resources[0].kind)
  }

  predicate IsAPIFinding(f: Finding) {
    (f.ruleID == "API-001" || f.ruleID == "API-002") && FamilyOf(f) != ("", "")
  }

  predicate IsRemoved(f: Finding) {
    IsAPIFinding(f) && f.ruleID == "API-001" && f.severity == SeverityBlocker
  }

  predicate IsDeprecated(f: Finding) {
    IsAPIFinding(f) && !IsRemoved(f) && (f.ruleID == "API-002" || f.severity == SeverityWarning)
  }

  predicate IsCritical(f: Finding) {
    f.globalBlocker || f.criticalInfra || exists r | r in f.resources :: r.scope == ScopeCluster
  }

  function Label(r: ResourceReference): string {
    if r.namespace != "" then r.kind + "/" + r.namespace + "/" + r.name else r.kind + "/" + r.name
  }

  function InFamily(p: Finding -> bool, family: Family): Finding -> bool {
    (f: Finding) => p(f) && FamilyOf(f) == family
  }

  ghost predicate Labels(fs: seq<Finding>, q: Finding -> bool, tag: string) {
    exists f, r :: f in fs && q(f) && r in f.resources && Label(r) == tag
  }

  /** `item` counts the findings of `fs` that satisfy `q` and lists their resources, each once. */
  ghost predicate Tallies(fs: seq<Finding>, q: Finding -> bool, item: APIItem) {
    && item.count == Count(fs, q) && NoDuplicates(item.resources)
    && forall tag :: tag in item.resources <==> Labels(fs, q, tag)
  }

  ghost predicate IsItem(fs: seq<Finding>, p: Finding -> bool, family: Family, item: APIItem) {
    (item.apiVersion, item.kind) == family && Tallies(fs, InFamily(p, family), item)
  }

  ghost predicate HasFamily(fs: seq<Finding>, p: Finding -> bool, family: Family) {
    exists f :: f in fs && InFamily(p, family)(f)
  }

  type Families = map<Family, APIItem>

  ghost predicate IsFamilyMap(fs: seq<Finding>, p: Finding -> bool, m: Families) {
    && (forall family :: family in m <==> HasFamily(fs, p, family))
    && forall family | family in m :: IsItem(fs, p, family, m[family])
  }

  // ---- filling ----------------------------------------------------------------------------------

  /** `appendUniqueStrings` with the labels of the references. */
  method AppendLabels(resources: seq<string>, refs: seq<ResourceReference>) returns (out: seq<string>)
    requires NoDuplicates(resources)
    ensures NoDuplicates(out)
    ensures forall tag :: tag in out <==> tag in resources || exists r :: r in refs && Label(r) == tag
  {
    out := resources;
    for i := 0 to |refs|
      invariant NoDuplicates(out)
      invariant forall tag :: tag in out <==> tag in resources || exists r :: r in refs[..i] && Label(r) == tag
    {
      assert refs[..i + 1] == refs[..i] + [refs[i]];
      if Label(refs[i]) !in out {
        out := out + [Label(refs[i])];
      }
    }
    assert refs[..|refs|] == refs;
  }

  lemma TallyGrows(fs: seq<Finding>, f: Finding, q: Finding -> bool, item: APIItem, more: APIItem)
    requires Tallies(fs, q, item)
    requires !q(f) ==> more == item
    requires q(f) ==>
               && more.count == item.count + 1 && NoDuplicates(more.resources)
               && forall tag :: tag in more.resources <==>
                    tag in item.resources || exists r :: r in f.resources && Label(r) == tag
    ensures Tallies(fs + [f], q, more)
  {
    assert (fs + [f])[..|fs|] == fs;
    forall tag
      ensures Labels(fs + [f], q, tag) <==>
                Labels(fs, q, tag) || (q(f) && exists r :: r in f.resources && Label(r) == tag)
    {
      if q(f) && exists r :: r in f.resources && Label(r) == tag {
        assert f in fs + [f];
      }
    }
  }

  lemma NothingTallied(fs: seq<Finding>, q: Finding -> bool, item: APIItem)
    requires item.count == 0 && item.resources == [] && !exists f :: f in fs && q(f)
    ensures Tallies(fs, q, item)
  {
    CountPositive(fs, q);
  }

  /** `addAPICompatibilityFamily`, for a finding that belongs in the map. */
  method AddFamily(m: Families, ghost fs: seq<Finding>, ghost p: Finding -> bool, f: Finding) returns (more: Families)
    requires IsFamilyMap(fs, p, m) && p(f)
    ensures IsFamilyMap(fs + [f], p, more)
  {
    var family := FamilyOf(f);
    var item := if family in m then m[family] else APIItem(family.0, family.1, 0, []);
    assert IsItem(fs, p, family, item) by {
      if family !in m {
        assert !HasFamily(fs, p, family);
        NothingTallied(fs, InFamily(p, family), item);
      }
    }
    var resources := AppendLabels(item.resources, f.resources);
    var grown := item.(count := item.count + 1, resources := resources);
    more := m[family := grown];
    forall other
      ensures HasFamily(fs + [f], p, other) <==> HasFamily(fs, p, other) || other == family
    {
      OneMoreFamily(fs, p, f, other);
    }
    forall other | other in more
      ensures IsItem(fs + [f], p, other, more[other])
    {
      TallyGrows(fs, f, InFamily(p, other), if other == family then item else m[other], more[other]);
    }
  }

  lemma OneMoreFamily(fs: seq<Finding>, p: Finding -> bool, f: Finding, other: Family)
    ensures HasFamily(fs + [f], p, other) <==> HasFamily(fs, p, other) || InFamily(p, other)(f)
  {
    assert f in fs + [f];
  }

  /** A finding that does not belong leaves the map as it is. */
  lemma SkippedFinding(fs: seq<Finding>, p: Finding -> bool, m: Families, f: Finding)
    requires IsFamilyMap(fs, p, m) && !p(f)
    ensures IsFamilyMap(fs + [f], p, m)
  {
    forall other
      ensures HasFamily(fs + [f], p, other) <==> HasFamily(fs, p, other)
    {
      OneMoreFamily(fs, p, f, other);
    }
    forall other | other in m
      ensures IsItem(fs + [f], p, other, m[other])
    {
      TallyGrows(fs, f, InFamily(p, other), m[other], m[other]);
    }
  }

  // ---- listing ------------------------------------------------------------------------------------

  predicate ItemLess(a: APIItem, b: APIItem) {
    if a.apiVersion != b.apiVersion then StrLess(a.apiVersion, b.apiVersion) else StrLess(a.kind, b.kind)
  }

  /** The families as the report lists them: sorted, with sorted resources. */
  ghost predicate IsFamilyList(fs: seq<Finding>, p: Finding -> bool, items: seq<APIItem>) {
    && NoDuplicates(items) && Sorted(ItemLess, items)
    && (forall item | item in items ::
          IsItem(fs, p, (item.apiVersion, item.kind), item) && Sorted(StrLess, item.resources)
          && HasFamily(fs, p, (item.apiVersion, item.kind)))
    && forall family | HasFamily(fs, p, family) :: exists item ::
        item in items && (item.apiVersion, item.kind) == family
  }

  ghost predicate DistinctFamilies(items: seq<APIItem>) {
    forall x, y | x in items && y in items && (x.apiVersion, x.kind) == (y.apiVersion, y.kind) :: x == y
  }

  lemma FamiliesAreTotal(items: seq<APIItem>)
    requires DistinctFamilies(items)
    ensures StrictTotalOn(ItemLess, items)
  {
    StrLessLaws();
  }

  method SortResources(item: APIItem) returns (r: APIItem)
    requires NoDuplicates(item.resources)
    ensures r == item.(resources := r.resources) && NoDuplicates(r.resources) && Sorted(StrLess, r.resources)
    ensures forall tag :: tag in r.resources <==> tag in item.resources
  {
    StrLessLaws();
    var sorted := SortSlice(item.resources, StrLess);
    PermutationKeepsNoDuplicates(item.resources, sorted);
    SameMembers(item.resources, sorted);
    NeighboursOrderedIsSorted(StrLess, sorted);
    r := item.(resources := sorted);
  }

  /** The items of the families collected so far. */
  ghost predicate Collects(fs: seq<Finding>, p: Finding -> bool, done: set<Family>, items: seq<APIItem>) {
    && NoDuplicates(items) && DistinctFamilies(items)
    && (forall item | item in items ::
          && (item.apiVersion, item.kind) in done && Sorted(StrLess, item.resources)
          && IsItem(fs, p, (item.apiVersion, item.kind), item))
    && forall family | family in done :: exists item :: item in items && (item.apiVersion, item.kind) == family
  }

  lemma CollectOne(fs: seq<Finding>, p: Finding -> bool, done: set<Family>, items: seq<APIItem>, item: APIItem)
    requires Collects(fs, p, done, items) && (item.apiVersion, item.kind) !in done
    requires Sorted(StrLess, item.resources) && IsItem(fs, p, (item.apiVersion, item.kind), item)
    ensures Collects(fs, p, done + {(item.apiVersion, item.kind)}, items + [item])
  {
    assert item in items + [item];
    forall family | family in done
      ensures exists x :: x in items + [item] && (x.apiVersion, x.kind) == family
    {
      var x :| x in items && (x.apiVersion, x.kind) == family;
      assert x in items + [item];
    }
  }

  /** `sortedAPICompatibilityFamilies`. Go walks the map in any order. */
  method SortedFamilies(m: Families, ghost fs: seq<Finding>, ghost p: Finding -> bool) returns (items: seq<APIItem>)
    requires IsFamilyMap(fs, p, m)
    ensures IsFamilyList(fs, p, items)
  {
    items := [];
    var rest := m.Keys;
    while rest != {}
      invariant rest <= m.Keys && Collects(fs, p, m.Keys - rest, items)
    {
      var family :| family in rest;
      assert IsItem(fs, p, family, m[family]);
      var item := SortResources(m[family]);
      assert IsItem(fs, p, family, item);
      CollectOne(fs, p, m.Keys - rest, items, item);
      assert m.Keys - (rest - {family}) == (m.Keys - rest) + {family};
      items := items + [item];
      rest := rest - {family};
    }
    assert m.Keys - rest == m.Keys;
    items := SortItems(items);
  }

  method SortItems(items: seq<APIItem>) returns (sorted: seq<APIItem>)
    requires NoDuplicates(items) && DistinctFamilies(items)
    ensures NoDuplicates(sorted) && Sorted(ItemLess, sorted) && forall item :: item in sorted <==> item in items
  {
    FamiliesAreTotal(items);
    sorted := SortSlice(items, ItemLess);
    PermutationKeepsNoDuplicates(items, sorted);
    SameMembers(items, sorted);
    NeighboursOrderedIsSorted(ItemLess, sorted);
  }

  // ---- the summary -----------------------------------------------------------------------------------

  /** 25 for the first removed family and 10 for each further one, 15 for critical impact, 5 for each
      deprecated family; at most 60 in all. */
  function ScoreImpact(removed: nat, deprecated: nat, critical: bool): int {
    var impact := (if removed > 0 then -25 - 10 * (removed - 1) else 0) - (if critical then 15 else 0) - 5 * deprecated;
    if impact < -60 then -60 else impact
  }

  /** What the summary says about the findings. */
  ghost predicate IsAPISummary(fs: seq<Finding>, s: APISummary) {
    && s.removedObjects == Count(fs, IsRemoved) && s.deprecatedObjects == Count(fs, IsDeprecated)
    && (s.status == APIFailed <==> s.removedObjects > 0)
    && (s.status == APIWarning <==> s.removedObjects == 0 && s.deprecatedObjects > 0)
    && (s.upgradeContinue <==> s.removedObjects == 0)
    && (s.criticalImpact <==> exists f :: f in fs && IsRemoved(f) && IsCritical(f))
    && IsFamilyList(fs, IsRemoved, s.removedFamilies) && IsFamilyList(fs, IsDeprecated, s.deprecatedFamilies)
    && s.scoreImpact == ScoreImpact(|s.removedFamilies|, |s.deprecatedFamilies|, s.criticalImpact)
  }

  /** The loop's variables after the findings seen so far. */
  ghost predicate Seen(fs: seq<Finding>, s: APISummary, removed: Families, deprecated: Families) {
    && s.removedObjects == Count(fs, IsRemoved) && s.deprecatedObjects == Count(fs, IsDeprecated)
    && (s.status == APIFailed <==> s.removedObjects > 0)
    && (s.status == APIWarning <==> s.removedObjects == 0 && s.deprecatedObjects > 0)
    && (s.upgradeContinue <==> s.removedObjects == 0)
    && (s.criticalImpact <==> exists f :: f in fs && IsRemoved(f) && IsCritical(f))
    && IsFamilyMap(fs, IsRemoved, removed) && IsFamilyMap(fs, IsDeprecated, deprecated)
  }

  method Record(fs: seq<Finding>, f: Finding, s: APISummary, removed: Families, deprecated: Families)
    returns (t: APISummary, moreRemoved: Families, moreDeprecated: Families)
    requires Seen(fs, s, removed, deprecated)
    ensures Seen(fs + [f], t, moreRemoved, moreDeprecated)
  {
    t, moreRemoved, moreDeprecated := s, removed, deprecated;
    assert (fs + [f])[..|fs|] == fs;
    if IsRemoved(f) {
      t := t.(removedObjects := t.removedObjects + 1, upgradeContinue := false, status := APIFailed,
              criticalImpact := t.criticalImpact || IsCritical(f));
      moreRemoved := AddFamily(removed, fs, IsRemoved, f);
      SkippedFinding(fs, IsDeprecated, deprecated, f);
    } else if IsDeprecated(f) {
      t := t.(deprecatedObjects := t.deprecatedObjects + 1,
              status := if t.status == APIPassed then APIWarning else t.status);
      moreDeprecated := AddFamily(deprecated, fs, IsDeprecated, f);
      SkippedFinding(fs, IsRemoved, removed, f);
    } else {
      SkippedFinding(fs, IsRemoved, removed, f);
      SkippedFinding(fs, IsDeprecated, deprecated, f);
    }
    assert f in fs + [f] && forall g | g in fs :: g in fs + [f];
  }

  /** `BuildAPICompatibilitySummary`. */
  method BuildAPISummary(fs: seq<Finding>) returns (s: APISummary)
    ensures IsAPISummary(fs, s)
  {
    s := APISummary(APIPassed, true, 0, 0, [], [], false, 0);
    var removed: Families, deprecated: Families := map[], map[];
    for i := 0 to |fs|
      invariant Seen(fs[..i], s, removed, deprecated)
    {
      assert fs[..i + 1] == fs[..i] + [fs[i]];
      s, removed, deprecated := Record(fs[..i], fs[i], s, removed, deprecated);
    }
    assert fs[..|fs|] == fs;
    var removedFamilies := SortedFamilies(removed, fs, IsRemoved);
    var deprecatedFamilies := SortedFamilies(deprecated, fs, IsDeprecated);
    s := s.(removedFamilies := removedFamilies, deprecatedFamilies := deprecatedFamilies,
            scoreImpact := ScoreImpact(|removedFamilies|, |deprecatedFamilies|, s.criticalImpact));
  }

  // ---- what it means ---------------------------------------------------------------------------------

  lemma ImpactInRange(fs: seq<Finding>, s: APISummary)
    requires IsAPISummary(fs, s)
    ensures -60 <= s.scoreImpact <= 0
    ensures s.scoreImpact == 0 <==> s.status == APIPassed
  {
    FamiliesIff(fs, IsRemoved, s.removedFamilies);
    FamiliesIff(fs, IsDeprecated, s.deprecatedFamilies);
    CountPositive(fs, IsRemoved);
  }

  /** The version `evidence` names: what follows the prefix on the first line that has it. */
  ghost predicate NamesVersionAt(evidence: seq<string>, i: nat, version: string) {
    && i < |evidence|
    && (forall k | 0 <= k < i :: |evidence[k]| < 12 || evidence[k][..12] != "apiVersion: ")
    && exists rest :: evidence[i] == "apiVersion: " + rest && IsTrimOf(version, rest)
  }

  lemma {:induction false} APIVersionMeans(evidence: seq<string>)
    ensures var version := APIVersionIn(evidence);
            || (exists i: nat :: NamesVersionAt(evidence, i, version))
            || (version == "" && forall line | line in evidence :: |line| < 12 || line[..12] != "apiVersion: ")
  {
    if evidence != [] {
      var line := evidence[0];
      if HasPrefix(line, API_VERSION_EVIDENCE) {
        var rest := TrimPrefix(line, API_VERSION_EVIDENCE);
        assert line == "apiVersion: " + rest;
        TrimSpaceMeans(rest);
        assert NamesVersionAt(evidence, 0, APIVersionIn(evidence));
      } else {
        APIVersionMeans(evidence[1..]);
        if i: nat :| NamesVersionAt(evidence[1..], i, APIVersionIn(evidence)) {
          assert evidence[i + 1] == evidence[1..][i];
          assert forall k | 0 < k < i + 1 :: evidence[k] == evidence[1..][k - 1];
          assert NamesVersionAt(evidence, i + 1, APIVersionIn(evidence));
        } else {
          assert evidence == [line] + evidence[1..];
        }
      }
    }
  }

  /** The finding says which API it is about: its evidence names a version, or its first resource a
      kind. */
  ghost predicate NamesAnAPI(f: Finding) {
    || (exists i: nat, version: string :: NamesVersionAt(f.evidence, i, version) && version != "")
    || (f.resources != [] && f.resources[0].kind != "")
  }

  lemma {:induction false} OneVersionIsNamed(evidence: seq<string>, i: nat, version: string)
    requires NamesVersionAt(evidence, i, version) && version != ""
    ensures APIVersionIn(evidence) != ""
  {
    var rest :| evidence[i] == "apiVersion: " + rest && IsTrimOf(version, rest);
    if i == 0 {
      TrimKeepsText(rest, version);
      assert evidence[0][|API_VERSION_EVIDENCE|..] == rest;
    } else {
      var tail := evidence[1..];
      assert forall k | 0 <= k < i :: tail[k] == evidence[k + 1];
      assert NamesVersionAt(tail, i - 1, version);
      OneVersionIsNamed(tail, i - 1, version);
    }
  }

  /** What counts as a removed and as a deprecated object. */
  lemma ObjectMeans(f: Finding)
    ensures IsRemoved(f) <==> f.ruleID == "API-001" && f.severity == SeverityBlocker && NamesAnAPI(f)
    ensures IsDeprecated(f) <==>
              && (f.ruleID == "API-002" || (f.ruleID == "API-001" && f.severity == SeverityWarning))
              && NamesAnAPI(f)
  {
    assert NamesAnAPI(f) <==> FamilyOf(f) != ("", "") by {
      APIVersionMeans(f.evidence);
      if i: nat, version: string :| NamesVersionAt(f.evidence, i, version) && version != "" {
        OneVersionIsNamed(f.evidence, i, version);
      }
    }
  }

  /** The counts of a summary over the fields of the findings; critical impact comes from a removed
      object that blocks globally, belongs to critical infrastructure or is scoped to the cluster. */
  lemma SummaryCounts(fs: seq<Finding>, s: APISummary)
    requires IsAPISummary(fs, s)
    requires forall f | f in fs && f.ruleID in {"API-001", "API-002"} :: NamesAnAPI(f)
    ensures s.removedObjects == Count(fs, (f: Finding) => f.ruleID == "API-001" && f.severity == SeverityBlocker)
    ensures s.deprecatedObjects ==
            Count(fs, (f: Finding) => f.ruleID == "API-002" || (f.ruleID == "API-001" && f.severity == SeverityWarning))
    ensures s.criticalImpact <==> exists f ::
              && f in fs && f.ruleID == "API-001" && f.severity == SeverityBlocker
              && (f.globalBlocker || f.criticalInfra || exists r :: r in f.resources && r.scope == ScopeCluster)
  {
    forall f | f in fs {
      ObjectMeans(f);
    }
    SameCount(fs, IsRemoved, (f: Finding) => f.ruleID == "API-001" && f.severity == SeverityBlocker);
    SameCount(fs, IsDeprecated,
              (f: Finding) => f.ruleID == "API-002" || (f.ruleID == "API-001" && f.severity == SeverityWarning));
  }

  /** What each family costs: nothing without families, 25 for the first removed one, 10 for each
      further one, 5 for a deprecated one, 15 for critical impact, and never more than 60. */
  lemma ImpactSteps(removed: nat, deprecated: nat, critical: bool)
    ensures ScoreImpact(0, 0, false) == 0 && ScoreImpact(1, 0, false) == -25
    ensures var cost := ScoreImpact(removed, deprecated, critical);
            && (removed > 0 ==> ScoreImpact(removed + 1, deprecated, critical) == if cost < -50 then -60 else cost - 10)
            && ScoreImpact(removed, deprecated + 1, critical) == (if cost < -55 then -60 else cost - 5)
            && (!critical ==> ScoreImpact(removed, deprecated, true) == if cost < -45 then -60 else cost - 15)
  {
  }

  /** A label reads back as kind, namespace and name, the namespace left out when there is none. */
  lemma LabelReadsBack(r: ResourceReference)
    requires '/' !in r.kind && '/' !in r.namespace && '/' !in r.name
    ensures Split(Label(r), '/') == if r.namespace == "" then [r.kind, r.name] else [r.kind, r.namespace, r.name]
  {
    LabelsOfParts(r.kind, r.namespace, r.name);
  }

  lemma LabelsOfParts(kind: string, namespace: string, name: string)
    requires '/' !in kind && '/' !in namespace && '/' !in name
    ensures Split(kind + "/" + name, '/') == [kind, name]
    ensures Split(kind + "/" + namespace + "/" + name, '/') == [kind, namespace, name]
  {
    SplitWithout(name, '/');
    SplitFirst(kind, '/', name);
    var rest := namespace + "/" + name;
    SplitFirst(namespace, '/', name);
    assert kind + "/" + namespace + "/" + name == kind + "/" + rest;
    SplitFirst(kind, '/', rest);
  }

  /** There are families exactly when there are findings of the kind. */
  lemma FamiliesIff(fs: seq<Finding>, p: Finding -> bool, items: seq<APIItem>)
    requires IsFamilyList(fs, p, items)
    ensures items != [] <==> Count(fs, p) > 0
  {
    CountPositive(fs, p);
    if items != [] {
      assert items[0] in items;
    }
    if f :| f in fs && p(f) {
      assert InFamily(p, FamilyOf(f))(f);
      assert HasFamily(fs, p, FamilyOf(f));
    }
  }

  lemma ItemIgnoresOrder(fs: seq<Finding>, gs: seq<Finding>, p: Finding -> bool, family: Family, x: APIItem, y: APIItem)
    requires multiset(fs) == multiset(gs)
    requires IsItem(fs, p, family, x) && IsItem(gs, p, family, y)
    requires Sorted(StrLess, x.resources) && Sorted(StrLess, y.resources)
    ensures x == y
  {
    SameMembers(fs, gs);
    CountIgnoresOrder(fs, gs, InFamily(p, family));
    StrLessLaws();
    SortedListsAgree(StrLess, x.resources, y.resources);
  }

  lemma FamilyMembersAgree(fs: seq<Finding>, gs: seq<Finding>, p: Finding -> bool, xs: seq<APIItem>, ys: seq<APIItem>)
    requires multiset(fs) == multiset(gs) && IsFamilyList(fs, p, xs) && IsFamilyList(gs, p, ys)
    ensures forall x | x in xs :: x in ys
  {
    SameMembers(fs, gs);
    forall x | x in xs
      ensures x in ys
    {
      var family := (x.apiVersion, x.kind);
      assert HasFamily(gs, p, family);
      var y :| y in ys && (y.apiVersion, y.kind) == family;
      ItemIgnoresOrder(fs, gs, p, family, x, y);
    }
  }

  lemma FamilyListIsUnique(fs: seq<Finding>, gs: seq<Finding>, p: Finding -> bool, xs: seq<APIItem>, ys: seq<APIItem>)
    requires multiset(fs) == multiset(gs) && IsFamilyList(fs, p, xs) && IsFamilyList(gs, p, ys)
    ensures xs == ys
  {
    FamilyMembersAgree(fs, gs, p, xs, ys);
    FamilyMembersAgree(gs, fs, p, ys, xs);
    forall x, y | x in xs && y in xs && (x.apiVersion, x.kind) == (y.apiVersion, y.kind)
      ensures x == y
    {
      ItemIgnoresOrder(fs, fs, p, (x.apiVersion, x.kind), x, y);
    }
    FamiliesAreTotal(xs);
    SortedListsAgree(ItemLess, xs, ys);
  }

  /** The whole summary is a function of the findings as a bag, whatever order the families were
      walked in. */
  lemma APISummaryIgnoresOrder(fs: seq<Finding>, gs: seq<Finding>, s: APISummary, t: APISummary)
    requires multiset(fs) == multiset(gs) && IsAPISummary(fs, s) && IsAPISummary(gs, t)
    ensures s == t
  {
    SameMembers(fs, gs);
    CountIgnoresOrder(fs, gs, IsRemoved);
    CountIgnoresOrder(fs, gs, IsDeprecated);
    FamilyListIsUnique(fs, gs, IsRemoved, s.removedFamilies, t.removedFamilies);
    FamilyListIsUnique(fs, gs, IsDeprecated, s.deprecatedFamilies, t.deprecatedFamilies);
  }

  ghost function SumCounts(items: seq<APIItem>): nat {
    if items == [] then 0 else SumCounts(items[..|items| - 1]) + items[|items| - 1].count
  }

  /** The findings that satisfy `p` and belong to one of the listed families. */
  function Listed(p: Finding -> bool, families: set<Family>): Finding -> bool {
    (f: Finding) => p(f) && FamilyOf(f) in families
  }

  ghost function FamilySet(items: seq<APIItem>): set<Family> {
    set item | item in items :: (item.apiVersion, item.kind)
  }

  lemma {:induction false} CountsCoverListed(fs: seq<Finding>, p: Finding -> bool, items: seq<APIItem>)
    requires NoDuplicates(items) && DistinctFamilies(items)
    requires forall item | item in items :: item.count == Count(fs, InFamily(p, (item.apiVersion, item.kind)))
    ensures SumCounts(items) == Count(fs, Listed(p, FamilySet(items)))
  {
    if items == [] {
      CountPositive(fs, Listed(p, {}));
      assert FamilySet(items) == {};
    } else {
      var front, last := items[..|items| - 1], items[|items| - 1];
      assert items == front + [last] && last !in front;
      CountsCoverListed(fs, p, front);
      assert FamilySet(items) == FamilySet(front) + {(last.apiVersion, last.kind)};
      CountsAddUp(fs, Listed(p, FamilySet(front)), InFamily(p, (last.apiVersion, last.kind)),
                  Listed(p, FamilySet(items)));
    }
  }

  /** The families account for every object once. */
  lemma FamiliesConserveObjects(fs: seq<Finding>, p: Finding -> bool, items: seq<APIItem>)
    requires IsFamilyList(fs, p, items)
    ensures SumCounts(items) == Count(fs, p)
  {
    forall x, y | x in items && y in items && (x.apiVersion, x.kind) == (y.apiVersion, y.kind)
      ensures x == y
    {
      ItemIgnoresOrder(fs, fs, p, (x.apiVersion, x.kind), x, y);
    }
    CountsCoverListed(fs, p, items);
    forall f | f in fs
      ensures p(f) == Listed(p, FamilySet(items))(f)
    {
      if p(f) {
        assert InFamily(p, FamilyOf(f))(f);
        assert HasFamily(fs, p, FamilyOf(f));
      }
    }
    SameCount(fs, p, Listed(p, FamilySet(items)));
  }

  // ---- the assumption about planes ------------------------------------------------------------------

  /** A live object and a manifest among the references are about one concept. */
  ghost predicate CrossesPlanes(refs: seq<ResourceReference>) {
    exists a, b :: a in refs && b in refs && a.plane == PlaneLive && b.plane == PlaneManifest
                   && ConceptParts(a).Some? && ConceptParts(a) == ConceptParts(b)
  }

  /** `hasCrossPlaneMatch`. */
  method HasCrossPlaneMatch(refs: seq<ResourceReference>) returns (found: bool)
    ensures found <==> CrossesPlanes(refs)
  {
    var live: set<seq<string>> := {};
    for i := 0 to |refs|
      invariant forall parts :: parts in live <==>
                  exists a :: a in refs[..i] && a.plane == PlaneLive && ConceptParts(a) == Some(parts)
    {
      assert refs[..i + 1] == refs[..i] + [refs[i]];
      if refs[i].plane == PlaneLive && ConceptParts(refs[i]).Some? {
        live := live + {ConceptParts(refs[i]).value};
      }
    }
    assert refs[..|refs|] == refs;
    for i := 0 to |refs|
      invariant forall b | b in refs[..i] && b.plane == PlaneManifest && ConceptParts(b).Some? ::
                  ConceptParts(b).value !in live
    {
      assert refs[..i + 1] == refs[..i] + [refs[i]];
      if refs[i].plane == PlaneManifest && ConceptParts(refs[i]).Some? && ConceptParts(refs[i]).value in live {
        assert refs[i] in refs;
        return true;
      }
    }
    found := false;
  }
}
