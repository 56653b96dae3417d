/** Building the list of Next Actions (internal/report/view.go): the code, proved against the
    partition of `Grouping` and the order of `GroupOrder`. */
module NextActions {
  import opened Orders
  import opened Text
  import opened Findings
  import opened UnionFind
  import opened Grouping
  import opened GroupOrder

  // ---- the finding index ---------------------------------------------------------------------

  /** The texts that settle what the ranks leave open. */
  predicate MetaTextLess(a: FindingMeta, b: FindingMeta) {
    if a.finding.ruleID != b.finding.ruleID then StrLess(a.finding.ruleID, b.finding.ruleID)
    else StrLess(a.resourceLabel, b.resourceLabel)
  }

  /** The one order every renderer lists findings in. */
  predicate FindingMetaLess(a: FindingMeta, b: FindingMeta) {
    var pa, pb := PriorityRank(a.finding.priority), PriorityRank(b.finding.priority);
    var sa, sb := SeverityRank(a.finding.severity), SeverityRank(b.finding.severity);
    var ca, cb := ConfidenceRank(a.finding.confidence), ConfidenceRank(b.finding.confidence);
    if pa != pb then pa < pb
    else if sa != sb then sa < sb
    else if ca != cb then ca < cb
    else MetaTextLess(a, b)
  }

  /** `FindingMetaLess` on positions of `metas`. */
  function PositionLess(metas: seq<FindingMeta>): (int, int) -> bool {
    (i: int, j: int) => 0 <= i < |metas| && 0 <= j < |metas| && FindingMetaLess(metas[i], metas[j])
  }

  predicate IsWarning(f: Finding) {
    !Blocks(f) && (NeedsOperator(f) || f.severity == SeverityWarning)
  }

  lemma MetaTextLessLaws(a: FindingMeta, b: FindingMeta, c: FindingMeta)
    ensures MetaTextLess(a, b) ==> !MetaTextLess(b, a)
    ensures !MetaTextLess(b, a) && !MetaTextLess(c, b) ==> !MetaTextLess(c, a)
  {
    StrLessLaws();
  }

  /** The display order is a weak order: findings in order stay in order across a third. */
  lemma DisplayOrderIsWeak(a: FindingMeta, b: FindingMeta, c: FindingMeta)
    ensures FindingMetaLess(a, b) ==> !FindingMetaLess(b, a)
    ensures !FindingMetaLess(b, a) && !FindingMetaLess(c, b) ==> !FindingMetaLess(c, a)
  {
    MetaTextLessLaws(a, b, c);
  }

  lemma PositionsAreWeak(metas: seq<FindingMeta>, all: seq<int>)
    requires forall i | i in all :: 0 <= i < |metas|
    ensures WeakOn(PositionLess(metas), all)
  {
    var less := PositionLess(metas);
    forall i, j, k | i in all && j in all && k in all && !less(j, i) && !less(k, j)
      ensures !less(k, i)
    {
      DisplayOrderIsWeak(metas[i], metas[j], metas[k]);
    }
  }

  /** The positions of all findings, in the order of `FindingMetaLess`. */
  method SortedPositions(metas: seq<FindingMeta>) returns (all: seq<int>)
    ensures multiset(all) == multiset(seq(|metas|, i => i))
    ensures Sorted(PositionLess(metas), all)
    ensures NoDuplicates(all) && forall i :: i in all <==> 0 <= i < |metas|
  {
    var positions := seq(|metas|, i => i);
    StrLessLaws();
    all := SortSlice(positions, PositionLess(metas));
    PermutationKeepsNoDuplicates(positions, all);
    SameMembers(positions, all);
    forall i
      ensures i in all <==> 0 <= i < |metas|
    {
      assert i in positions <==> 0 <= i < |metas| by {
        if 0 <= i < |metas| { assert positions[i] == i; }
      }
    }
    PositionsAreWeak(metas, all);
    WeakNeighboursOrderedIsSorted(PositionLess(metas), all);
  }

  /** `bucket` holds the positions of `seen` that satisfy `p`, each once and in order. */
  ghost predicate IsBucket(metas: seq<FindingMeta>, seen: seq<int>, p: Finding -> bool, bucket: seq<int>) {
    && NoDuplicates(bucket) && Sorted(PositionLess(metas), bucket)
    && forall i :: i in bucket <==> i in seen && 0 <= i < |metas| && p(metas[i].finding)
  }

  lemma BucketGrows(metas: seq<FindingMeta>, all: seq<int>, n: nat, p: Finding -> bool, bucket: seq<int>)
    requires n < |all| && NoDuplicates(all) && Sorted(PositionLess(metas), all) && 0 <= all[n] < |metas|
    requires IsBucket(metas, all[..n], p, bucket)
    ensures IsBucket(metas, all[..n + 1], p, if p(metas[all[n]].finding) then bucket + [all[n]] else bucket)
  {
    var seen, pos, less := all[..n], all[n], PositionLess(metas);
    assert all[..n + 1] == seen + [pos];
    forall i | i in seen
      ensures i != pos && !less(pos, i)
    {
      var k :| 0 <= k < n && all[k] == i;
      assert !less(all[n], all[k]);
    }
  }

  predicate IsPlainInfo(f: Finding) {
    f.severity == SeverityInfo && !Blocks(f) && !IsWarning(f)
  }

  /** Splits the sorted positions into blockers, warnings and infos. A Blocker whose
      gate lets it through lands in none of the three. */
  method FindingIndex(metas: seq<FindingMeta>)
    returns (all: seq<int>, blockers: seq<int>, warnings: seq<int>, infos: seq<int>)
    ensures multiset(all) == multiset(seq(|metas|, i => i)) && Sorted(PositionLess(metas), all)
    ensures IsBucket(metas, all, Blocks, blockers)
    ensures IsBucket(metas, all, IsWarning, warnings)
    ensures IsBucket(metas, all, IsPlainInfo, infos)
  {
    all := SortedPositions(metas);
    blockers, warnings, infos := [], [], [];
    for n := 0 to |all|
      invariant IsBucket(metas, all[..n], Blocks, blockers)
      invariant IsBucket(metas, all[..n], IsWarning, warnings)
      invariant IsBucket(metas, all[..n], IsPlainInfo, infos)
    {
      var pos := all[n];
      assert pos in all;
      BucketGrows(metas, all, n, Blocks, blockers);
      BucketGrows(metas, all, n, IsWarning, warnings);
      BucketGrows(metas, all, n, IsPlainInfo, infos);
      var f := metas[pos].finding;
      if f.EffectiveUpgradeGate() == GateBlock {
        blockers := blockers + [pos];
      } else if f.EffectiveUpgradeGate() == GateOperatorDecision || f.severity == SeverityWarning {
        warnings := warnings + [pos];
      } else if f.severity == SeverityInfo {
        infos := infos + [pos];
      }
    }
    assert all[..|all|] == all;
  }

  // ---- the two union passes --------------------------------------------------------------------

  function RootIn(roots: map<string, string>, k: string): string {
    if k in roots then roots[k] else k
  }

  /** The same classes, possibly with more keys that stand alone. */
  ghost predicate SameRoots(a: map<string, string>, b: map<string, string>) {
    forall k :: RootIn(a, k) == RootIn(b, k)
  }

  /** All keys of each finding have one root. */
  ghost predicate KeysTogether(roots: map<string, string>, metas: seq<FindingMeta>) {
    forall m, k | m in metas && k in m.keys :: RootIn(roots, m.keys[0]) == RootIn(roots, k)
  }

  lemma RootsConnect(f: Forest, edges: set<Edge>, a: string, b: string)
    requires Records(f, edges)
    ensures RootIn(f.Roots(), a) == RootIn(f.Roots(), b) <==> Connected(edges, a, b)
  {
    if a in f.parent && b in f.parent {
      SameRootIffConnected(f, edges, a, b);
    } else if a == b {
      ConnectedRefl(edges, a);
    } else {
      if a !in f.parent { StrangerStandsAlone(f, edges, a, b); }
      if b !in f.parent {
        StrangerStandsAlone(f, edges, b, a);
        if Connected(edges, a, b) { ConnectedSym(edges, a, b); }
      }
    }
  }

  lemma StrangerStandsAlone(f: Forest, edges: set<Edge>, a: string, b: string)
    requires Records(f, edges) && a !in f.parent && a != b
    ensures !Connected(edges, a, b)
    ensures RootIn(f.Roots(), a) != RootIn(f.Roots(), b)
  {
    if Connected(edges, a, b) {
      var p :| IsPath(edges, p) && p[0] == a && p[|p| - 1] == b;
      assert Adjacent(edges, p[0], p[1]);
      EdgeStaysInside(f, edges, if (a, p[1]) in edges then (a, p[1]) else (p[1], a));
    }
  }

  lemma EdgeStaysInside(f: Forest, edges: set<Edge>, e: Edge)
    requires Records(f, edges) && e in edges
    ensures e.0 in f.parent && e.1 in f.parent
  {
    assert Merged(f, e);
  }

  /** First pass: each finding's own keys are merged. */
  method UnionKeys(uf: ResourceUnionFind, metas: seq<FindingMeta>)
    requires uf.Valid() && uf.edges == {} && DigestKeys(metas)
    modifies uf
    ensures uf.Valid() && uf.edges == AllEdges(metas)
    ensures KeysTogether(uf.Roots(), metas)
    ensures forall m | m in metas && m.keys != [] :: IsDigest(RootIn(uf.Roots(), m.keys[0]))
    ensures forall a, b | a in metas && b in metas && a.keys != [] && b.keys != [] ::
              RootIn(uf.Roots(), a.keys[0]) == RootIn(uf.Roots(), b.keys[0]) <==> Linked(metas, a, b)
  {
    for i := 0 to |metas|
      invariant uf.Valid() && uf.edges == AllEdges(metas[..i])
    {
      uf.UnionAll(metas[i].keys);
      assert metas[..i + 1][..i] == metas[..i];
    }
    assert metas[..|metas|] == metas;
    forall m, k | m in metas && k in m.keys
      ensures RootIn(uf.Roots(), m.keys[0]) == RootIn(uf.Roots(), k)
    {
      OwnKeysConnected(metas, m, k);
      RootsConnect(uf.Shape(), uf.edges, m.keys[0], k);
    }
    forall m | m in metas && m.keys != []
      ensures IsDigest(RootIn(uf.Roots(), m.keys[0]))
    {
      RootOfDigest(metas, uf.Shape(), m.keys[0]);
    }
    forall a, b | a in metas && b in metas && a.keys != [] && b.keys != []
      ensures RootIn(uf.Roots(), a.keys[0]) == RootIn(uf.Roots(), b.keys[0]) <==> Linked(metas, a, b)
    {
      LinkedIffKeysConnected(metas, a, b);
      RootsConnect(uf.Shape(), uf.edges, a.keys[0], b.keys[0]);
    }
  }

  lemma RootOfDigest(metas: seq<FindingMeta>, f: Forest, k: string)
    requires DigestKeys(metas) && Records(f, AllEdges(metas)) && IsDigest(k)
    ensures IsDigest(RootIn(f.Roots(), k))
  {
    if k in f.parent {
      var edges, r := AllEdges(metas), f.Root(k);
      assert ReachesRoot(f, edges, k);
      var p :| IsPath(edges, p) && p[0] == k && p[|p| - 1] == r;
      if |p| > 1 {
        assert Adjacent(edges, p[|p| - 2], p[|p| - 1]);
        var m := MetaOfEdge(metas, if (p[|p| - 2], r) in edges then (p[|p| - 2], r) else (r, p[|p| - 2]));
      }
    }
  }

  /** Second pass: a key seen before is merged with the first key of its first carrier. It changes
      nothing: such keys already have one root. */
  method UnionCarriers(uf: ResourceUnionFind, metas: seq<FindingMeta>)
    requires uf.Valid() && KeysTogether(uf.Roots(), metas)
    modifies uf
    ensures uf.Valid() && SameRoots(uf.Roots(), old(uf.Roots()))
  {
    ghost var roots := uf.Roots();
    var firstCarrier: map<string, string> := map[];
    for i := 0 to |metas|
      invariant uf.Valid() && SameRoots(uf.Roots(), roots)
      invariant forall k | k in firstCarrier :: RootIn(roots, k) == RootIn(roots, firstCarrier[k])
    {
      var keys := metas[i].keys;
      for j := 0 to |keys|
        invariant uf.Valid() && SameRoots(uf.Roots(), roots)
        invariant forall k | k in firstCarrier :: RootIn(roots, k) == RootIn(roots, firstCarrier[k])
      {
        var k := keys[j];
        if k in firstCarrier {
          RedundantMerge(uf.Roots(), k, firstCarrier[k]);
          uf.Union(k, firstCarrier[k]);
        } else {
          assert metas[i] in metas && k in metas[i].keys;
          firstCarrier := firstCarrier[k := keys[0]];
        }
      }
    }
  }

  lemma RedundantMerge(roots: map<string, string>, a: string, b: string)
    requires RootIn(roots, a) == RootIn(roots, b)
    ensures SameRoots(Merge(Seen(Seen(roots, a), b), a, b), roots)
  {
  }

  // ---- collecting the groups ---------------------------------------------------------------------

  /** The group a finding is filed under. */
  function GroupID(roots: map<string, string>, m: FindingMeta): string {
    if m.keys == [] then "solo:" + m.finding.fingerprint else RootIn(roots, m.keys[0])
  }

  /** The findings filed under `id`, in input order. */
  ghost function Filed(roots: map<string, string>, s: seq<FindingMeta>, id: string): seq<FindingMeta> {
    if s == [] then []
    else
      var front := Filed(roots, s[..|s| - 1], id);
      if GroupID(roots, s[|s| - 1]) == id then front + [s[|s| - 1]] else front
  }

  ghost predicate GroupedByID(roots: map<string, string>, s: seq<FindingMeta>, groups: map<string, seq<FindingMeta>>) {
    && (forall m | m in s :: GroupID(roots, m) in groups)
    && (forall id | id in groups :: groups[id] == Filed(roots, s, id) && groups[id] != [])
  }

  method FindGroup(uf: ResourceUnionFind, meta: FindingMeta, ghost roots: map<string, string>) returns (root: string)
    requires uf.Valid() && SameRoots(uf.Roots(), roots)
    modifies uf
    ensures uf.Valid() && SameRoots(uf.Roots(), roots)
    ensures root == GroupID(roots, meta)
  {
    root := "solo:" + meta.finding.fingerprint;
    if |meta.keys| > 0 {
      ghost var before := uf.Roots();
      root := uf.Find(meta.keys[0]);
      assert root == RootIn(before, meta.keys[0]);
    }
  }

  method CollectGroups(uf: ResourceUnionFind, metas: seq<FindingMeta>)
    returns (groups: map<string, seq<FindingMeta>>, order: seq<string>)
    requires uf.Valid()
    modifies uf
    ensures GroupedByID(old(uf.Roots()), metas, groups)
    ensures NoDuplicates(order) && forall id :: id in order <==> id in groups
  {
    ghost var roots := uf.Roots();
    groups, order := map[], [];
    for i := 0 to |metas|
      invariant uf.Valid() && SameRoots(uf.Roots(), roots)
      invariant GroupedByID(roots, metas[..i], groups)
      invariant NoDuplicates(order) && forall id :: id in order <==> id in groups
    {
      var meta := metas[i];
      var root := FindGroup(uf, meta, roots);
      if root !in groups {
        order := order + [root];
      }
      FileOne(roots, metas, i, groups);
      groups := groups[root := (if root in groups then groups[root] else []) + [meta]];
    }
    assert metas[..|metas|] == metas;
  }

  lemma FileOne(roots: map<string, string>, metas: seq<FindingMeta>, i: nat, groups: map<string, seq<FindingMeta>>)
    requires i < |metas| && GroupedByID(roots, metas[..i], groups)
    ensures var id := GroupID(roots, metas[i]);
            var front := if id in groups then groups[id] else [];
            GroupedByID(roots, metas[..i + 1], groups[id := front + [metas[i]]])
  {
    var id := GroupID(roots, metas[i]);
    assert metas[..i + 1][..i] == metas[..i];
    if id !in groups {
      NothingFiled(roots, metas[..i], id);
    }
  }

  lemma {:induction false} NothingFiled(roots: map<string, string>, s: seq<FindingMeta>, id: string)
    requires forall m | m in s :: GroupID(roots, m) != id
    ensures Filed(roots, s, id) == []
  {
    if s != [] {
      NothingFiled(roots, s[..|s| - 1], id);
    }
  }

  /** The IDs separate exactly the classes of the partition. */
  ghost predicate IDsSeparateClasses(roots: map<string, string>, metas: seq<FindingMeta>) {
    forall a, b | a in metas && b in metas :: GroupID(roots, a) == GroupID(roots, b) <==> SameGroup(metas, a, b)
  }

  lemma GroupIDsSeparateClasses(roots: map<string, string>, metas: seq<FindingMeta>)
    requires forall m | m in metas && m.keys != [] :: IsDigest(RootIn(roots, m.keys[0]))
    requires forall a, b | a in metas && b in metas && a.keys != [] && b.keys != [] ::
               RootIn(roots, a.keys[0]) == RootIn(roots, b.keys[0]) <==> Linked(metas, a, b)
    ensures IDsSeparateClasses(roots, metas)
  {
    forall a, b | a in metas && b in metas
      ensures GroupID(roots, a) == GroupID(roots, b) <==> SameGroup(metas, a, b)
    {
      assert a.keys == [] ==> GroupID(roots, a)[0] == 's';
      assert b.keys == [] ==> GroupID(roots, b)[0] == 's';
      assert a.keys == [] ==> GroupID(roots, a)[5..] == a.finding.fingerprint;
      assert b.keys == [] ==> GroupID(roots, b)[5..] == b.finding.fingerprint;
    }
  }

  lemma {:induction false} FiledIsMembers(roots: map<string, string>, metas: seq<FindingMeta>, s: seq<FindingMeta>,
                                          rep: FindingMeta)
    requires IDsSeparateClasses(roots, metas) && rep in metas && forall m | m in s :: m in metas
    ensures Filed(roots, s, GroupID(roots, rep)) == Members(metas, s, rep)
  {
    if s != [] {
      FiledIsMembers(roots, metas, s[..|s| - 1], rep);
    }
  }

  lemma {:induction false} FiledUnder(roots: map<string, string>, s: seq<FindingMeta>, id: string, m: FindingMeta)
    ensures m in Filed(roots, s, id) <==> m in s && GroupID(roots, m) == id
  {
    if s != [] {
      FiledUnder(roots, s[..|s| - 1], id, m);
      assert s == s[..|s| - 1] + [s[|s| - 1]];
    }
  }

  /** The groups filed under the IDs of `order`, in that order. */
  function InOrder(groups: map<string, seq<FindingMeta>>, order: seq<string>): seq<seq<FindingMeta>>
    requires forall id | id in order :: id in groups
  {
    seq(|order|, k requires 0 <= k < |order| => groups[order[k]])
  }

  lemma FiledGroupsAreClasses(roots: map<string, string>, metas: seq<FindingMeta>,
                              groups: map<string, seq<FindingMeta>>, order: seq<string>)
    requires IDsSeparateClasses(roots, metas) && GroupedByID(roots, metas, groups)
    requires NoDuplicates(order) && forall id :: id in order <==> id in groups
    ensures IsGrouping(metas, InOrder(groups, order))
  {
    var list := InOrder(groups, order);
    forall k | 0 <= k < |list|
      ensures WholeClass(metas, list[k]) && GroupID(roots, list[k][0]) == order[k]
    {
      assert order[k] in groups;
      FiledUnder(roots, metas, order[k], list[k][0]);
      FiledIsMembers(roots, metas, metas, list[k][0]);
    }
    forall m | m in metas
      ensures Grouped(list, m)
    {
      var id := GroupID(roots, m);
      assert id in order;
      var k :| 0 <= k < |order| && order[k] == id;
      FiledUnder(roots, metas, id, m);
      assert m in list[k];
    }
    forall i, j | 0 <= i < j < |list|
      ensures Apart(metas, list[i], list[j])
    {
      assert WholeClass(metas, list[i]) && WholeClass(metas, list[j]);
      assert GroupID(roots, list[i][0]) == order[i] != order[j] == GroupID(roots, list[j][0]);
    }
  }

  // ---- order keys ------------------------------------------------------------------------------

  /** `groupMetaPriorityRank`, `groupMetaSeverityRank` and `groupMetaConfidenceRank`: the least rank
      in the group, starting from the rank of the mildest level. */
  method LeastRank(group: seq<FindingMeta>, rankOf: FindingMeta -> nat, cap: nat) returns (rank: nat)
    ensures IsCappedMin(group, rankOf, cap, rank)
  {
    rank := cap;
    for i := 0 to |group|
      invariant rank <= cap && forall m | m in group[..i] :: rank <= rankOf(m)
      invariant rank == cap || exists m :: m in group && rankOf(m) == rank
    {
      assert group[..i + 1] == group[..i] + [group[i]];
      if rankOf(group[i]) < rank {
        rank := rankOf(group[i]);
      }
    }
    assert group[..|group|] == group;
  }

  /** `groupMetaSortKey`: the sorted union of the group's resource keys, joined. */
  method SortText(group: seq<FindingMeta>) returns (text: string)
    ensures IsSortText(group, text)
  {
    var keys: seq<string> := [];
    for i := 0 to |group|
      invariant NoDuplicates(keys)
      invariant forall k :: k in keys <==> exists m :: m in group[..i] && k in m.keys
    {
      assert group[..i + 1] == group[..i] + [group[i]];
      var own := group[i].keys;
      for j := 0 to |own|
        invariant NoDuplicates(keys)
        invariant forall k :: k in keys <==> k in own[..j] || exists m :: m in group[..i] && k in m.keys
      {
        assert own[..j + 1] == own[..j] + [own[j]];
        if own[j] !in keys {
          keys := keys + [own[j]];
        }
      }
      assert own[..|own|] == own;
    }
    assert group[..|group|] == group;
    StrLessLaws();
    var sorted := SortSlice(keys, StrLess);
    PermutationKeepsNoDuplicates(keys, sorted);
    SameMembers(keys, sorted);
    NeighboursOrderedIsSorted(StrLess, sorted);
    text := Join(sorted, ":");
  }

  method GroupOrderKey(group: seq<FindingMeta>) returns (key: OrderKey)
    ensures IsOrderKey(group, key)
  {
    var priority := LeastRank(group, PriorityOf, 3);
    var severity := LeastRank(group, SeverityOf, 2);
    var confidence := LeastRank(group, ConfidenceOf, 3);
    var text := SortText(group);
    key := OrderKey(priority, severity, confidence, text);
  }

  lemma OrderedWhenEmpty()
    ensures GroupsOrdered([])
  {
    assert AreOrderKeys([], []) && NeighboursOrdered(OrderKeyLess, []);
  }

  /** Sorts the group IDs by the order keys of their groups (the comparator computes the keys anew at
      every call; here they are computed once). */
  method SortGroups(groups: map<string, seq<FindingMeta>>, order: seq<string>) returns (sorted: seq<string>)
    requires forall id | id in order :: id in groups
    ensures multiset(sorted) == multiset(order)
    ensures forall id | id in sorted :: id in groups
    ensures GroupsOrdered(InOrder(groups, sorted))
  {
    var keys: map<string, OrderKey> := map[];
    for k := 0 to |order|
      invariant forall id | id in order[..k] :: id in keys && IsOrderKey(groups[id], keys[id])
    {
      assert order[..k + 1] == order[..k] + [order[k]];
      var key := GroupOrderKey(groups[order[k]]);
      keys := keys[order[k] := key];
    }
    assert order[..|order|] == order;
    var less := (a: string, b: string) => a in keys && b in keys && OrderKeyLess(keys[a], keys[b]);
    StrLessLaws();
    sorted := SortSlice(order, less);
    SameMembers(order, sorted);
    assert forall k | 0 <= k < |sorted| :: sorted[k] in order;
    ghost var sortedKeys := seq(|sorted|, k requires 0 <= k < |sorted| => keys[sorted[k]]);
    assert AreOrderKeys(InOrder(groups, sorted), sortedKeys);
    assert NeighboursOrdered(OrderKeyLess, sortedKeys) by {
      assert forall i | 0 < i < |sorted| :: !less(sorted[i], sorted[i - 1]);
    }
  }

  // ---- actions ---------------------------------------------------------------------------------

  method PrimaryPosition(group: seq<FindingMeta>) returns (best: nat)
    requires group != []
    ensures IsPrimary(group, best)
  {
    best := 0;
    for i := 1 to |group|
      invariant best < i && IsPrimary(group[..i], best)
    {
      if Outranks(group[i], group[best]) {
        forall q | 0 <= q < i
          ensures Outranks(group[i], group[q])
        {
          OutranksLaws(group[i], group[best], group[q]);
        }
        best := i;
      }
    }
    assert group[..|group|] == group;
  }

  method BuildAction(group: seq<FindingMeta>) returns (action: NextAction)
    requires group != []
    ensures IsActionFor(group, action)
  {
    var best := PrimaryPosition(group);
    var primary := group[best].finding;
    var ruleIDs: seq<string> := [];
    var related: seq<Finding> := [];
    for i := 0 to |group|
      invariant multiset(ruleIDs) == RuleBag(group[..i])
      invariant related == RelatedTo(group[..i], primary)
    {
      assert group[..i + 1][..i] == group[..i];
      var f := group[i].finding;
      ruleIDs := ruleIDs + [f.ruleID];
      if f.ruleID != primary.ruleID && f.remediation != primary.remediation {
        related := related + [f];
      }
    }
    assert group[..|group|] == group;
    StrLessLaws();
    ruleIDs := SortSlice(ruleIDs, StrLess);
    NeighboursOrderedIsSorted(StrLess, ruleIDs);
    action := NextAction(group[best].resourceLabel, ruleIDs, primary.severity, primary, related);
  }

  /** The groups of `metas`, filed under their IDs, and the IDs in report order. */
  method GroupFindings(metas: seq<FindingMeta>) returns (filed: map<string, seq<FindingMeta>>, order: seq<string>)
    requires DigestKeys(metas)
    ensures forall id | id in order :: id in filed
    ensures IsGrouping(metas, InOrder(filed, order)) && GroupsOrdered(InOrder(filed, order))
  {
    var uf := new ResourceUnionFind();
    UnionKeys(uf, metas);
    UnionCarriers(uf, metas);
    ghost var roots := uf.Roots();
    GroupIDsSeparateClasses(roots, metas);
    filed, order := CollectGroups(uf, metas);
    ghost var unsorted := order;
    order := SortGroups(filed, order);
    PermutationKeepsNoDuplicates(unsorted, order);
    SameMembers(unsorted, order);
    FiledGroupsAreClasses(roots, metas, filed, order);
  }

  ghost predicate AreActionsFor(groups: seq<seq<FindingMeta>>, actions: seq<NextAction>) {
    |actions| == |groups| && forall k | 0 <= k < |groups| :: IsActionFor(groups[k], actions[k])
  }

  lemma AppendAction(groups: seq<seq<FindingMeta>>, actions: seq<NextAction>, action: NextAction)
    requires |actions| < |groups| && AreActionsFor(groups[..|actions|], actions)
    requires IsActionFor(groups[|actions|], action)
    ensures AreActionsFor(groups[..|actions| + 1], actions + [action])
  {
    var n, more := |actions|, actions + [action];
    forall k | 0 <= k < n + 1
      ensures IsActionFor(groups[..n + 1][k], more[k])
    {
      if k < n {
        assert IsActionFor(groups[..n][k], actions[k]);
      }
    }
  }

  method BuildActions(filed: map<string, seq<FindingMeta>>, order: seq<string>) returns (actions: seq<NextAction>)
    requires forall id | id in order :: id in filed && filed[id] != []
    ensures AreActionsFor(InOrder(filed, order), actions)
  {
    actions := [];
    ghost var groups := InOrder(filed, order);
    for k := 0 to |order|
      invariant |actions| == k && AreActionsFor(groups[..k], actions)
    {
      assert order[k] in filed;
      var action := BuildAction(filed[order[k]]);
      AppendAction(groups, actions, action);
      actions := actions + [action];
    }
    assert groups[..|order|] == groups;
  }

  ghost predicate IsActionListFor(metas: seq<FindingMeta>, groups: seq<seq<FindingMeta>>, actions: seq<NextAction>) {
    IsGrouping(metas, groups) && GroupsOrdered(groups) && AreActionsFor(groups, actions)
  }

  /** One action per group, the groups being the classes of findings linked by shared resources,
      most urgent group first. */
  ghost predicate IsActionList(metas: seq<FindingMeta>, actions: seq<NextAction>) {
    exists groups :: IsActionListFor(metas, groups, actions)
  }

  method BuildNextActions(metas: seq<FindingMeta>) returns (actions: seq<NextAction>)
    requires DigestKeys(metas)
    ensures IsActionList(metas, actions)
  {
    if |metas| == 0 {
      OrderedWhenEmpty();
      assert IsActionListFor(metas, [], []);
      return [];
    }
    var filed, order := GroupFindings(metas);
    ghost var groups := InOrder(filed, order);
    forall id | id in order
      ensures filed[id] != []
    {
      var k :| 0 <= k < |order| && order[k] == id;
      assert WholeClass(metas, groups[k]);
    }
    actions := BuildActions(filed, order);
    assert IsActionListFor(metas, groups, actions);
  }

  // ---- what a reader of the report can rely on ---------------------------------------------------

  ghost function ActionRuleIDs(actions: seq<NextAction>): multiset<string> {
    if actions == [] then multiset{}
    else ActionRuleIDs(actions[..|actions| - 1]) + multiset(actions[|actions| - 1].ruleIDs)
  }

  lemma {:induction false} ActionRuleIDsFollowGroups(groups: seq<seq<FindingMeta>>, actions: seq<NextAction>)
    requires AreActionsFor(groups, actions)
    ensures ActionRuleIDs(actions) == RuleBags(groups)
  {
    if actions != [] {
      var n := |actions| - 1;
      ActionRuleIDsFollowGroups(groups[..n], actions[..n]);
      assert IsActionFor(groups[n], actions[n]);
    }
  }

  /** The rule IDs of all actions together are the rule IDs of the input, repetitions included. */
  lemma ActionsCoverInput(metas: seq<FindingMeta>, actions: seq<NextAction>)
    requires IsActionList(metas, actions)
    ensures ActionRuleIDs(actions) == RuleBag(metas)
  {
    var groups :| IsActionListFor(metas, groups, actions);
    ActionRuleIDsFollowGroups(groups, actions);
    RuleIDsAreConserved(metas, groups);
  }

  /** Two runs over the same findings in different orders list the same actions in the same places:
      same rule IDs, same severity rank, same primary rule; and the same action altogether, up to the
      order of its related findings, wherever one finding of the group outranks the others. */
  lemma ActionListIsCanonical(m1: seq<FindingMeta>, actions1: seq<NextAction>, m2: seq<FindingMeta>,
                              actions2: seq<NextAction>)
    requires multiset(m1) == multiset(m2) && AllKeyed(m1)
    requires IsActionList(m1, actions1) && IsActionList(m2, actions2)
    ensures |actions1| == |actions2|
    ensures exists groups :: IsActionListFor(m1, groups, actions1) && ActionListsAgree(groups, actions1, actions2)
  {
    var groups1 :| IsActionListFor(m1, groups1, actions1);
    var groups2 :| IsActionListFor(m2, groups2, actions2);
    KeyedGroupsAreDistinct(m1, groups1);
    GroupSequenceIsCanonical(m1, groups1, m2, groups2);
    forall k | 0 <= k < |actions1|
      ensures ActionsAgree(actions1[k], actions2[k])
      ensures HasLeader(groups1[k]) ==> SameAction(actions1[k], actions2[k])
    {
      ActionIsCanonical(groups1[k], actions1[k], groups2[k], actions2[k]);
      if HasLeader(groups1[k]) {
        LedActionIsCanonical(groups1[k], actions1[k], groups2[k], actions2[k]);
      }
    }
    assert ActionListsAgree(groups1, actions1, actions2);
  }

  /** Place by place the actions agree, and those of groups with a leader are the same. */
  ghost predicate ActionListsAgree(groups: seq<seq<FindingMeta>>, xs: seq<NextAction>, ys: seq<NextAction>) {
    && |xs| == |ys| == |groups|
    && forall k | 0 <= k < |xs| ::
         ActionsAgree(xs[k], ys[k]) && (HasLeader(groups[k]) ==> SameAction(xs[k], ys[k]))
  }

  ghost predicate ActionsAgree(x: NextAction, y: NextAction) {
    && x.ruleIDs == y.ruleIDs && x.primary.ruleID == y.primary.ruleID
    && SeverityRank(x.severity) == SeverityRank(y.severity)
  }
}
