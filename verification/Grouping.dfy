/** What a Next Action group is (internal/report/view.go): a class of findings linked by shared
    resource keys. This module states the partition without any forest and proves what follows
    from it; `NextActions` proves that the code computes it. */
module Grouping {
  import opened Findings
  import opened UnionFind

  datatype FindingMeta = FindingMeta(finding: Finding, resourceLabel: string, keys: seq<string>)

  /** A resource key is a hex-encoded hash. */
  predicate IsDigest(k: string) {
    |k| == 64 && forall i | 0 <= i < 64 :: '0' <= k[i] <= '9' || 'a' <= k[i] <= 'f'
  }

  ghost predicate DigestKeys(metas: seq<FindingMeta>) {
    forall m, k | m in metas && k in m.keys :: IsDigest(k)
  }

  // ---- the partition -------------------------------------------------------------------------

  ghost predicate SharesKey(a: FindingMeta, b: FindingMeta) {
    exists k :: k in a.keys && k in b.keys
  }

  ghost predicate IsChain(metas: seq<FindingMeta>, chain: seq<FindingMeta>) {
    && chain != []
    && (forall i | 0 <= i < |chain| :: chain[i] in metas)
    && (forall i | 0 < i < |chain| :: SharesKey(chain[i - 1], chain[i]))
  }

  /** A chain of findings, each sharing a resource key with the next, leads from `a` to `b`. */
  ghost predicate Linked(metas: seq<FindingMeta>, a: FindingMeta, b: FindingMeta) {
    exists chain :: IsChain(metas, chain) && chain[0] == a && chain[|chain| - 1] == b
  }

  /** When two findings belong to one action. A finding without resources stands alone with the
      findings of the same fingerprint. */
  ghost predicate SameGroup(metas: seq<FindingMeta>, a: FindingMeta, b: FindingMeta) {
    if a.keys != [] && b.keys != [] then Linked(metas, a, b)
    else a.keys == [] && b.keys == [] && a.finding.fingerprint == b.finding.fingerprint
  }

  /** The findings of `s` that belong with `rep`, in their order in `s`. */
  ghost function Members(metas: seq<FindingMeta>, s: seq<FindingMeta>, rep: FindingMeta): seq<FindingMeta> {
    if s == [] then []
    else
      var front := Members(metas, s[..|s| - 1], rep);
      if SameGroup(metas, rep, s[|s| - 1]) then front + [s[|s| - 1]] else front
  }

  lemma {:induction false} InMembers(metas: seq<FindingMeta>, s: seq<FindingMeta>, rep: FindingMeta, m: FindingMeta)
    ensures m in Members(metas, s, rep) <==> m in s && SameGroup(metas, rep, m)
  {
    if s != [] {
      InMembers(metas, s[..|s| - 1], rep, m);
      assert s == s[..|s| - 1] + [s[|s| - 1]];
    }
  }

  /** `g` is the whole class of its first finding, in input order. */
  ghost predicate WholeClass(metas: seq<FindingMeta>, g: seq<FindingMeta>) {
    g != [] && g[0] in metas && g == Members(metas, metas, g[0])
  }

  ghost predicate Grouped(groups: seq<seq<FindingMeta>>, m: FindingMeta) {
    exists k :: 0 <= k < |groups| && m in groups[k]
  }

  ghost predicate Apart(metas: seq<FindingMeta>, g: seq<FindingMeta>, h: seq<FindingMeta>) {
    g != [] && h != [] && !SameGroup(metas, g[0], h[0])
  }

  /** `groups` splits `metas` into the classes of `SameGroup`, each in input order. */
  ghost predicate IsGrouping(metas: seq<FindingMeta>, groups: seq<seq<FindingMeta>>) {
    && (forall k {:trigger WholeClass(metas, groups[k])} | 0 <= k < |groups| :: WholeClass(metas, groups[k]))
    && (forall m {:trigger Grouped(groups, m)} | m in metas :: Grouped(groups, m))
    && (forall i, j {:trigger Apart(metas, groups[i], groups[j])} | 0 <= i < j < |groups| ::
        Apart(metas, groups[i], groups[j]))
  }

  // ---- the forest computes exactly this relation ---------------------------------------------

  ghost function AllEdges(metas: seq<FindingMeta>): set<Edge> {
    if metas == [] then {}
    else AllEdges(metas[..|metas| - 1]) + StarEdges(metas[|metas| - 1].keys)
  }

  lemma {:induction false} EdgeOfMeta(metas: seq<FindingMeta>, m: FindingMeta, i: nat)
    requires m in metas && 0 < i < |m.keys|
    ensures (m.keys[0], m.keys[i]) in AllEdges(metas)
  {
    var last := metas[|metas| - 1];
    if m != last {
      assert m in metas[..|metas| - 1];
      EdgeOfMeta(metas[..|metas| - 1], m, i);
    }
  }

  lemma {:induction false} MetaOfEdge(metas: seq<FindingMeta>, e: Edge) returns (m: FindingMeta)
    requires e in AllEdges(metas)
    ensures m in metas && e.0 in m.keys && e.1 in m.keys
  {
    if e in StarEdges(metas[|metas| - 1].keys) {
      m := metas[|metas| - 1];
    } else {
      m := MetaOfEdge(metas[..|metas| - 1], e);
    }
  }

  /** The keys of one finding are connected to each other. */
  lemma OwnKeysConnected(metas: seq<FindingMeta>, m: FindingMeta, k: string)
    requires m in metas && k in m.keys
    ensures Connected(AllEdges(metas), m.keys[0], k)
    ensures Connected(AllEdges(metas), k, m.keys[0])
  {
    var i :| 0 <= i < |m.keys| && m.keys[i] == k;
    if i == 0 {
      ConnectedRefl(AllEdges(metas), k);
    } else {
      EdgeOfMeta(metas, m, i);
      ConnectedEdge(AllEdges(metas), m.keys[0], k);
      ConnectedEdge(AllEdges(metas), k, m.keys[0]);
    }
  }

  lemma {:induction false} ChainConnectsKeys(metas: seq<FindingMeta>, chain: seq<FindingMeta>)
    requires IsChain(metas, chain) && chain[0].keys != [] && chain[|chain| - 1].keys != []
    ensures Connected(AllEdges(metas), chain[0].keys[0], chain[|chain| - 1].keys[0])
  {
    var edges := AllEdges(metas);
    if |chain| == 1 {
      ConnectedRefl(edges, chain[0].keys[0]);
    } else {
      var front, a, b := chain[..|chain| - 1], chain[|chain| - 2], chain[|chain| - 1];
      assert forall i | 0 < i < |front| :: SharesKey(chain[i - 1], chain[i]);
      assert SharesKey(a, b);
      var k :| k in a.keys && k in b.keys;
      ChainConnectsKeys(metas, front);
      OwnKeysConnected(metas, a, k);
      OwnKeysConnected(metas, b, k);
      ConnectedTrans(edges, chain[0].keys[0], a.keys[0], k);
      ConnectedTrans(edges, chain[0].keys[0], k, b.keys[0]);
    }
  }

  lemma ChainExtends(metas: seq<FindingMeta>, a: FindingMeta, b: FindingMeta, c: FindingMeta)
    requires Linked(metas, a, b) && c in metas && SharesKey(b, c)
    ensures Linked(metas, a, c)
  {
    var chain :| IsChain(metas, chain) && chain[0] == a && chain[|chain| - 1] == b;
    var longer := chain + [c];
    forall i | 0 < i < |longer|
      ensures SharesKey(longer[i - 1], longer[i])
    {
      assert i < |chain| ==> SharesKey(chain[i - 1], chain[i]);
    }
    assert IsChain(metas, longer);
  }

  lemma LinkedRefl(metas: seq<FindingMeta>, a: FindingMeta)
    requires a in metas
    ensures Linked(metas, a, a)
  {
    assert IsChain(metas, [a]);
  }

  /** Whoever carries the end of a key path that starts in `a` is linked to `a`. */
  lemma {:induction false} PathLinks(metas: seq<FindingMeta>, a: FindingMeta, path: seq<string>, b: FindingMeta)
    requires IsPath(AllEdges(metas), path)
    requires a in metas && path[0] in a.keys
    requires b in metas && path[|path| - 1] in b.keys
    ensures Linked(metas, a, b)
    decreases |path|
  {
    if |path| == 1 {
      LinkedRefl(metas, a);
      assert SharesKey(a, b);
      ChainExtends(metas, a, a, b);
    } else {
      var front, x, y := path[..|path| - 1], path[|path| - 2], path[|path| - 1];
      assert forall i | 0 < i < |front| :: Adjacent(AllEdges(metas), path[i - 1], path[i]);
      assert Adjacent(AllEdges(metas), x, y);
      var m := MetaOfEdge(metas, if (x, y) in AllEdges(metas) then (x, y) else (y, x));
      PathLinks(metas, a, front, m);
      assert SharesKey(m, b);
      ChainExtends(metas, a, m, b);
    }
  }

  /** Two findings are linked by a chain of shared keys exactly when the unions the code performs
      connect their first keys. */
  lemma LinkedIffKeysConnected(metas: seq<FindingMeta>, a: FindingMeta, b: FindingMeta)
    requires a in metas && b in metas && a.keys != [] && b.keys != []
    ensures Linked(metas, a, b) <==> Connected(AllEdges(metas), a.keys[0], b.keys[0])
  {
    if Linked(metas, a, b) {
      var chain :| IsChain(metas, chain) && chain[0] == a && chain[|chain| - 1] == b;
      ChainConnectsKeys(metas, chain);
    }
    if Connected(AllEdges(metas), a.keys[0], b.keys[0]) {
      var path :| IsPath(AllEdges(metas), path) && path[0] == a.keys[0] && path[|path| - 1] == b.keys[0];
      PathLinks(metas, a, path, b);
    }
  }

  // ---- SameGroup is an equivalence on the findings --------------------------------------------

  lemma SameGroupRefl(metas: seq<FindingMeta>, a: FindingMeta)
    requires a in metas
    ensures SameGroup(metas, a, a)
  {
    LinkedRefl(metas, a);
  }

  lemma SameGroupSym(metas: seq<FindingMeta>, a: FindingMeta, b: FindingMeta)
    requires SameGroup(metas, a, b) && a in metas && b in metas
    ensures SameGroup(metas, b, a)
  {
    if a.keys != [] {
      LinkedIffKeysConnected(metas, a, b);
      ConnectedSym(AllEdges(metas), a.keys[0], b.keys[0]);
      LinkedIffKeysConnected(metas, b, a);
    }
  }

  lemma SameGroupTrans(metas: seq<FindingMeta>, a: FindingMeta, b: FindingMeta, c: FindingMeta)
    requires SameGroup(metas, a, b) && SameGroup(metas, b, c) && a in metas && b in metas && c in metas
    ensures SameGroup(metas, a, c)
  {
    if a.keys != [] {
      LinkedIffKeysConnected(metas, a, b);
      LinkedIffKeysConnected(metas, b, c);
      ConnectedTrans(AllEdges(metas), a.keys[0], b.keys[0], c.keys[0]);
      LinkedIffKeysConnected(metas, a, c);
    }
  }

  // ---- every finding in exactly one group ------------------------------------------------------

  /** Two findings that occur in groups are in the same group exactly when a chain links them
      (for findings with resources). In particular no finding is in two groups. */
  lemma GroupsAreClasses(metas: seq<FindingMeta>, groups: seq<seq<FindingMeta>>, i: nat, j: nat,
                         a: FindingMeta, b: FindingMeta)
    requires IsGrouping(metas, groups) && i < |groups| && j < |groups|
    requires a in groups[i] && b in groups[j]
    ensures a in metas && b in metas
    ensures i == j <==> SameGroup(metas, a, b)
  {
    assert WholeClass(metas, groups[i]) && WholeClass(metas, groups[j]);
    InMembers(metas, metas, groups[i][0], a);
    InMembers(metas, metas, groups[j][0], b);
    if i == j {
      SameGroupSym(metas, groups[i][0], a);
      SameGroupTrans(metas, a, groups[i][0], b);
    } else {
      assert i < j ==> Apart(metas, groups[i], groups[j]);
      assert j < i ==> Apart(metas, groups[j], groups[i]);
      if SameGroup(metas, a, b) {
        SameReps(metas, groups[i][0], a, b, groups[j][0]);
      }
    }
  }

  lemma SameReps(metas: seq<FindingMeta>, ra: FindingMeta, a: FindingMeta, b: FindingMeta, rb: FindingMeta)
    requires ra in metas && a in metas && b in metas && rb in metas
    requires SameGroup(metas, ra, a) && SameGroup(metas, a, b) && SameGroup(metas, rb, b)
    ensures SameGroup(metas, ra, rb) && SameGroup(metas, rb, ra)
  {
    SameGroupTrans(metas, ra, a, b);
    SameGroupSym(metas, rb, b);
    SameGroupTrans(metas, ra, b, rb);
    SameGroupSym(metas, ra, rb);
  }

  /** The rule IDs of a list of findings, with repetition. */
  ghost function RuleBag(s: seq<FindingMeta>): multiset<string> {
    if s == [] then multiset{} else RuleBag(s[..|s| - 1]) + multiset{s[|s| - 1].finding.ruleID}
  }

  ghost function RuleBags(groups: seq<seq<FindingMeta>>): multiset<string> {
    if groups == [] then multiset{} else RuleBags(groups[..|groups| - 1]) + RuleBag(groups[|groups| - 1])
  }

  lemma BagGainsOne(group: seq<FindingMeta>, m: FindingMeta)
    ensures RuleBag(group + [m]) == RuleBag(group) + multiset{m.finding.ruleID}
  {
    assert (group + [m])[..|group|] == group;
  }

  lemma LastBag(groups: seq<seq<FindingMeta>>, id: string)
    requires groups != []
    ensures RuleBags(groups)[id] == RuleBags(groups[..|groups| - 1])[id] + RuleBag(groups[|groups| - 1])[id]
  {
  }

  /** Replacing one group replaces its share of the bag. */
  lemma {:induction false} ReplacedBag(before: seq<seq<FindingMeta>>, at: nat, group: seq<FindingMeta>, id: string)
    requires at < |before|
    ensures RuleBags(before[at := group])[id] + RuleBag(before[at])[id] == RuleBags(before)[id] + RuleBag(group)[id]
  {
    var n := |before| - 1;
    var after, front := before[at := group], before[..n];
    LastBag(before, id);
    LastBag(after, id);
    if at == n {
      assert after[..n] == front;
    } else {
      assert after[..n] == front[at := group];
      ReplacedBag(front, at, group, id);
    }
  }

  lemma BagsGainOne(before: seq<seq<FindingMeta>>, at: nat, m: FindingMeta)
    requires at < |before|
    ensures RuleBags(before[at := before[at] + [m]]) == RuleBags(before) + multiset{m.finding.ruleID}
  {
    var group := before[at] + [m];
    BagGainsOne(before[at], m);
    forall id
      ensures RuleBags(before[at := group])[id] == (RuleBags(before) + multiset{m.finding.ruleID})[id]
    {
      ReplacedBag(before, at, group, id);
    }
  }

  lemma {:induction false} EmptyBags(groups: seq<seq<FindingMeta>>)
    requires forall k | 0 <= k < |groups| :: groups[k] == []
    ensures RuleBags(groups) == multiset{}
  {
    if groups != [] {
      EmptyBags(groups[..|groups| - 1]);
    }
  }

  /** The part of every class that comes from the prefix `s` of the input. */
  ghost function Parts(metas: seq<FindingMeta>, s: seq<FindingMeta>, reps: seq<FindingMeta>): seq<seq<FindingMeta>> {
    seq(|reps|, k requires 0 <= k < |reps| => Members(metas, s, reps[k]))
  }

  /** One representative of each group. */
  ghost predicate AreReps(groups: seq<seq<FindingMeta>>, reps: seq<FindingMeta>) {
    |reps| == |groups| && forall k | 0 <= k < |groups| :: groups[k] != [] && reps[k] == groups[k][0]
  }

  /** A finding belongs with one representative only. */
  lemma RepOf(metas: seq<FindingMeta>, groups: seq<seq<FindingMeta>>, reps: seq<FindingMeta>, m: FindingMeta)
    returns (at: nat)
    requires IsGrouping(metas, groups) && AreReps(groups, reps) && m in metas
    ensures at < |reps| && forall k | 0 <= k < |reps| :: SameGroup(metas, reps[k], m) <==> k == at
  {
    assert Grouped(groups, m);
    at :| 0 <= at < |groups| && m in groups[at];
    forall k | 0 <= k < |reps|
      ensures SameGroup(metas, reps[k], m) <==> k == at
    {
      GroupsAreClasses(metas, groups, k, at, groups[k][0], m);
    }
  }

  lemma PartsGainOne(metas: seq<FindingMeta>, s: seq<FindingMeta>, reps: seq<FindingMeta>, m: FindingMeta, at: nat)
    requires at < |reps| && forall k | 0 <= k < |reps| :: SameGroup(metas, reps[k], m) <==> k == at
    ensures Parts(metas, s + [m], reps) == Parts(metas, s, reps)[at := Parts(metas, s, reps)[at] + [m]]
  {
    assert (s + [m])[..|s|] == s;
  }

  lemma OneMoreCovered(parts: seq<seq<FindingMeta>>, at: nat, s: seq<FindingMeta>, m: FindingMeta)
    requires at < |parts| && RuleBags(parts) == RuleBag(s)
    ensures RuleBags(parts[at := parts[at] + [m]]) == RuleBag(s + [m])
  {
    BagsGainOne(parts, at, m);
    BagGainsOne(s, m);
  }

  lemma {:induction false} PartsCoverPrefix(metas: seq<FindingMeta>, s: seq<FindingMeta>,
                                            groups: seq<seq<FindingMeta>>, reps: seq<FindingMeta>)
    requires IsGrouping(metas, groups) && AreReps(groups, reps) && forall m | m in s :: m in metas
    ensures RuleBags(Parts(metas, s, reps)) == RuleBag(s)
  {
    if s == [] {
      EmptyBags(Parts(metas, s, reps));
    } else {
      var front, m := s[..|s| - 1], s[|s| - 1];
      assert s == front + [m];
      PartsCoverPrefix(metas, front, groups, reps);
      var at := RepOf(metas, groups, reps, m);
      PartsGainOne(metas, front, reps, m, at);
      OneMoreCovered(Parts(metas, front, reps), at, front, m);
    }
  }

  /** Together the groups hold exactly the input's rule IDs, repetitions included: no finding is
      lost and none is reported twice. */
  lemma RuleIDsAreConserved(metas: seq<FindingMeta>, groups: seq<seq<FindingMeta>>)
    requires IsGrouping(metas, groups)
    ensures RuleBags(groups) == RuleBag(metas)
  {
    assert forall k | 0 <= k < |groups| :: WholeClass(metas, groups[k]);
    var reps := seq(|groups|, k requires 0 <= k < |groups| => groups[k][0]);
    PartsCoverPrefix(metas, metas, groups, reps);
    assert Parts(metas, metas, reps) == groups;
  }
}
