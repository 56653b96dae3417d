/** The disjoint-set forest that decides which findings share a Next Action
    (internal/report/view.go): a parent map over resource keys, unions in call order without
    ranks, and recursive path compression. */
module UnionFind {

  // ---- the forest as a value -------------------------------------------------------------

  /** A parent map together with ghost levels that rise along every parent link. The levels are
      proof data: they exist exactly because no chain of parents returns to its start. */
  datatype Forest = Forest(parent: map<string, string>, level: map<string, nat>, top: nat) {
    ghost predicate Valid() {
      level.Keys == parent.Keys && forall x {:trigger RisesFrom(x)} | x in parent :: RisesFrom(x)
    }

    /** The parent link out of `x` stays in the forest and, unless `x` is a root, climbs. */
    ghost predicate RisesFrom(x: string)
      requires level.Keys == parent.Keys && x in parent
    {
      parent[x] in parent && level[x] <= top && (parent[x] != x ==> level[x] < level[parent[x]])
    }

    /** The key reached by following parents to the end. */
    ghost function Root(x: string): (r: string)
      requires Valid() && x in parent
      ensures r in parent && parent[r] == r
      ensures if parent[x] == x then r == x else level[x] < level[r]
      decreases top - level[x]
    {
      assert RisesFrom(x);
      if parent[x] == x then x else assert RisesFrom(parent[x]); Root(parent[x])
    }

    /** Every key with its root. */
    ghost function Roots(): map<string, string>
      requires Valid()
    {
      map x | x in parent :: Root(x)
    }

    ghost function WithKey(x: string): Forest {
      Forest(parent[x := x], level[x := 0], top)
    }

    /** One step of path compression: `x` points at `r` directly. */
    ghost function Compressed(x: string, r: string): Forest {
      this.(parent := parent[x := r])
    }

    /** The root `from` is hung below the root `to`; `to` moves above it. */
    ghost function Linked(from: string, to: string): Forest
      requires from in level && to in level
    {
      var up := if level[from] < level[to] then level[to] else level[from] + 1;
      Forest(parent[from := to], level[to := up], if top < up then up else top)
    }
  }

  /** What validity says of one key, for the proofs below. */
  lemma ParentOf(f: Forest, x: string)
    requires f.Valid() && x in f.parent
    ensures f.RisesFrom(x)
    ensures f.Root(x) == f.Root(f.parent[x])
  {
    assert f.RisesFrom(x);
  }

  lemma NewKeyIsValid(f: Forest, x: string)
    requires f.Valid() && x !in f.parent
    ensures f.WithKey(x).Valid()
  {
    var g := f.WithKey(x);
    forall y | y in g.parent
      ensures g.RisesFrom(y)
    {
      if y != x { ParentOf(f, y); }
    }
  }

  lemma CompressedIsValid(f: Forest, x: string)
    requires f.Valid() && x in f.parent
    ensures f.Compressed(x, f.Root(x)).Valid()
  {
    var g := f.Compressed(x, f.Root(x));
    forall y | y in g.parent
      ensures g.RisesFrom(y)
    {
      ParentOf(f, y);
    }
  }

  lemma LinkedIsValid(f: Forest, from: string, to: string)
    requires f.Valid() && from in f.parent && to in f.parent
    requires f.parent[to] == to && from != to
    ensures f.Linked(from, to).Valid()
  {
    var g := f.Linked(from, to);
    ParentOf(f, to);
    ParentOf(f, from);
    forall y | y in g.parent
      ensures g.RisesFrom(y)
    {
      ParentOf(f, y);
    }
  }

  lemma {:induction false} NewKeyKeepsRoots(f: Forest, x: string, y: string)
    requires f.Valid() && x !in f.parent
    requires y == x || y in f.parent
    ensures f.WithKey(x).Valid()
    ensures f.WithKey(x).Root(y) == if y == x then x else f.Root(y)
    decreases if y in f.parent then f.top - f.level[y] else 0
  {
    NewKeyIsValid(f, x);
    if y in f.parent { ParentOf(f, y); }
    ParentOf(f.WithKey(x), y);
    if y != x && f.parent[y] != y {
      NewKeyKeepsRoots(f, x, f.parent[y]);
    }
  }

  /** Path compression changes no key's root and introduces no cycle. */
  lemma {:induction false} CompressionKeepsRoots(f: Forest, x: string, y: string)
    requires f.Valid() && x in f.parent && y in f.parent
    ensures f.Compressed(x, f.Root(x)).Valid()
    ensures f.Compressed(x, f.Root(x)).Root(y) == f.Root(y)
    decreases f.top - f.level[y]
  {
    var g := f.Compressed(x, f.Root(x));
    CompressedIsValid(f, x);
    ParentOf(f, y);
    ParentOf(g, y);
    if y == x {
      assert g.Root(f.Root(x)) == f.Root(x);
    } else if f.parent[y] != y {
      CompressionKeepsRoots(f, x, f.parent[y]);
    }
  }

  /** Linking two distinct roots merges exactly their two trees and introduces no cycle. */
  lemma {:induction false} LinkMergesRoots(f: Forest, from: string, to: string, y: string)
    requires f.Valid() && from in f.parent && to in f.parent && y in f.parent
    requires f.parent[from] == from && f.parent[to] == to && from != to
    ensures f.Linked(from, to).Valid()
    ensures f.Linked(from, to).Root(y) == if f.Root(y) == from then to else f.Root(y)
    decreases f.top - f.level[y]
  {
    var g := f.Linked(from, to);
    LinkedIsValid(f, from, to);
    ParentOf(f, y);
    ParentOf(g, y);
    if y == from {
      assert g.Root(to) == to;
    } else if f.parent[y] != y {
      LinkMergesRoots(f, from, to, f.parent[y]);
    }
  }

  // ---- connectivity: the reference the forest is measured against -------------------------

  type Edge = (string, string)

  ghost predicate Adjacent(edges: set<Edge>, a: string, b: string) {
    (a, b) in edges || (b, a) in edges
  }

  ghost predicate IsPath(edges: set<Edge>, path: seq<string>) {
    path != [] && forall i | 0 < i < |path| :: Adjacent(edges, path[i - 1], path[i])
  }

  /** The unions performed so far connect `a` to `b`. */
  ghost predicate Connected(edges: set<Edge>, a: string, b: string) {
    exists path :: IsPath(edges, path) && path[0] == a && path[|path| - 1] == b
  }

  lemma ConnectedRefl(edges: set<Edge>, a: string)
    ensures Connected(edges, a, a)
  {
    assert IsPath(edges, [a]);
  }

  lemma ConnectedEdge(edges: set<Edge>, a: string, b: string)
    requires Adjacent(edges, a, b)
    ensures Connected(edges, a, b)
  {
    assert IsPath(edges, [a, b]);
  }

  lemma ConnectedTrans(edges: set<Edge>, a: string, b: string, c: string)
    requires Connected(edges, a, b) && Connected(edges, b, c)
    ensures Connected(edges, a, c)
  {
    var p :| IsPath(edges, p) && p[0] == a && p[|p| - 1] == b;
    var q :| IsPath(edges, q) && q[0] == b && q[|q| - 1] == c;
    var pq := p + q[1..];
    forall i | 0 < i < |pq|
      ensures Adjacent(edges, pq[i - 1], pq[i])
    {
      if i < |p| {
        assert Adjacent(edges, p[i - 1], p[i]);
      } else {
        assert Adjacent(edges, q[i - |p|], q[i - |p| + 1]);
        assert pq[i - 1] == q[i - |p|];
      }
    }
    assert IsPath(edges, pq);
  }

  lemma ConnectedSym(edges: set<Edge>, a: string, b: string)
    requires Connected(edges, a, b)
    ensures Connected(edges, b, a)
  {
    var p :| IsPath(edges, p) && p[0] == a && p[|p| - 1] == b;
    var q := seq(|p|, i requires 0 <= i < |p| => p[|p| - 1 - i]);
    forall i | 0 < i < |q|
      ensures Adjacent(edges, q[i - 1], q[i])
    {
      assert Adjacent(edges, p[|p| - 1 - i], p[|p| - i]);
    }
    assert IsPath(edges, q);
  }

  lemma ConnectedMono(edges: set<Edge>, more: set<Edge>, a: string, b: string)
    requires edges <= more && Connected(edges, a, b)
    ensures Connected(more, a, b)
  {
    var p :| IsPath(edges, p) && p[0] == a && p[|p| - 1] == b;
    forall i | 0 < i < |p|
      ensures Adjacent(more, p[i - 1], p[i])
    {
      assert Adjacent(edges, p[i - 1], p[i]);
    }
    assert IsPath(more, p);
  }

  /** The forest records `edges`: unioned keys share a root, and every key is connected to its root. */
  ghost predicate Records(f: Forest, edges: set<Edge>) {
    && f.Valid()
    && (forall e {:trigger Merged(f, e)} | e in edges :: Merged(f, e))
    && (forall x {:trigger ReachesRoot(f, edges, x)} | x in f.parent :: ReachesRoot(f, edges, x))
  }

  ghost predicate Merged(f: Forest, e: Edge)
    requires f.Valid()
  {
    e.0 in f.parent && e.1 in f.parent && f.Root(e.0) == f.Root(e.1)
  }

  ghost predicate ReachesRoot(f: Forest, edges: set<Edge>, x: string)
    requires f.Valid() && x in f.parent
  {
    Connected(edges, x, f.Root(x))
  }

  lemma {:induction false} PathSharesRoot(f: Forest, edges: set<Edge>, path: seq<string>)
    requires Records(f, edges) && IsPath(edges, path) && path[0] in f.parent
    ensures path[|path| - 1] in f.parent
    ensures f.Root(path[|path| - 1]) == f.Root(path[0])
  {
    if |path| > 1 {
      var front := path[..|path| - 1];
      assert IsPath(edges, front) by {
        assert forall i | 0 < i < |front| :: Adjacent(edges, path[i - 1], path[i]);
      }
      PathSharesRoot(f, edges, front);
      var a, b := path[|path| - 2], path[|path| - 1];
      assert Adjacent(edges, a, b);
      assert (a, b) in edges ==> Merged(f, (a, b));
      assert (b, a) in edges ==> Merged(f, (b, a));
    }
  }

  /** Two known keys share a root exactly when the unions performed connect them. */
  lemma SameRootIffConnected(f: Forest, edges: set<Edge>, a: string, b: string)
    requires Records(f, edges) && a in f.parent && b in f.parent
    ensures f.Root(a) == f.Root(b) <==> Connected(edges, a, b)
  {
    assert ReachesRoot(f, edges, a) && ReachesRoot(f, edges, b);
    if f.Root(a) == f.Root(b) {
      ConnectedSym(edges, b, f.Root(b));
      ConnectedTrans(edges, a, f.Root(a), b);
    }
    if Connected(edges, a, b) {
      var p :| IsPath(edges, p) && p[0] == a && p[|p| - 1] == b;
      PathSharesRoot(f, edges, p);
    }
  }

  // ---- the mutable object ------------------------------------------------------------------

  /** The effect of `find` on the roots: a key not seen yet becomes its own root. */
  function Seen(roots: map<string, string>, x: string): map<string, string> {
    if x in roots then roots else roots[x := x]
  }

  /** The effect of `union` on the roots: every key below `a`'s root moves below `b`'s root. */
  function Merge(roots: map<string, string>, a: string, b: string): map<string, string>
    requires a in roots && b in roots
  {
    map y | y in roots :: if roots[y] == roots[a] then roots[b] else roots[y]
  }

  class ResourceUnionFind {
    var parent: map<string, string>
    ghost var level: map<string, nat>
    ghost var top: nat
    ghost var edges: set<Edge>   // every pair passed to Union so far

    ghost function Shape(): Forest
      reads this
    {
      Forest(parent, level, top)
    }

    ghost predicate Valid()
      reads this
    {
      Records(Shape(), edges)
    }

    ghost function Roots(): map<string, string>
      reads this
      requires Valid()
    {
      Shape().Roots()
    }

    constructor ()
      ensures Valid() && Roots() == map[] && edges == {}
    {
      parent, level, top, edges := map[], map[], 0, {};
    }

    /** Returns the root of `x`, adding `x` when it is new; compresses the path on the way back. */
    method Find(x: string) returns (r: string)
      requires Valid()
      modifies this
      ensures Valid() && edges == old(edges)
      ensures Roots() == Seen(old(Roots()), x) && r == Roots()[x]
      ensures x in old(parent) ==> level == old(level) && top == old(top)
      decreases if x in parent then top - level[x] + 1 else 0
    {
      ghost var before := Shape();
      if x !in parent {
        parent, level := parent[x := x], level[x := 0];
        assert Shape() == before.WithKey(x);
        AddedKeyRecords(before, edges, x);
        return x;
      }
      ParentOf(before, x);
      if parent[x] != x {
        ParentOf(before, parent[x]);
        var rep := Find(parent[x]);
        ghost var deeper := Shape();
        assert deeper.Root(x) == Roots()[x] == rep;
        parent := parent[x := rep];
        assert Shape() == deeper.Compressed(x, deeper.Root(x));
        CompressedRecords(deeper, edges, x);
      }
      return parent[x];
    }

    /** Merges the classes of `a` and `b`: `a`'s root is hung below `b`'s root. */
    method Union(a: string, b: string)
      requires Valid()
      modifies this
      ensures Valid() && edges == old(edges) + {(a, b)}
      ensures Roots() == Merge(Seen(Seen(old(Roots()), a), b), a, b)
    {
      var ra := Find(a);
      assert Roots()[a] == ra;
      var rb := Find(b);
      ghost var before := Shape();
      assert a in before.Roots() && before.Roots()[a] == ra;
      if ra != rb {
        parent := parent[ra := rb];
        ghost var linked := before.Linked(ra, rb);
        level, top := linked.level, linked.top;
        assert Shape() == linked;
        LinkedRecords(before, edges, a, b);
      } else {
        RedundantEdgeRecords(before, edges, a, b);
      }
      edges := edges + {(a, b)};
    }

    /** Merges the classes of all keys of one finding into the class of its first key. */
    method UnionAll(keys: seq<string>)
      requires Valid()
      modifies this
      ensures Valid() && edges == old(edges) + StarEdges(keys)
    {
      var i := 1;
      while i < |keys|
        invariant Valid() && 1 <= i && (i == 1 || i <= |keys|)
        invariant i <= |keys| ==> edges == old(edges) + StarEdges(keys[..i])
        invariant |keys| == 0 ==> edges == old(edges)
      {
        StarEdgesStep(keys, i);
        Union(keys[0], keys[i]);
        i := i + 1;
      }
      assert keys == [] || keys[..i] == keys;
    }
  }

  /** The pairs that one finding's keys contribute. */
  ghost function StarEdges(keys: seq<string>): set<Edge> {
    set j | 1 <= j < |keys| :: (keys[0], keys[j])
  }

  lemma StarEdgesStep(keys: seq<string>, i: nat)
    requires 0 < i < |keys|
    ensures StarEdges(keys[..i + 1]) == StarEdges(keys[..i]) + {(keys[0], keys[i])}
  {
    forall e | e in StarEdges(keys[..i + 1])
      ensures e in StarEdges(keys[..i]) + {(keys[0], keys[i])}
    {
      var j :| 1 <= j < i + 1 && e == (keys[0], keys[j]);
      assert j < i ==> keys[..i][j] == keys[j];
    }
    forall e | e in StarEdges(keys[..i])
      ensures e in StarEdges(keys[..i + 1])
    {
      var j :| 1 <= j < i && e == (keys[0], keys[..i][j]);
      assert keys[..i + 1][j] == keys[j];
    }
    assert keys[..i + 1][i] == keys[i];
  }

  /** A change of forest that moves no root keeps the record. */
  lemma SameRootsRecord(f: Forest, g: Forest, edges: set<Edge>)
    requires Records(f, edges) && g.Valid() && f.parent.Keys <= g.parent.Keys
    requires forall y {:trigger g.Root(y)} | y in g.parent :: g.Root(y) == if y in f.parent then f.Root(y) else y
    ensures Records(g, edges)
  {
    forall e | e in edges
      ensures Merged(g, e)
    {
      assert Merged(f, e);
    }
    forall x | x in g.parent
      ensures ReachesRoot(g, edges, x)
    {
      if x in f.parent {
        assert ReachesRoot(f, edges, x);
      } else {
        ConnectedRefl(edges, x);
      }
    }
  }

  lemma AddedKeyRoots(f: Forest, x: string)
    requires f.Valid() && x !in f.parent
    ensures f.WithKey(x).Valid()
    ensures forall y {:trigger f.WithKey(x).Root(y)} | y in f.WithKey(x).parent ::
              f.WithKey(x).Root(y) == if y in f.parent then f.Root(y) else y
  {
    NewKeyIsValid(f, x);
    forall y | y in f.WithKey(x).parent
      ensures f.WithKey(x).Root(y) == if y in f.parent then f.Root(y) else y
    {
      NewKeyKeepsRoots(f, x, y);
    }
  }

  lemma AddedKeyRecords(f: Forest, edges: set<Edge>, x: string)
    requires Records(f, edges) && x !in f.parent
    ensures Records(f.WithKey(x), edges)
    ensures f.WithKey(x).Roots() == Seen(f.Roots(), x)
  {
    AddedKeyRoots(f, x);
    SameRootsRecord(f, f.WithKey(x), edges);
  }

  lemma CompressedRecords(f: Forest, edges: set<Edge>, x: string)
    requires Records(f, edges) && x in f.parent
    ensures Records(f.Compressed(x, f.Root(x)), edges)
    ensures f.Compressed(x, f.Root(x)).Roots() == f.Roots()
  {
    CompressedIsValid(f, x);
    forall y | y in f.parent { CompressionKeepsRoots(f, x, y); }
    SameRootsRecord(f, f.Compressed(x, f.Root(x)), edges);
  }

  lemma RedundantEdgeRecords(f: Forest, edges: set<Edge>, a: string, b: string)
    requires Records(f, edges) && a in f.parent && b in f.parent && f.Root(a) == f.Root(b)
    ensures Records(f, edges + {(a, b)})
    ensures Merge(f.Roots(), a, b) == f.Roots()
  {
    var more := edges + {(a, b)};
    forall e | e in more
      ensures Merged(f, e)
    {
      assert e in edges ==> Merged(f, e);
    }
    forall x | x in f.parent
      ensures ReachesRoot(f, more, x)
    {
      assert ReachesRoot(f, edges, x);
      ConnectedMono(edges, more, x, f.Root(x));
    }
  }

  lemma LinkedRecords(f: Forest, edges: set<Edge>, a: string, b: string)
    requires Records(f, edges) && a in f.parent && b in f.parent && f.Root(a) != f.Root(b)
    ensures Records(f.Linked(f.Root(a), f.Root(b)), edges + {(a, b)})
    ensures f.Linked(f.Root(a), f.Root(b)).Roots() == Merge(f.Roots(), a, b)
  {
    var ra, rb, more := f.Root(a), f.Root(b), edges + {(a, b)};
    var g := f.Linked(ra, rb);
    LinkedIsValid(f, ra, rb);
    LinkedRoots(f, a, b);
    forall e | e in more
      ensures Merged(g, e)
    {
      assert e in edges ==> Merged(f, e);
      assert g.Roots()[a] == rb && g.Roots()[b] == rb;
      assert e in edges ==> g.Roots()[e.0] == g.Roots()[e.1];
    }
    assert ReachesRoot(f, edges, a) && ReachesRoot(f, edges, b);
    forall y | y in g.parent
      ensures ReachesRoot(g, more, y)
    {
      assert ReachesRoot(f, edges, y);
      assert g.Roots()[y] == g.Root(y);
      if f.Root(y) == ra {
        ConnectedAcross(edges, y, ra, a, b, rb);
      } else {
        ConnectedMono(edges, more, y, f.Root(y));
      }
    }
  }

  lemma LinkedRoots(f: Forest, a: string, b: string)
    requires f.Valid() && a in f.parent && b in f.parent && f.Root(a) != f.Root(b)
    ensures f.Linked(f.Root(a), f.Root(b)).Valid()
    ensures f.Linked(f.Root(a), f.Root(b)).Roots() == Merge(f.Roots(), a, b)
  {
    LinkedIsValid(f, f.Root(a), f.Root(b));
    forall y | y in f.parent
      ensures f.Linked(f.Root(a), f.Root(b)).Roots()[y] == Merge(f.Roots(), a, b)[y]
    {
      LinkMergesRoots(f, f.Root(a), f.Root(b), y);
    }
  }

  lemma ConnectedAcross(edges: set<Edge>, y: string, ra: string, a: string, b: string, rb: string)
    requires Connected(edges, y, ra) && Connected(edges, a, ra) && Connected(edges, b, rb)
    ensures Connected(edges + {(a, b)}, y, rb)
  {
    var more := edges + {(a, b)};
    ConnectedSym(edges, a, ra);
    ConnectedTrans(edges, y, ra, a);
    ConnectedMono(edges, more, y, a);
    ConnectedEdge(more, a, b);
    ConnectedTrans(more, y, a, b);
    ConnectedMono(edges, more, b, rb);
    ConnectedTrans(more, y, b, rb);
  }
}
