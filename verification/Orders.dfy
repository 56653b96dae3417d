/** Sorting as the repository uses it: Go's `sort.Slice` family gives some permutation of the
    slice in which no neighbour is inverted. Everything the callers claim about determinism
    comes from the comparator, so that is where the lemmas below put it. */
module Orders {

  /** `less` orders the members of `elems` strictly and totally. */
  ghost predicate StrictTotalOn<T>(less: (T, T) -> bool, elems: seq<T>) {
    && (forall x | x in elems :: !less(x, x))
    && (forall x, y | x in elems && y in elems :: x == y || less(x, y) || less(y, x))
    && (forall x, y, z | x in elems && y in elems && z in elems && less(x, y) && less(y, z) :: less(x, z))
  }

  ghost predicate NoDuplicates<T>(s: seq<T>) {
    forall i, j | 0 <= i < j < |s| :: s[i] != s[j]
  }

  /** No neighbour is inverted: what a sort leaves behind whatever the comparator is. */
  ghost predicate NeighboursOrdered<T>(less: (T, T) -> bool, s: seq<T>) {
    forall i | 0 < i < |s| :: !less(s[i], s[i - 1])
  }

  /** No pair is inverted: what a sort means when the comparator is an order. */
  ghost predicate Sorted<T>(less: (T, T) -> bool, s: seq<T>) {
    forall i, j | 0 <= i < j < |s| :: !less(s[j], s[i])
  }

  /** The model of `sort.Slice`, `sort.SliceStable` and `sort.Strings`. Callers see only this contract. */
  method SortSlice<T>(s: seq<T>, less: (T, T) -> bool) returns (r: seq<T>)
    requires forall x, y | x in s && y in s && less(x, y) :: !less(y, x)
    ensures multiset(r) == multiset(s)
    ensures NeighboursOrdered(less, r)
  {
    r := [];
    for n := 0 to |s|
      invariant multiset(r) == multiset(s[..n])
      invariant NeighboursOrdered(less, r)
    {
      assert s[..n + 1] == s[..n] + [s[n]];
      forall y | y in r
        ensures y in s
      {
        assert y in multiset(r);
        assert y in s[..n];
      }
      r := InsertInOrder(r, s[n], less);
    }
    assert s[..|s|] == s;
  }

  method InsertInOrder<T>(s: seq<T>, x: T, less: (T, T) -> bool) returns (r: seq<T>)
    requires NeighboursOrdered(less, s)
    requires forall y | y in s && less(x, y) :: !less(y, x)
    ensures multiset(r) == multiset(s) + multiset{x}
    ensures NeighboursOrdered(less, r)
  {
    var k := |s|;
    while 0 < k && less(x, s[k - 1])
      invariant 0 <= k <= |s|
      invariant k < |s| ==> less(x, s[k])
    {
      k := k - 1;
    }
    r := s[..k] + [x] + s[k..];
    assert s == s[..k] + s[k..];
    InsertedInOrder(s, k, x, less);
  }

  lemma InsertedInOrder<T>(s: seq<T>, k: nat, x: T, less: (T, T) -> bool)
    requires NeighboursOrdered(less, s) && k <= |s|
    requires 0 < k ==> !less(x, s[k - 1])
    requires k < |s| ==> !less(s[k], x)
    ensures NeighboursOrdered(less, s[..k] + [x] + s[k..])
  {
    var r := s[..k] + [x] + s[k..];
    forall i | 0 < i < |r|
      ensures !less(r[i], r[i - 1])
    {
      if i < k {
        assert !less(s[i], s[i - 1]);
      } else if i > k + 1 {
        assert !less(s[i - 1], s[i - 2]);
      }
    }
  }

  /** Elements in order stay in order across a third. */
  ghost predicate WeakOn<T>(less: (T, T) -> bool, elems: seq<T>) {
    forall x, y, z | x in elems && y in elems && z in elems && !less(y, x) && !less(z, y) :: !less(z, x)
  }

  lemma {:induction false} WeakNeighboursOrderedIsSorted<T>(less: (T, T) -> bool, s: seq<T>)
    requires WeakOn(less, s) && NeighboursOrdered(less, s)
    ensures Sorted(less, s)
  {
    if |s| > 1 {
      var n := |s| - 1;
      var front := s[..n];
      WeakNeighboursOrderedIsSorted(less, front);
      forall i, j | 0 <= i < j < |s|
        ensures !less(s[j], s[i])
      {
        if j < n {
          assert !less(front[j], front[i]);
        } else if i < n - 1 {
          assert !less(front[n - 1], front[i]);
          assert !less(s[n], s[n - 1]);
        }
      }
    }
  }

  lemma NeighboursOrderedIsSorted<T>(less: (T, T) -> bool, s: seq<T>)
    requires StrictTotalOn(less, s)
    requires NeighboursOrdered(less, s)
    ensures Sorted(less, s)
  {
    WeakNeighboursOrderedIsSorted(less, s);
  }

  /** Two duplicate-free lists with the same members, sorted by an order that is strict and total
      on them, are the same list. */
  lemma {:induction false} SortedListsAgree<T>(less: (T, T) -> bool, a: seq<T>, b: seq<T>)
    requires StrictTotalOn(less, a)
    requires NoDuplicates(a) && NoDuplicates(b)
    requires Sorted(less, a) && Sorted(less, b)
    requires forall x :: x in a <==> x in b
    ensures a == b
  {
    if |a| + |b| > 0 {
      var some := if a == [] then b[0] else a[0];
      assert some in a && some in b;
      assert a[0] in b && b[0] in a;
      assert a[0] == b[0];
      forall x
        ensures x in a[1..] <==> x in b[1..]
      {
        assert x in a <==> x == a[0] || x in a[1..];
        assert x in b <==> x == b[0] || x in b[1..];
      }
      assert forall x | x in a[1..] :: x in a;
      SortedListsAgree(less, a[1..], b[1..]);
      assert a == [a[0]] + a[1..] && b == [b[0]] + b[1..];
    }
  }

  lemma {:induction false} PermutationKeepsNoDuplicates<T>(a: seq<T>, b: seq<T>)
    requires NoDuplicates(a) && multiset(a) == multiset(b)
    ensures NoDuplicates(b)
  {
    if i, j :| 0 <= i < j < |b| && b[i] == b[j] {
      assert b == b[..i] + [b[i]] + b[i + 1..j] + [b[j]] + b[j + 1..];
      assert multiset(b)[b[i]] >= 2;
      OccursOnce(a, b[i]);
    }
  }

  lemma {:induction false} OccursOnce<T>(a: seq<T>, x: T)
    requires NoDuplicates(a)
    ensures multiset(a)[x] <= 1
  {
    if a != [] {
      assert a == [a[0]] + a[1..];
      OccursOnce(a[1..], x);
    }
  }

  lemma OneRemoved<T>(s: seq<T>, at: nat)
    requires at < |s|
    ensures multiset(s[..at] + s[at + 1..]) == multiset(s) - multiset{s[at]}
  {
    assert s == s[..at] + [s[at]] + s[at + 1..];
  }

  lemma SplitAround<T>(s: seq<T>, at: nat)
    requires at < |s|
    ensures s == (s[..at] + [s[at]]) + s[at + 1..]
  {
  }

  lemma MovedToFront<T>(s: seq<T>, at: nat)
    requires at < |s|
    ensures multiset([s[at]] + (s[..at] + s[at + 1..])) == multiset(s)
    ensures forall x | x in s[..at] + s[at + 1..] :: x in s
  {
    OneRemoved(s, at);
    assert s[at] in multiset(s);
  }

  lemma TailStaysSorted<T>(less: (T, T) -> bool, s: seq<T>)
    requires s != [] && StrictTotalOn(less, s) && Sorted(less, s)
    ensures StrictTotalOn(less, s[1..]) && Sorted(less, s[1..])
    ensures forall x | x in s :: !less(x, s[0])
  {
    assert s == [s[0]] + s[1..];
    forall i, j | 0 <= i < j < |s[1..]|
      ensures !less(s[1..][j], s[1..][i])
    {
      assert !less(s[j + 1], s[i + 1]);
    }
  }

  /** Two sorted permutations of one list under an order that is strict and total on it are equal. */
  lemma {:induction false} SortedPermutationsAgree<T>(less: (T, T) -> bool, a: seq<T>, b: seq<T>)
    requires StrictTotalOn(less, a) && Sorted(less, a)
    requires StrictTotalOn(less, b) && Sorted(less, b)
    requires multiset(a) == multiset(b)
    ensures a == b
  {
    assert |a| == |multiset(a)| == |multiset(b)| == |b|;
    if a != [] {
      LeastIsFirst(less, a, b);
      TailStaysSorted(less, a);
      TailStaysSorted(less, b);
      SameTails(a, b);
      SortedPermutationsAgree(less, a[1..], b[1..]);
      assert a == [a[0]] + a[1..] && b == [b[0]] + b[1..];
    }
  }

  lemma LeastIsFirst<T>(less: (T, T) -> bool, a: seq<T>, b: seq<T>)
    requires a != [] && b != [] && multiset(a) == multiset(b)
    requires StrictTotalOn(less, a) && Sorted(less, a)
    requires StrictTotalOn(less, b) && Sorted(less, b)
    ensures a[0] == b[0]
  {
    TailStaysSorted(less, a);
    TailStaysSorted(less, b);
    assert a[0] in multiset(b) && b[0] in multiset(a);
  }

  lemma SameTails<T>(a: seq<T>, b: seq<T>)
    requires a != [] && b != [] && multiset(a) == multiset(b) && a[0] == b[0]
    ensures multiset(a[1..]) == multiset(b[1..])
  {
    assert a == [a[0]] + a[1..] && b == [b[0]] + b[1..];
    assert multiset(a[1..]) == multiset(a) - multiset{a[0]};
    assert multiset(b[1..]) == multiset(b) - multiset{b[0]};
  }

  ghost function Image<T, U>(f: T -> U, s: seq<T>): (r: seq<U>) {
    seq(|s|, i requires 0 <= i < |s| => f(s[i]))
  }

  /** Mapping commutes with reordering. */
  lemma {:induction false} ImagePermutes<T, U>(f: T -> U, s: seq<T>, t: seq<T>)
    requires multiset(s) == multiset(t)
    ensures multiset(Image(f, s)) == multiset(Image(f, t))
  {
    assert |s| == |multiset(s)| == |multiset(t)| == |t|;
    if s != [] {
      var n := |s| - 1;
      assert s[n] in multiset(t);
      var at :| 0 <= at < |t| && t[at] == s[n];
      OneRemoved(s, n);
      OneRemoved(t, at);
      assert s[..n] + s[n + 1..] == s[..n];
      var rest := t[..at] + t[at + 1..];
      ImagePermutes(f, s[..n], rest);
      OneMoreImage(f, s, n, s[..n]);
      OneMoreImage(f, t, at, rest);
    }
  }

  lemma OneMoreImage<T, U>(f: T -> U, s: seq<T>, at: nat, rest: seq<T>)
    requires at < |s| && rest == s[..at] + s[at + 1..]
    ensures multiset(Image(f, s)) == multiset(Image(f, rest)) + multiset{f(s[at])}
  {
    var m := Image(f, s);
    OneRemoved(m, at);
    assert m[..at] + m[at + 1..] == Image(f, rest);
    assert m[at] in multiset(m);
  }

  lemma Regrouped<T>(a: multiset<T>, b: multiset<T>, c: multiset<T>)
    ensures (a + b) + c == a + (b + c)
    ensures (a + b) + c == (a + c) + b
  {
  }

  /** The scan-and-return loop: the first position whose element passes the test, or the length. */
  method FirstIndex<T>(s: seq<T>, test: T -> bool) returns (at: nat)
    ensures at <= |s| && forall k | 0 <= k < at :: !test(s[k])
    ensures at < |s| ==> test(s[at])
  {
    for i := 0 to |s|
      invariant forall k | 0 <= k < i :: !test(s[k])
    {
      if test(s[i]) {
        return i;
      }
    }
    at := |s|;
  }
}
