/** The string operations the decision engine relies on. Strings are ASCII. */
module Text {

  /** Go's `<` on strings. */
  predicate StrLess(a: string, b: string) {
    b != [] && (a == [] || a[0] < b[0] || (a[0] == b[0] && StrLess(a[1..], b[1..])))
  }

  lemma {:induction false} StrLessIrreflexive(a: string)
    ensures !StrLess(a, a)
  {
    if a != [] {
      StrLessIrreflexive(a[1..]);
    }
  }

  lemma {:induction false} StrLessConnected(a: string, b: string)
    ensures a == b || StrLess(a, b) || StrLess(b, a)
  {
    if a != [] && b != [] && a[0] == b[0] {
      StrLessConnected(a[1..], b[1..]);
      assert a == [a[0]] + a[1..] && b == [b[0]] + b[1..];
    }
  }

  lemma {:induction false} StrLessTransitive(a: string, b: string, c: string)
    requires StrLess(a, b) && StrLess(b, c)
    ensures StrLess(a, c)
  {
    if a != [] && a[0] == b[0] == c[0] {
      StrLessTransitive(a[1..], b[1..], c[1..]);
    }
  }

  /** The three laws at once, for proofs about comparators that end in strings. */
  lemma StrLessLaws()
    ensures forall a: string {:trigger StrLess(a, a)} :: !StrLess(a, a)
    ensures forall a: string, b: string {:trigger StrLess(a, b)} :: a == b || StrLess(a, b) || StrLess(b, a)
    ensures forall a: string, b: string, c: string {:trigger StrLess(a, b), StrLess(b, c)} ::
              StrLess(a, b) && StrLess(b, c) ==> StrLess(a, c)
  {
    forall a: string { StrLessIrreflexive(a); }
    forall a: string, b: string { StrLessConnected(a, b); }
    forall a: string, b: string, c: string | StrLess(a, b) && StrLess(b, c) { StrLessTransitive(a, b, c); }
  }

  /** The text a comparison of `a` with `b` is decided by: a common start, and then either the end of
      `a` alone or a smaller character. */
  ghost predicate SmallerAfter(a: string, b: string, k: nat) {
    && k <= |a| && k < |b| && a[..k] == b[..k]
    && (k == |a| || a[k] < b[k])
  }

  /** `a` sorts before `b` exactly when it is a proper prefix of `b` or has the smaller character at the
      first place where the two differ. */
  lemma {:induction false} StrLessMeans(a: string, b: string)
    ensures StrLess(a, b) <==> exists k: nat :: SmallerAfter(a, b, k)
  {
    if a == [] || b == [] || a[0] != b[0] {
      if b != [] && (a == [] || a[0] < b[0]) {
        assert SmallerAfter(a, b, 0);
      }
      assert forall k: nat | SmallerAfter(a, b, k) :: k == 0 || (a[..k][0] == a[0] && b[..k][0] == b[0]);
    } else {
      StrLessMeans(a[1..], b[1..]);
      if k: nat :| SmallerAfter(a[1..], b[1..], k) {
        assert a[..k + 1] == [a[0]] + a[1..][..k] && b[..k + 1] == [b[0]] + b[1..][..k];
        assert SmallerAfter(a, b, k + 1);
      }
      if k: nat :| SmallerAfter(a, b, k) {
        assert a[1..][..k - 1] == a[..k][1..] && b[1..][..k - 1] == b[..k][1..];
        assert SmallerAfter(a[1..], b[1..], k - 1);
      }
    }
  }

  /** Three texts that identify something, compared one after the other. */
  type TextKey = (string, string, string)

  predicate KeyLess(a: TextKey, b: TextKey) {
    if a.0 != b.0 then StrLess(a.0, b.0)
    else if a.1 != b.1 then StrLess(a.1, b.1)
    else StrLess(a.2, b.2)
  }

  lemma KeyLessLaws()
    ensures forall a: TextKey {:trigger KeyLess(a, a)} :: !KeyLess(a, a)
    ensures forall a: TextKey, b: TextKey {:trigger KeyLess(a, b)} :: a == b || KeyLess(a, b) || KeyLess(b, a)
    ensures forall a: TextKey, b: TextKey, c: TextKey {:trigger KeyLess(a, b), KeyLess(b, c)} ::
              KeyLess(a, b) && KeyLess(b, c) ==> KeyLess(a, c)
  {
    StrLessLaws();
  }

  predicate HasPrefix(s: string, prefix: string) {
    |prefix| <= |s| && s[..|prefix|] == prefix
  }

  predicate HasSuffix(s: string, suffix: string) {
    |suffix| <= |s| && s[|s| - |suffix|..] == suffix
  }

  function TrimPrefix(s: string, prefix: string): string {
    if HasPrefix(s, prefix) then s[|prefix|..] else s
  }

  predicate IsSpace(c: char) {
    c in [' ', '\t', '\n', '\r', '\U{0B}', '\U{0C}']
  }

  function TrimLeft(s: string): string {
    if s != [] && IsSpace(s[0]) then TrimLeft(s[1..]) else s
  }

  function TrimRight(s: string): string {
    if s != [] && IsSpace(s[|s| - 1]) then TrimRight(s[..|s| - 1]) else s
  }

  function TrimSpace(s: string): string {
    TrimRight(TrimLeft(s))
  }

  function ToLowerChar(c: char): char {
    if 'A' <= c <= 'Z' then (c as int + 32) as char else c
  }

  function ToLower(s: string): string {
    seq(|s|, i requires 0 <= i < |s| => ToLowerChar(s[i]))
  }

  function Join(parts: seq<string>, sep: string): string {
    if parts == [] then "" else if |parts| == 1 then parts[0] else parts[0] + sep + Join(parts[1..], sep)
  }

  /** The texts of all elements, one after the other. */
  function Concat<T>(text: T -> string, xs: seq<T>): string {
    if xs == [] then "" else Concat(text, xs[..|xs| - 1]) + text(xs[|xs| - 1])
  }

  lemma {:induction false} ConcatFromFront<T>(text: T -> string, xs: seq<T>)
    requires xs != []
    ensures Concat(text, xs) == text(xs[0]) + Concat(text, xs[1..])
  {
    var n := |xs| - 1;
    if n > 0 {
      ConcatFromFront(text, xs[..n]);
      assert xs[..n][1..] == xs[1..][..n - 1];
    }
  }

  /** `strings.Split` by one character. */
  function Split(s: string, c: char): (parts: seq<string>)
    ensures parts != []
  {
    if s == [] then [[]]
    else
      var rest := Split(s[1..], c);
      if s[0] == c then [[]] + rest else [[s[0]] + rest[0]] + rest[1..]
  }

  lemma {:induction false} SplitWithout(a: string, c: char)
    requires c !in a
    ensures Split(a, c) == [a]
  {
    if a != [] {
      SplitWithout(a[1..], c);
      assert a == [a[0]] + a[1..];
    }
  }

  /** The text before the first separator is the first part. */
  lemma {:induction false} SplitFirst(a: string, c: char, rest: string)
    requires c !in a
    ensures Split(a + [c] + rest, c) == [a] + Split(rest, c)
  {
    var s := a + [c] + rest;
    if a == [] {
      assert s[1..] == rest;
    } else {
      assert s[1..] == a[1..] + [c] + rest;
      SplitFirst(a[1..], c, rest);
      assert a == [a[0]] + a[1..];
    }
  }

  // ---- normalising text twice ------------------------------------------------------------------

  lemma {:induction false} TrimLeftEnds(s: string)
    ensures TrimLeft(s) == "" || !IsSpace(TrimLeft(s)[0])
  {
    if s != [] && IsSpace(s[0]) {
      TrimLeftEnds(s[1..]);
    }
  }

  lemma {:induction false} TrimRightEnds(s: string)
    ensures var t := TrimRight(s); t == "" || (!IsSpace(t[|t| - 1]) && |t| <= |s| && t[0] == s[0])
  {
    if s != [] && IsSpace(s[|s| - 1]) {
      TrimRightEnds(s[..|s| - 1]);
    }
  }

  /** Trimming stops at a character that is no blank. */
  lemma {:induction false} TrimRightAfter(s: string, tail: string)
    requires s != "" && !IsSpace(s[|s| - 1])
    ensures TrimRight(s + tail) == s + TrimRight(tail)
  {
    var t := s + tail;
    if tail == "" {
      assert t == s;
    } else if IsSpace(tail[|tail| - 1]) {
      assert t[..|t| - 1] == s + tail[..|tail| - 1];
      TrimRightAfter(s, tail[..|tail| - 1]);
    }
  }

  ghost predicate NoOuterSpace(s: string) {
    s == "" || (!IsSpace(s[0]) && !IsSpace(s[|s| - 1]))
  }

  lemma TrimSpaceIs(s: string)
    ensures NoOuterSpace(TrimSpace(s))
    ensures NoOuterSpace(s) ==> TrimSpace(s) == s
    ensures NoOuterSpace(s) ==> TrimSpace(ToLower(s)) == ToLower(s)
    ensures ToLower(ToLower(s)) == ToLower(s)
  {
    TrimLeftEnds(s);
    TrimRightEnds(TrimLeft(s));
    assert forall c: char :: IsSpace(ToLowerChar(c)) <==> IsSpace(c);
    assert NoOuterSpace(s) ==> NoOuterSpace(ToLower(s));
    assert ToLower(ToLower(s)) == ToLower(s);
  }

  lemma NormalTextSettles(s: string)
    ensures TrimSpace(TrimSpace(s)) == TrimSpace(s)
    ensures ToLower(TrimSpace(ToLower(TrimSpace(s)))) == ToLower(TrimSpace(s))
  {
    TrimSpaceIs(s);
    TrimSpaceIs(TrimSpace(s));
  }

  // ---- what trimming, lower case and splitting do ----------------------------------------------

  ghost predicate AllIn(s: string, allowed: string) {
    forall c | c in s :: c in allowed
  }

  const BLANKS: string := " \t\n\r\U{0B}\U{0C}"

  lemma {:induction false} TrimLeftDrops(s: string) returns (l: string)
    ensures s == l + TrimLeft(s) && AllIn(l, BLANKS)
  {
    if s != [] && IsSpace(s[0]) {
      l := TrimLeftDrops(s[1..]);
      l := [s[0]] + l;
    } else {
      l := "";
    }
  }

  lemma {:induction false} TrimRightDrops(s: string) returns (r: string)
    ensures s == TrimRight(s) + r && AllIn(r, BLANKS)
  {
    if s != [] && IsSpace(s[|s| - 1]) {
      r := TrimRightDrops(s[..|s| - 1]);
      r := r + [s[|s| - 1]];
    } else {
      r := "";
    }
  }

  /** `t` is `s` without the blanks around it, and neither begins nor ends with one. */
  ghost predicate IsTrimOf(t: string, s: string) {
    && (exists l, r :: s == l + t + r && AllIn(l, BLANKS) && AllIn(r, BLANKS))
    && (t == "" || (t[0] !in BLANKS && t[|t| - 1] !in BLANKS))
  }

  /** Trimming takes the outer blanks away, all of them, and nothing else. */
  lemma TrimSpaceMeans(s: string)
    ensures IsTrimOf(TrimSpace(s), s)
  {
    var l := TrimLeftDrops(s);
    var r := TrimRightDrops(TrimLeft(s));
    TrimSpaceIs(s);
    assert s == l + TrimSpace(s) + r;
  }

  /** A text with anything but blanks in it is not trimmed to nothing. */
  lemma TrimKeepsText(s: string, t: string)
    requires IsTrimOf(t, s) && t != ""
    ensures TrimSpace(s) != ""
  {
    var l, r :| s == l + t + r && AllIn(l, BLANKS) && AllIn(r, BLANKS);
    assert t[0] in s;
    TrimSpaceMeans(s);
  }

  lemma {:induction false} LeftBlanksGo(l: string, t: string)
    requires AllIn(l, BLANKS)
    ensures TrimLeft(l + t) == TrimLeft(t)
  {
    if l == "" {
      assert l + t == t;
    } else {
      assert l[0] in l && (l + t)[1..] == l[1..] + t;
      LeftBlanksGo(l[1..], t);
    }
  }

  lemma {:induction false} RightBlanksGo(t: string, r: string)
    requires AllIn(r, BLANKS)
    ensures TrimRight(t + r) == TrimRight(t)
  {
    var n := |r| - 1;
    if r == "" {
      assert t + r == t;
    } else {
      assert r[n] in r && (t + r)[..|t| + n] == t + r[..n];
      RightBlanksGo(t, r[..n]);
    }
  }

  /** Blanks around a text that has none of its own are all that trimming takes away. */
  lemma PaddingIsTrimmed(l: string, t: string, r: string)
    requires AllIn(l, BLANKS) && AllIn(r, BLANKS) && NoOuterSpace(t)
    ensures TrimSpace(l + t + r) == t
  {
    assert l + t + r == l + (t + r);
    LeftBlanksGo(l, t + r);
    if t == "" {
      assert t + r == r && r == r + "";
      LeftBlanksGo(r, "");
    } else {
      assert TrimLeft(t + r) == t + r;
      RightBlanksGo(t, r);
    }
  }

  /** Lower-casing replaces each capital by its small letter and keeps everything else. */
  lemma ToLowerMeans(s: string, i: nat)
    requires i < |s|
    ensures |ToLower(s)| == |s|
    ensures forall k | 0 <= k < 26 :: s[i] == "ABCDEFGHIJKLMNOPQRSTUVWXYZ"[k] ==>
              ToLower(s)[i] == "abcdefghijklmnopqrstuvwxyz"[k]
    ensures s[i] !in "ABCDEFGHIJKLMNOPQRSTUVWXYZ" ==> ToLower(s)[i] == s[i]
  {
    var upper, lower := "ABCDEFGHIJKLMNOPQRSTUVWXYZ", "abcdefghijklmnopqrstuvwxyz";
    assert forall k | 0 <= k < 26 :: upper[k] as int == 65 + k && lower[k] as int == 97 + k;
    if 'A' <= s[i] <= 'Z' {
      assert upper[s[i] as int - 65] == s[i];
    }
  }

  lemma JoinAdds(first: string, rest: seq<string>, sep: string)
    requires rest != []
    ensures Join([first] + rest, sep) == first + sep + Join(rest, sep)
  {
    assert ([first] + rest)[1..] == rest;
  }

  lemma JoinExtends(x: string, parts: seq<string>, sep: string)
    requires parts != []
    ensures Join([x + parts[0]] + parts[1..], sep) == x + Join(parts, sep)
  {
    assert ([x + parts[0]] + parts[1..])[1..] == parts[1..];
  }

  lemma {:induction false} SplitPartsHoldNone(s: string, c: char)
    ensures forall part | part in Split(s, c) :: c !in part
  {
    if s != [] {
      SplitPartsHoldNone(s[1..], c);
    }
  }

  lemma JoinOfStep(c: char, rest: string, parts: seq<string>, first: char)
    requires parts != [] && Join(parts, [c]) == rest
    ensures Join(if first == c then [[]] + parts else [[first] + parts[0]] + parts[1..], [c]) == [first] + rest
  {
    if first == c {
      JoinAdds([], parts, [c]);
    } else {
      JoinExtends([first], parts, [c]);
    }
  }

  lemma {:induction false} JoinUndoesSplit(s: string, c: char)
    ensures Join(Split(s, c), [c]) == s
  {
    if s != [] {
      JoinUndoesSplit(s[1..], c);
      JoinOfStep(c, s[1..], Split(s[1..], c), s[0]);
      assert s == [s[0]] + s[1..];
    }
  }

  /** Splitting cuts at every separator: the parts hold none, and joined by it they are the text. */
  lemma SplitMeans(s: string, c: char)
    ensures Join(Split(s, c), [c]) == s
    ensures forall part | part in Split(s, c) :: c !in part
  {
    JoinUndoesSplit(s, c);
    SplitPartsHoldNone(s, c);
  }
}
