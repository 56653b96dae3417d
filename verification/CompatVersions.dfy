/** Comparing add-on versions token by token (internal/compatcatalog/catalog.go). The code compares
    zero-padded strings; the meaning is a lexicographic order on words and numbers. */
module CompatVersions {
  import opened Text
  import opened Findings
  import opened Versions

  // ---- tokens ---------------------------------------------------------------------------------------------------

  predicate IsLetter(c: char) {
    'a' <= c <= 'z' || 'A' <= c <= 'Z'
  }

  predicate AllLetters(s: string) {
    forall i | 0 <= i < |s| :: IsLetter(s[i])
  }

  lemma SmallLettersMean(c: char)
    ensures 'a' <= c <= 'z' <==> c in "abcdefghijklmnopqrstuvwxyz"
  {
    var small := "abcdefghijklmnopqrstuvwxyz";
    assert forall k | 0 <= k < 26 :: small[k] as int == 97 + k;
    assert 'a' <= c <= 'z' ==> small[c as int - 97] == c;
  }

  lemma BigLettersMean(c: char)
    ensures 'A' <= c <= 'Z' <==> c in "ABCDEFGHIJKLMNOPQRSTUVWXYZ"
  {
    var big := "ABCDEFGHIJKLMNOPQRSTUVWXYZ";
    assert forall k | 0 <= k < 26 :: big[k] as int == 65 + k;
    assert 'A' <= c <= 'Z' ==> big[c as int - 65] == c;
  }

  /** The letters of a token. */
  lemma LetterMeans(c: char)
    ensures IsLetter(c) <==> c in "abcdefghijklmnopqrstuvwxyz" || c in "ABCDEFGHIJKLMNOPQRSTUVWXYZ"
  {
    SmallLettersMean(c);
    BigLettersMean(c);
  }

  /** A text of small letters is a token, and is in lower case. */
  lemma SmallLettersSettle(s: string)
    requires AllIn(s, "abcdefghijklmnopqrstuvwxyz")
    ensures AllLetters(s) && ToLower(s) == s
  {
    forall i | 0 <= i < |s|
      ensures 'a' <= s[i] <= 'z'
    {
      assert s[i] in s;
      SmallLettersMean(s[i]);
    }
  }

  /** One match of the token pattern: a run of digits or a run of letters. */
  predicate IsMatch(m: string) {
    m != "" && (AllDigits(m) || AllLetters(m))
  }

  function DigitRun(s: string): (n: nat)
    ensures n <= |s| && AllDigits(s[..n])
  {
    if s != [] && IsDigit(s[0]) then 1 + DigitRun(s[1..]) else 0
  }

  function LetterRun(s: string): (n: nat)
    ensures n <= |s| && AllLetters(s[..n])
  {
    if s != [] && IsLetter(s[0]) then 1 + LetterRun(s[1..]) else 0
  }

  /** `FindAllString` for the pattern `[0-9]+|[A-Za-z]+`. */
  function Matches(s: string): (ms: seq<string>)
    ensures forall m | m in ms :: IsMatch(m)
    decreases |s|
  {
    if s == [] then []
    else if IsDigit(s[0]) then [s[..DigitRun(s)]] + Matches(s[DigitRun(s)..])
    else if IsLetter(s[0]) then [s[..LetterRun(s)]] + Matches(s[LetterRun(s)..])
    else Matches(s[1..])
  }

  datatype TokenKind = TokenEmpty | TokenString | TokenNumber
  datatype Token = Token(kind: TokenKind, value: string)

  function Zeros(n: nat): string {
    if n == 0 then "" else "0" + Zeros(n - 1)
  }

  /** The format `%020d` of a number that is not negative. */
  function Pad20(n: nat): string {
    var text := NatText(n);
    if |text| < 20 then Zeros(20 - |text|) + text else text
  }

  /** The number a run of digits stands for; None for letters and for numbers beyond 64 bits. */
  function NumberIn(m: string): (n: Option<nat>)
    requires IsMatch(m)
    ensures n == Atoi(m)
    ensures n.Some? ==> n.value <= MAX_INT
  {
    if AllDigits(m) && DigitsValue(m) <= MAX_INT then Some(DigitsValue(m)) else None
  }

  function TokenOf(m: string): Token
    requires IsMatch(m)
  {
    match NumberIn(m) case Some(n) => Token(TokenNumber, Pad20(n)) case None => Token(TokenString, m)
  }

  function VersionMatches(version: string): (ms: seq<string>)
    ensures forall m | m in ms :: IsMatch(m)
  {
    Matches(ToLower(TrimSpace(version)))
  }

  function TokensOf(ms: seq<string>): seq<Token>
    requires forall m | m in ms :: IsMatch(m)
  {
    seq(|ms|, i requires 0 <= i < |ms| => TokenOf(ms[i]))
  }

  method VersionTokens(version: string) returns (tokens: seq<Token>)
    ensures tokens == TokensOf(VersionMatches(version))
  {
    var ms := VersionMatches(version);
    tokens := [];
    for i := 0 to |ms|
      invariant |tokens| == i && forall k | 0 <= k < i :: tokens[k] == TokenOf(ms[k])
    {
      match NumberIn(ms[i]) {
        case Some(n) => tokens := tokens + [Token(TokenNumber, Pad20(n))];
        case None => tokens := tokens + [Token(TokenString, ms[i])];
      }
    }
  }

  // ---- the meaning of a version -------------------------------------------------------------------------------------

  datatype Part = Word(text: string) | Number(n: nat)

  function PartOf(m: string): Part
    requires IsMatch(m)
  {
    match NumberIn(m) case Some(n) => Number(n) case None => Word(m)
  }

  function PartsOf(ms: seq<string>): seq<Part>
    requires forall m | m in ms :: IsMatch(m)
  {
    seq(|ms|, i requires 0 <= i < |ms| => PartOf(ms[i]))
  }

  function Parts(version: string): seq<Part> {
    PartsOf(VersionMatches(version))
  }

  /** Words before numbers; words by text, numbers by value. */
  predicate PartLess(p: Part, q: Part) {
    match (p, q)
    case (Word(s), Word(t)) => StrLess(s, t)
    case (Word(_), Number(_)) => true
    case (Number(_), Word(_)) => false
    case (Number(m), Number(n)) => m < n
  }

  /** Lexicographic, a proper prefix first. */
  function Order(x: seq<Part>, y: seq<Part>): int {
    if x == [] && y == [] then 0
    else if x == [] then -1
    else if y == [] then 1
    else if x[0] == y[0] then Order(x[1..], y[1..])
    else if PartLess(x[0], y[0]) then -1 else 1
  }

  /** What `CompareVersions` computes. */
  function VersionOrder(a: string, b: string): int {
    Order(Parts(a), Parts(b))
  }

  // ---- padding ------------------------------------------------------------------------------------------------------

  lemma {:induction false} LastCharDecides(a: string, b: string)
    requires |a| == |b| > 0
    ensures var n := |a| - 1;
            StrLess(a, b) <==> StrLess(a[..n], b[..n]) || (a[..n] == b[..n] && a[n] < b[n])
  {
    var n := |a| - 1;
    if n > 0 {
      var x, y := a[..n], b[..n];
      LastCharDecides(a[1..], b[1..]);
      assert a[1..][..n - 1] == x[1..] && b[1..][..n - 1] == y[1..];
      assert a[1..][n - 1] == a[n] && b[1..][n - 1] == b[n];
      SameHeadAndTail(x, y);
    }
  }

  lemma SameHeadAndTail(x: string, y: string)
    requires |x| == |y| > 0
    ensures x == y <==> x[0] == y[0] && x[1..] == y[1..]
  {
    assert x == [x[0]] + x[1..] && y == [y[0]] + y[1..];
  }

  /** Digit strings of one length sort like their values. */
  lemma {:induction false} EqualLengthOrder(a: string, b: string)
    requires |a| == |b| && AllDigits(a) && AllDigits(b)
    ensures StrLess(a, b) <==> DigitsValue(a) < DigitsValue(b)
    ensures a == b <==> DigitsValue(a) == DigitsValue(b)
  {
    if a != [] {
      var n := |a| - 1;
      EqualLengthOrder(a[..n], b[..n]);
      LastCharDecides(a, b);
      assert a == a[..n] + [a[n]] && b == b[..n] + [b[n]];
    }
  }

  lemma {:induction false} LeadingZeros(k: nat, s: string)
    requires AllDigits(s)
    ensures AllDigits(Zeros(k) + s) && |Zeros(k) + s| == k + |s| && DigitsValue(Zeros(k) + s) == DigitsValue(s)
  {
    ZerosAreDigits(k);
    if s != [] {
      LeadingZeros(k, s[..|s| - 1]);
      var t := Zeros(k) + s;
      assert t[..|t| - 1] == Zeros(k) + s[..|s| - 1];
    } else {
      assert Zeros(k) + s == Zeros(k);
    }
  }

  lemma {:induction false} ZerosAreDigits(k: nat)
    ensures |Zeros(k)| == k && AllDigits(Zeros(k)) && DigitsValue(Zeros(k)) == 0
    ensures k > 0 ==> Zeros(k)[..k - 1] == Zeros(k - 1)
  {
    if k > 0 {
      ZerosAreDigits(k - 1);
      if k > 1 {
        assert Zeros(k)[..k - 1] == "0" + Zeros(k - 1)[..k - 2];
      }
    }
  }

  function Pow10(k: nat): nat {
    if k == 0 then 1 else 10 * Pow10(k - 1)
  }

  lemma {:induction false} TextLength(n: nat, k: nat)
    requires k > 0 && n < Pow10(k)
    ensures |NatText(n)| <= k
  {
    if n >= 10 {
      TextLength(n / 10, k - 1);
    }
  }

  /** Padding to twenty digits makes string order numeric order, for every number that fits 64 bits. */
  lemma PaddingKeepsOrder(m: nat, n: nat)
    requires m <= MAX_INT && n <= MAX_INT
    ensures StrLess(Pad20(m), Pad20(n)) <==> m < n
    ensures Pad20(m) == Pad20(n) <==> m == n
    ensures Pad20(m) != "" && AllDigits(Pad20(m))
  {
    PaddedValue(m);
    PaddedValue(n);
    EqualLengthOrder(Pad20(m), Pad20(n));
  }

  lemma PaddedValue(n: nat)
    requires n <= MAX_INT
    ensures |Pad20(n)| == 20 && AllDigits(Pad20(n)) && DigitsValue(Pad20(n)) == n
  {
    assert Pow10(5) == 100_000;
    assert Pow10(10) == 10_000_000_000;
    assert Pow10(15) == 1_000_000_000_000_000;
    assert Pow10(19) == 10_000_000_000_000_000_000;
    TextLength(n, 19);
    NatTextReads(n);
    LeadingZeros(20 - |NatText(n)|, NatText(n));
  }

  // ---- the comparison loop ------------------------------------------------------------------------------------------

  /** One round of the loop. */
  function TokenOrder(a: Token, b: Token): int {
    if a.kind != b.kind && a.kind == TokenNumber then 1
    else if a.kind != b.kind && b.kind == TokenNumber then -1
    else if a.value != b.value then if StrLess(a.value, b.value) then -1 else 1
    else 0
  }

  lemma TokensOrderLikeParts(m: string, n: string)
    requires IsMatch(m) && IsMatch(n)
    ensures var p, q := PartOf(m), PartOf(n);
            TokenOrder(TokenOf(m), TokenOf(n)) == if p == q then 0 else if PartLess(p, q) then -1 else 1
  {
    if NumberIn(m).Some? && NumberIn(n).Some? {
      PaddingKeepsOrder(NumberIn(m).value, NumberIn(n).value);
    }
  }

  lemma EmptyComesFirst(m: string)
    requires IsMatch(m)
    ensures TokenOrder(Token(TokenEmpty, ""), TokenOf(m)) == -1
    ensures TokenOrder(TokenOf(m), Token(TokenEmpty, "")) == 1
  {
  }

  ghost predicate AgreeUpTo(x: seq<Part>, y: seq<Part>, i: nat) {
    i <= |x| && i <= |y| && forall k | 0 <= k < i :: x[k] == y[k]
  }

  lemma {:induction false} SkipCommon(x: seq<Part>, y: seq<Part>, i: nat)
    requires AgreeUpTo(x, y, i)
    ensures Order(x, y) == Order(x[i..], y[i..])
  {
    if i > 0 {
      SkipCommon(x[1..], y[1..], i - 1);
      assert x[1..][i - 1..] == x[i..] && y[1..][i - 1..] == y[i..];
    } else {
      assert x[0..] == x && y[0..] == y;
    }
  }

  function TokenAt(s: seq<Token>, i: nat): Token {
    if i < |s| then s[i] else Token(TokenEmpty, "")
  }

  function Max(m: nat, n: nat): nat {
    if n > m then n else m
  }

  /** The outcome of the rounds from `i` on. */
  ghost function RoundsFrom(s: seq<Token>, t: seq<Token>, i: nat): int
    decreases Max(|s|, |t|) - i
  {
    if i >= Max(|s|, |t|) then 0
    else
      var o := TokenOrder(TokenAt(s, i), TokenAt(t, i));
      if o != 0 then o else RoundsFrom(s, t, i + 1)
  }

  /** A round that finds no difference has seen equal parts; a round that finds one decides. */
  lemma Round(ms: seq<string>, ns: seq<string>, i: nat)
    requires (forall m | m in ms :: IsMatch(m)) && forall n | n in ns :: IsMatch(n)
    requires i < Max(|ms|, |ns|) && AgreeUpTo(PartsOf(ms), PartsOf(ns), i)
    ensures var o := TokenOrder(TokenAt(TokensOf(ms), i), TokenAt(TokensOf(ns), i));
            && (o == 0 ==> i < |ms| && i < |ns| && PartsOf(ms)[i] == PartsOf(ns)[i])
            && (o != 0 ==> Order(PartsOf(ms), PartsOf(ns)) == o)
  {
    SkipCommon(PartsOf(ms), PartsOf(ns), i);
    if i < |ms| && i < |ns| {
      TokensOrderLikeParts(ms[i], ns[i]);
    } else {
      EmptyComesFirst(if i < |ms| then ms[i] else ns[i]);
    }
  }

  lemma {:induction false} RoundsFollowOrder(ms: seq<string>, ns: seq<string>, i: nat)
    requires (forall m | m in ms :: IsMatch(m)) && forall n | n in ns :: IsMatch(n)
    requires AgreeUpTo(PartsOf(ms), PartsOf(ns), i)
    ensures RoundsFrom(TokensOf(ms), TokensOf(ns), i) == Order(PartsOf(ms), PartsOf(ns))
    decreases Max(|ms|, |ns|) - i
  {
    if i < Max(|ms|, |ns|) {
      Round(ms, ns, i);
      if TokenOrder(TokenAt(TokensOf(ms), i), TokenAt(TokensOf(ns), i)) == 0 {
        RoundsFollowOrder(ms, ns, i + 1);
      }
    } else {
      SkipCommon(PartsOf(ms), PartsOf(ns), i);
    }
  }

  /** `CompareVersions` is the lexicographic order on the parts. */
  method CompareVersions(a: string, b: string) returns (c: int)
    ensures c == VersionOrder(a, b)
  {
    var s := VersionTokens(a);
    var t := VersionTokens(b);
    c := CompareTokens(s, t);
    RoundsFollowOrder(VersionMatches(a), VersionMatches(b), 0);
  }

  method CompareTokens(s: seq<Token>, t: seq<Token>) returns (c: int)
    ensures c == RoundsFrom(s, t, 0)
  {
    var max := if |t| > |s| then |t| else |s|;
    for i := 0 to max
      invariant RoundsFrom(s, t, 0) == RoundsFrom(s, t, i)
    {
      var v := if i < |s| then s[i] else Token(TokenEmpty, "");
      var w := if i < |t| then t[i] else Token(TokenEmpty, "");
      if TokenOrder(v, w) != 0 {
        return TokenOrder(v, w);
      }
    }
    c := 0;
  }

  // ---- a total preorder ---------------------------------------------------------------------------------------------

  lemma PartLaws(p: Part, q: Part, r: Part)
    ensures !PartLess(p, p)
    ensures p == q || PartLess(p, q) || PartLess(q, p)
    ensures PartLess(p, q) ==> !PartLess(q, p)
    ensures PartLess(p, q) && PartLess(q, r) ==> PartLess(p, r)
  {
    StrLessLaws();
  }

  /** Zero means equal parts, and swapping the arguments flips the sign. */
  lemma {:induction false} OrderIsAntisymmetric(x: seq<Part>, y: seq<Part>)
    ensures Order(x, y) == 0 <==> x == y
    ensures Order(x, y) == -Order(y, x)
    ensures -1 <= Order(x, y) <= 1
  {
    if x != [] && y != [] {
      PartLaws(x[0], y[0], x[0]);
      OrderIsAntisymmetric(x[1..], y[1..]);
      assert x == [x[0]] + x[1..] && y == [y[0]] + y[1..];
    }
  }

  lemma {:induction false} OrderIsTransitive(x: seq<Part>, y: seq<Part>, z: seq<Part>)
    requires Order(x, y) <= 0 && Order(y, z) <= 0
    ensures Order(x, z) <= 0
  {
    if x != [] && y != [] && z != [] {
      PartLaws(x[0], y[0], z[0]);
      PartLaws(y[0], z[0], x[0]);
      if x[0] == y[0] == z[0] {
        OrderIsTransitive(x[1..], y[1..], z[1..]);
      }
    }
  }

  /** The comparison of versions is a total preorder: two versions tie exactly when their parts agree. */
  lemma VersionOrderIsTotalPreorder(a: string, b: string, c: string)
    ensures VersionOrder(a, b) == -VersionOrder(b, a)
    ensures VersionOrder(a, b) == 0 <==> Parts(a) == Parts(b)
    ensures VersionOrder(a, b) <= 0 || VersionOrder(b, a) <= 0
    ensures VersionOrder(a, b) <= 0 && VersionOrder(b, c) <= 0 ==> VersionOrder(a, c) <= 0
  {
    var x, y, z := Parts(a), Parts(b), Parts(c);
    OrderIsAntisymmetric(x, y);
    if Order(x, y) <= 0 && Order(y, z) <= 0 {
      OrderIsTransitive(x, y, z);
    }
  }

  /** A version that extends another is never older: a release suffix counts as newer. */
  lemma {:induction false} ExtensionIsNewer(x: seq<Part>, more: seq<Part>)
    ensures Order(x, x + more) <= 0
    ensures more != [] ==> Order(x, x + more) < 0
  {
    if x != [] {
      assert (x + more)[1..] == x[1..] + more;
      ExtensionIsNewer(x[1..], more);
    }
  }

  // ---- suffixes ----------------------------------------------------------------------------------------------------

  /** Two characters that belong to one token. */
  predicate SameRun(c: char, d: char) {
    (IsDigit(c) && IsDigit(d)) || (IsLetter(c) && IsLetter(d))
  }

  /** No token runs across the seam between the two texts. */
  predicate StartsNewToken(v: string, suffix: string) {
    v == "" || suffix == "" || !SameRun(v[|v| - 1], suffix[0])
  }

  lemma {:induction false} RunsStopAtSeam(v: string, suffix: string)
    requires v != "" && StartsNewToken(v, suffix)
    ensures IsDigit(v[0]) ==> DigitRun(v + suffix) == DigitRun(v)
    ensures IsLetter(v[0]) ==> LetterRun(v + suffix) == LetterRun(v)
  {
    var s := v + suffix;
    assert s[1..] == v[1..] + suffix;
    if v[1..] != "" {
      RunsStopAtSeam(v[1..], suffix);
    } else {
      assert s[1..] == suffix;
    }
  }

  /** How much of a text its first step consumes, and the token found there, if any. */
  function HeadLength(s: string): (n: nat)
    requires s != ""
    ensures 0 < n <= |s|
  {
    if IsDigit(s[0]) then DigitRun(s) else if IsLetter(s[0]) then LetterRun(s) else 1
  }

  function HeadMatch(s: string): seq<string>
    requires s != ""
  {
    if IsDigit(s[0]) || IsLetter(s[0]) then [s[..HeadLength(s)]] else []
  }

  lemma MatchesStep(s: string)
    requires s != ""
    ensures Matches(s) == HeadMatch(s) + Matches(s[HeadLength(s)..])
  {
  }

  lemma HeadStopsAtSeam(v: string, suffix: string)
    requires v != "" && StartsNewToken(v, suffix)
    ensures HeadLength(v + suffix) == HeadLength(v) && HeadMatch(v + suffix) == HeadMatch(v)
    ensures (v + suffix)[HeadLength(v)..] == v[HeadLength(v)..] + suffix
    ensures StartsNewToken(v[HeadLength(v)..], suffix)
  {
    RunsStopAtSeam(v, suffix);
    assert (v + suffix)[..HeadLength(v)] == v[..HeadLength(v)];
  }

  /** At a seam between tokens the tokens of the whole are those of its halves. */
  lemma {:induction false} MatchesAcrossSeam(v: string, suffix: string)
    requires StartsNewToken(v, suffix)
    ensures Matches(v + suffix) == Matches(v) + Matches(suffix)
    decreases |v|
  {
    if v == "" {
      assert v + suffix == suffix;
    } else {
      HeadStopsAtSeam(v, suffix);
      MatchesStep(v);
      MatchesStep(v + suffix);
      MatchesAcrossSeam(v[HeadLength(v)..], suffix);
    }
  }

  lemma PartsOfConcat(ms: seq<string>, ns: seq<string>)
    requires (forall m | m in ms :: IsMatch(m)) && forall n | n in ns :: IsMatch(n)
    ensures PartsOf(ms + ns) == PartsOf(ms) + PartsOf(ns)
  {
  }

  lemma SeamSurvivesLowering(v: string, suffix: string)
    requires StartsNewToken(v, suffix)
    ensures StartsNewToken(ToLower(v), ToLower(suffix))
    ensures ToLower(v + suffix) == ToLower(v) + ToLower(suffix)
  {
  }

  /** A version followed by a suffix that starts a new token, such as "-eksbuild.1" or ".1", has the
      parts of the version and then those of the suffix, so it never counts as older; and as newer
      when the suffix holds a letter run or a number at all. */
  lemma SuffixIsNewer(v: string, suffix: string)
    requires NoOuterSpace(v) && NoOuterSpace(suffix) && StartsNewToken(v, suffix)
    ensures Parts(v + suffix) == Parts(v) + Parts(suffix)
    ensures VersionOrder(v, v + suffix) <= 0
    ensures VersionOrder(v, v + suffix) < 0 <==> VersionMatches(suffix) != []
  {
    TrimSpaceIs(v);
    TrimSpaceIs(suffix);
    TrimSpaceIs(v + suffix);
    SeamSurvivesLowering(v, suffix);
    MatchesAcrossSeam(ToLower(v), ToLower(suffix));
    PartsOfConcat(VersionMatches(v), VersionMatches(suffix));
    ExtensionIsNewer(Parts(v), Parts(suffix));
    OrderIsAntisymmetric(Parts(v), Parts(v + suffix));
  }

  // ---- what decides ------------------------------------------------------------------------------------------------

  lemma {:induction false} FirstDifferenceDecides(p: seq<Part>, q: Part, x: seq<Part>, r: Part, y: seq<Part>)
    requires q != r
    ensures Order(p + [q] + x, p + [r] + y) == Order([q], [r])
  {
    var a, b := p + [q] + x, p + [r] + y;
    if p != [] {
      assert a[1..] == p[1..] + [q] + x && b[1..] == p[1..] + [r] + y;
      FirstDifferenceDecides(p[1..], q, x, r, y);
    }
  }

  /** Where two versions first differ a number beats a word, the larger number beats the smaller and the
      later word the earlier. */
  lemma FirstDifferenceMeans(a: string, b: string, p: seq<Part>, q: Part, x: seq<Part>, r: Part, y: seq<Part>)
    requires Parts(a) == p + [q] + x && Parts(b) == p + [r] + y
    ensures q.Word? && r.Number? ==> VersionOrder(a, b) < 0 && VersionOrder(b, a) > 0
    ensures q.Number? && r.Number? && q.n < r.n ==> VersionOrder(a, b) < 0 && VersionOrder(b, a) > 0
    ensures q.Word? && r.Word? && StrLess(q.text, r.text) ==> VersionOrder(a, b) < 0 && VersionOrder(b, a) > 0
  {
    StrLessLaws();
    OrderIsAntisymmetric(Parts(a), Parts(b));
    if q != r {
      FirstDifferenceDecides(p, q, x, r, y);
    }
  }

  lemma {:induction false} WholeRun(m: string)
    requires IsMatch(m)
    ensures AllDigits(m) ==> DigitRun(m) == |m|
    ensures AllLetters(m) ==> LetterRun(m) == |m|
    ensures Matches(m) == [m]
  {
    if |m| > 1 {
      WholeRun(m[1..]);
    } else {
      assert m[1..] == "";
    }
    assert m[..|m|] == m && m[|m|..] == "";
  }

  /** A separator that is neither letter nor digit adds no token. */
  lemma SeparatedMatches(v: string, c: char, m: string)
    requires IsMatch(m) && !IsDigit(c) && !IsLetter(c)
    ensures Matches(v + [c] + m) == Matches(v) + [m]
  {
    var tail := [c] + m;
    assert tail[1..] == m;
    WholeRun(m);
    MatchesAcrossSeam(v, tail);
    assert v + [c] + m == v + tail;
  }

  /** A lower-case text that neither starts nor ends with a blank is compared as it stands. */
  lemma ComparedAsWritten(v: string)
    requires NoOuterSpace(v) && ToLower(v) == v
    ensures VersionMatches(v) == Matches(v)
  {
    TrimSpaceIs(v);
  }

  lemma SeparatedTokensAreOrdered(v: string, w: string, d: string)
    requires v != "" && NoOuterSpace(v) && ToLower(v) == v
    requires w != "" && AllLetters(w) && ToLower(w) == w && d != "" && AllDigits(d) && DigitsValue(d) <= MAX_INT
    ensures VersionOrder(v, v + "-" + w) < 0
    ensures VersionOrder(v + "-" + w, v + "." + d) < 0
    ensures VersionOrder(v, v + "." + d) < 0
  {
    var rc, patch := v + ['-'] + w, v + ['.'] + d;
    SeparatedMatches(v, '-', w);
    SeparatedMatches(v, '.', d);
    LowerJoined(v, '-', w);
    LowerJoined(v, '.', d);
    ComparedAsWritten(v);
    ComparedAsWritten(rc);
    ComparedAsWritten(patch);
    PartsOfConcat(Matches(v), [w]);
    PartsOfConcat(Matches(v), [d]);
    ExtensionIsNewer(Parts(v), [Word(w)]);
    ExtensionIsNewer(Parts(v), [Number(DigitsValue(d))]);
    assert PartsOf([w]) == [Word(w)] && PartsOf([d]) == [Number(DigitsValue(d))];
    FirstDifferenceMeans(rc, patch, Parts(v), Word(w), [], Number(DigitsValue(d)), []);
  }

  /** A release candidate stands between its version and the next patch: "9", "9-rc", "9.1". For every
      lower-case version without outer blanks, letter run and number. */
  lemma CandidateStandsBetween(v: string, w: string, d: string)
    requires v != "" && NoOuterSpace(v) && ToLower(v) == v && w != "" && AllIn(w, "abcdefghijklmnopqrstuvwxyz")
    requires d != "" && AllIn(d, "0123456789") && AllDigits(d) && DigitsValue(d) <= 0x7FFF_FFFF_FFFF_FFFF
    ensures VersionOrder(v, v + "-" + w) < 0
    ensures VersionOrder(v + "-" + w, v + "." + d) < 0
    ensures VersionOrder(v, v + "." + d) < 0
  {
    SmallLettersSettle(w);
    SeparatedTokensAreOrdered(v, w, d);
  }

  lemma LowerJoined(v: string, c: char, m: string)
    requires v != "" && NoOuterSpace(v) && ToLower(v) == v && m != "" && ToLower(m) == m
    requires (AllDigits(m) || AllLetters(m)) && ToLowerChar(c) == c
    ensures NoOuterSpace(v + [c] + m) && ToLower(v + [c] + m) == v + [c] + m
  {
    var s := v + [c] + m;
    assert s[0] == v[0] && s[|s| - 1] == m[|m| - 1];
    forall i | 0 <= i < |s|
      ensures ToLowerChar(s[i]) == s[i]
    {
      if i < |v| {
        assert ToLower(v)[i] == v[i];
      } else if i > |v| {
        assert ToLower(m)[i - |v| - 1] == m[i - |v| - 1];
      }
    }
  }
}
