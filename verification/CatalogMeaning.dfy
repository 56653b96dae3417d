/** What the API catalog accepts, serves and lists in which order, over the texts and numbers of its
    entries (internal/apicatalog/versioned_catalog.go). */
module CatalogMeaning {
  import opened Orders
  import opened Text
  import opened Findings
  import opened Versions
  import opened ApiCatalog
  import opened ApiLookup

  // ---- version texts ----------------------------------------------------------------------------------

  ghost predicate IsNumeral(d: string) {
    d != "" && AllIn(d, "0123456789")
  }

  /** The text is "1." and a numeral of this value. */
  ghost predicate IsMinor(v: string, n: nat) {
    exists d :: IsNumeral(d) && v == "1." + d && AllDigits(d) && DigitsValue(d) == n
  }

  /** A version of the pattern is read as its minor, unless that exceeds 64 bits. */
  lemma VersionMeans(v: string)
    ensures ValidVersion(v) <==> exists n: nat :: IsMinor(v, n)
    ensures forall n: nat | IsMinor(v, n) ::
              MustParse(v) == if n <= 0x7FFF_FFFF_FFFF_FFFF then Some((1, n)) else None
  {
    if ValidVersion(v) {
      DigitsMean(v[2..]);
      assert v == "1." + v[2..];
      assert IsMinor(v, DigitsValue(v[2..]));
    }
    forall n: nat | IsMinor(v, n)
      ensures ValidVersion(v) && MustParse(v) == if n <= 0x7FFF_FFFF_FFFF_FFFF then Some((1, n)) else None
    {
      var d :| IsNumeral(d) && v == "1." + d && AllDigits(d) && DigitsValue(d) == n;
      assert v[2..] == d && v[..2] == "1.";
      ValidVersionParses(v);
    }
  }

  lemma {:induction false} AfterDigitsMeans(s: string)
    ensures exists d :: AllIn(d, "0123456789") && s == d + AfterDigits(s)
    ensures AfterDigits(s) == "" || !IsDigit(AfterDigits(s)[0])
  {
    if s != [] && IsDigit(s[0]) {
      AfterDigitsMeans(s[1..]);
      var d :| AllIn(d, "0123456789") && s[1..] == d + AfterDigits(s[1..]);
      DigitsMean([s[0]]);
      assert s[0] in [s[0]];
      assert s == ([s[0]] + d) + AfterDigits(s) && AllIn([s[0]] + d, "0123456789");
    } else {
      assert s == "" + AfterDigits(s) && AllIn("", "0123456789");
    }
  }

  lemma {:induction false} AfterDigitsStops(d: string, t: string)
    requires AllIn(d, "0123456789") && (t == "" || !IsDigit(t[0]))
    ensures AfterDigits(d + t) == t
  {
    if d == [] {
      assert d + t == t;
    } else {
      DigitsMean(d);
      assert (d + t)[1..] == d[1..] + t;
      AfterDigitsStops(d[1..], t);
    }
  }

  /** What may follow the number of an API version. */
  ghost predicate IsStability(t: string) {
    t == "" || exists e :: IsNumeral(e) && (t == "alpha" + e || t == "beta" + e)
  }

  /** An API version is "v", a numeral, and possibly "alpha" or "beta" with a numeral. */
  lemma APIVersionMeans(s: string)
    ensures ValidAPIVersion(s) <==> exists d, t :: IsNumeral(d) && IsStability(t) && s == "v" + d + t
  {
    if ValidAPIVersion(s) {
      var t := AfterDigits(s[1..]);
      AfterDigitsMeans(s[1..]);
      var d :| AllIn(d, "0123456789") && s[1..] == d + t;
      StabilityRead(t);
      assert s == "v" + d + t;
    }
    if d, t :| IsNumeral(d) && IsStability(t) && s == "v" + d + t {
      StabilityAccepted(t);
      assert s[1..] == d + t;
      AfterDigitsStops(d, t);
    }
  }

  lemma StabilityRead(t: string)
    requires t == "" || (HasPrefix(t, "alpha") && DigitsOnly(t[5..])) || (HasPrefix(t, "beta") && DigitsOnly(t[4..]))
    ensures IsStability(t)
  {
    if HasPrefix(t, "alpha") && DigitsOnly(t[5..]) {
      DigitsMean(t[5..]);
      assert t == "alpha" + t[5..] && IsNumeral(t[5..]);
    } else if HasPrefix(t, "beta") && DigitsOnly(t[4..]) {
      DigitsMean(t[4..]);
      assert t == "beta" + t[4..] && IsNumeral(t[4..]);
    }
  }

  lemma StabilityAccepted(t: string)
    requires IsStability(t)
    ensures t == "" || (HasPrefix(t, "alpha") && DigitsOnly(t[5..])) || (HasPrefix(t, "beta") && DigitsOnly(t[4..]))
    ensures t == "" || !IsDigit(t[0])
  {
    if t != "" {
      var e :| IsNumeral(e) && (t == "alpha" + e || t == "beta" + e);
      DigitsMean(e);
      if t == "alpha" + e {
        assert t[..5] == "alpha" && t[5..] == e;
      } else {
        assert t[..4] == "beta" && t[4..] == e;
      }
    }
  }

  // ---- what is refused --------------------------------------------------------------------------------

  /** Two minors, the first one above the second. */
  ghost predicate Descends(low: string, high: string) {
    exists m: nat, n: nat :: IsMinor(low, m) && IsMinor(high, n) && n < m <= 0x7FFF_FFFF_FFFF_FFFF
  }

  ghost predicate TooLarge(v: string) {
    exists n: nat :: IsMinor(v, n) && n > 0x7FFF_FFFF_FFFF_FFFF
  }

  ghost predicate NoMinor(v: string) {
    forall n: nat :: !IsMinor(v, n)
  }

  /** The entry has this problem. */
  ghost predicate IsWrong(isDate: string -> bool, e: VersionedAPI, p: Problem) {
    match p
    case InvalidAPIVersion => !exists d, t :: IsNumeral(d) && IsStability(t) && e.version == "v" + d + t
    case ResourceRequired => e.resource == ""
    case KindRequired => e.kind == ""
    case InvalidDeprecated => NoMinor(e.deprecatedIn)
    case InvalidRemoved => NoMinor(e.removedIn)
    case DeprecatedAfterRemoved => Descends(e.deprecatedIn, e.removedIn)
    case ReplacementRequired => e.replacementAPI == ""
    case InvalidRange => NoMinor(e.range.min) || NoMinor(e.range.max)
    case RangeReversed => Descends(e.range.min, e.range.max)
    case SourceRequired => e.source == ""
    case ReferenceRequired => e.reference == ""
    case InvalidDate => !isDate(e.lastVerifiedDate)
    case UnsupportedConfidence => e.confidence != "STATIC_CERTAIN"
    case VersionPanics =>
      TooLarge(e.deprecatedIn) || TooLarge(e.removedIn) || TooLarge(e.range.min) || TooLarge(e.range.max)
  }

  lemma OrderProblemMeans(low: string, high: string, reversed: Problem)
    requires ValidVersion(low) && ValidVersion(high) && reversed != VersionPanics
    ensures OrderProblem(low, high, reversed) == Some(VersionPanics) <==> TooLarge(low) || TooLarge(high)
    ensures OrderProblem(low, high, reversed) == Some(reversed) ==> Descends(low, high)
    ensures OrderProblem(low, high, reversed).None? ==> !Descends(low, high)
    ensures OrderProblem(low, high, reversed) in {None, Some(VersionPanics), Some(reversed)}
  {
    VersionMeans(low);
    VersionMeans(high);
    var m: nat :| IsMinor(low, m);
    var n: nat :| IsMinor(high, n);
  }

  lemma NoMinorMeans(v: string)
    ensures NoMinor(v) <==> !ValidVersion(v)
  {
    VersionMeans(v);
  }

  lemma LifecycleProblemIsReal(isDate: string -> bool, e: VersionedAPI, p: Problem)
    requires LifecycleProblem(e) == Some(p)
    ensures IsWrong(isDate, e, p)
  {
    APIVersionMeans(e.version);
    NoMinorMeans(e.deprecatedIn);
    NoMinorMeans(e.removedIn);
    if ValidVersion(e.deprecatedIn) && ValidVersion(e.removedIn) {
      OrderProblemMeans(e.deprecatedIn, e.removedIn, DeprecatedAfterRemoved);
    }
  }

  lemma SupportProblemIsReal(isDate: string -> bool, e: VersionedAPI, p: Problem)
    requires SupportProblem(isDate, e) == Some(p)
    ensures IsWrong(isDate, e, p)
  {
    NoMinorMeans(e.range.min);
    NoMinorMeans(e.range.max);
    if ValidVersion(e.range.min) && ValidVersion(e.range.max) {
      OrderProblemMeans(e.range.min, e.range.max, RangeReversed);
    }
  }

  /** The problem an entry is refused for is one it has. */
  lemma NamedProblemIsReal(isDate: string -> bool, e: VersionedAPI, p: Problem)
    requires FirstProblem(isDate, e) == Some(p)
    ensures IsWrong(isDate, e, p)
  {
    if LifecycleProblem(e) == Some(p) {
      LifecycleProblemIsReal(isDate, e, p);
    } else {
      SupportProblemIsReal(isDate, e, p);
    }
  }

  /** An entry is accepted exactly when nothing is wrong with it. */
  lemma AcceptedIff(isDate: string -> bool, e: VersionedAPI)
    ensures FirstProblem(isDate, e).None? <==> forall p :: !IsWrong(isDate, e, p)
  {
    if FirstProblem(isDate, e).None? {
      APIVersionMeans(e.version);
      NoMinorMeans(e.deprecatedIn);
      NoMinorMeans(e.removedIn);
      NoMinorMeans(e.range.min);
      NoMinorMeans(e.range.max);
      OrderProblemMeans(e.deprecatedIn, e.removedIn, DeprecatedAfterRemoved);
      OrderProblemMeans(e.range.min, e.range.max, RangeReversed);
    } else {
      NamedProblemIsReal(isDate, e, FirstProblem(isDate, e).value);
    }
  }

  // ---- ranges -----------------------------------------------------------------------------------------

  /** The range as two numbers that fit 64 bits. */
  ghost predicate Spans(r: TargetRange, low: nat, high: nat) {
    IsMinor(r.min, low) && IsMinor(r.max, high) && low <= 0x7FFF_FFFF_FFFF_FFFF && high <= 0x7FFF_FFFF_FFFF_FFFF
  }

  lemma RangeMeans(r: TargetRange, low: nat, high: nat)
    requires Spans(r, low, high)
    ensures NumberOf(r.min) == (1, low) && NumberOf(r.max) == (1, high)
    ensures Usable(r) <==> low <= high
    ensures forall n: nat :: InRange((1, n), r) <==> low <= n <= high
  {
    VersionMeans(r.min);
    VersionMeans(r.max);
  }

  /** In a catalog the entries stand by group, then version, then kind; and of one API each range ends
      before the next one starts. */
  lemma CatalogReadsUpward(c: Catalog, i: nat, j: nat, low: nat, high: nat, low': nat, high': nat)
    requires IsCatalog(c) && i < j < |c.entries|
    requires Spans(c.entries[i].range, low, high) && Spans(c.entries[j].range, low', high')
    ensures var e, f := c.entries[i], c.entries[j];
            if e.group != f.group then StrLess(e.group, f.group)
            else if e.version != f.version then StrLess(e.version, f.version)
            else if e.kind != f.kind then StrLess(e.kind, f.kind)
            else high < low'
  {
    var e, f := c.entries[i], c.entries[j];
    assert e in c.entries && f in c.entries && !EntryBefore(f, e) && !Collide(e, f);
    StrLessLaws();
    RangeMeans(e.range, low, high);
    RangeMeans(f.range, low', high');
  }

  // ---- targets ----------------------------------------------------------------------------------------

  /** A version text is read without the blanks around it and without one leading "v". */
  lemma TrimVersionMeans(v: string)
    ensures exists t :: IsTrimOf(t, v) && (t == "v" + TrimVersion(v) || (TrimVersion(v) == t && !HasPrefix(t, "v")))
  {
    TrimSpaceMeans(v);
    var t := TrimSpace(v);
    assert IsTrimOf(t, v);
    if HasPrefix(t, "v") {
      assert t == "v" + t[1..];
    }
  }

  /** The minor a target is read as: the text itself, or what stands before its second dot. */
  lemma TargetMeans(v: string, m: string)
    ensures NormalTarget(v) == Some(m) <==>
              (exists n: nat :: IsMinor(m, n)) && (TrimVersion(v) == m || HasPrefix(TrimVersion(v), m + "."))
  {
    VersionMeans(m);
    var t := TrimVersion(v);
    if ValidVersion(m) && t == m {
      ReadsAsMinor(m, []);
      assert m + [] == m;
    } else if ValidVersion(m) && HasPrefix(t, m + ".") {
      var tail := "." + t[|m| + 1..];
      assert t == m + tail;
      ReadsAsMinor(m, tail);
    }
    if |Split(t, '.')| >= 2 {
      FirstTwoParts(t);
    }
  }

  lemma FirstTwoParts(t: string)
    requires |Split(t, '.')| >= 2
    ensures var m := Split(t, '.')[0] + "." + Split(t, '.')[1]; t == m || HasPrefix(t, m + ".")
  {
    SplitMeans(t, '.');
    var parts := Split(t, '.');
    var m, rest := parts[0] + "." + parts[1], parts[1..];
    assert t == parts[0] + "." + Join(rest, ".");
    if |rest| > 1 {
      assert t == (m + ".") + Join(rest[1..], ".");
    }
  }

  lemma ReadsAsMinor(m: string, tail: string)
    requires ValidVersion(m) && (tail == "" || tail[0] == '.')
    ensures var parts := Split(m + tail, '.'); |parts| >= 2 && parts[0] + "." + parts[1] == m
  {
    var d := m[2..];
    assert m == "1" + "." + d;
    if tail == "" {
      assert m + tail == m;
      SplitAtOnlyDot("1", d);
    } else {
      var rest := tail[1..];
      assert m + tail == "1" + "." + (d + "." + rest);
      SplitFirst("1", '.', d + "." + rest);
      SplitFirst(d, '.', rest);
    }
  }

  // ---- what is served ---------------------------------------------------------------------------------

  /** How an API is asked for: case does not matter in group and version, but does in the kind. */
  lemma KeyMeans(group: string, version: string, kind: string, l: string, r: string)
    requires NoOuterSpace(group) && NoOuterSpace(version) && NoOuterSpace(kind)
    requires AllIn(l, BLANKS) && AllIn(r, BLANKS)
    ensures NormalKey(l + group + r, l + version + r, l + kind + r) == (ToLower(group), ToLower(version), kind)
  {
    PaddingIsTrimmed(l, group, r);
    PaddingIsTrimmed(l, version, r);
    PaddingIsTrimmed(l, kind, r);
  }

  lemma AcceptedIsListed(normalize: Normalizer, doc: Document, c: Catalog, e: VersionedAPI)
    requires IsOutcome(normalize, doc, Accepted(c)) && e in doc.entries
    ensures normalize(e).EntryOk? && normalize(e).entry in c.entries
  {
    var ns := Normalized(normalize, doc.entries);
    var i :| 0 <= i < |doc.entries| && doc.entries[i] == e;
    assert ns[i] == normalize(e).entry;
    SameMembers(ns, c.entries);
  }

  lemma AcceptedKeepsKey(isDate: string -> bool, e: VersionedAPI)
    requires NormalizeEntry(isDate, e).EntryOk?
    ensures NormalizeEntry(isDate, e).entry == Trimmed(e)
    ensures KeyOf(Trimmed(e)) == NormalKey(e.group, e.version, e.kind) && Trimmed(e).range == NormalRange(e.range)
  {
  }

  /** Every entry of an accepted document answers for its API, in the document's own spelling, at every
      minor of its range; and nothing else does. */
  lemma EntriesAreServed(isDate: string -> bool, doc: Document, c: Catalog, e: VersionedAPI, low: nat, high: nat,
                         n: nat, r: LookupResult)
    requires IsOutcome(NormalizerFor(isDate), doc, Accepted(c)) && e in doc.entries
    requires Spans(NormalRange(e.range), low, high) && low <= n <= high
    requires IsLookup(c, NormalKey(e.group, e.version, e.kind), Some((1, n)), r)
    ensures r == Found(Trimmed(e))
  {
    AcceptedIsListed(NormalizerFor(isDate), doc, c, e);
    AcceptedKeepsKey(isDate, e);
    RangeMeans(NormalRange(e.range), low, high);
    assert Serves(c, Trimmed(e), NormalKey(e.group, e.version, e.kind), (1, n));
  }
}
