/** The versioned API catalog (internal/apicatalog/versioned_catalog.go): entries are normalised,
    validated, sorted, checked for overlapping ranges and then looked up. `isDate` stands for Go's
    date parser. */
module ApiCatalog {
  import opened Orders
  import opened Text
  import opened Findings
  import opened Versions

  // ---- versions ---------------------------------------------------------------------------------------------

  /** The pattern `^1\.[0-9]+$`. */
  predicate ValidVersion(v: string) {
    HasPrefix(v, "1.") && |v| > 2 && AllDigits(v[2..])
  }

  type Number = (int, int)

  /** `mustParseKubernetesVersion`; None is its panic. */
  function MustParse(v: string): Option<Number> {
    var parts := Split(v, '.');
    if |parts| != 2 then None
    else
      match (Atoi(parts[0]), Atoi(parts[1]))
      case (Some(major), Some(minor)) => Some((major, minor))
      case _ => None
  }

  predicate Parses(v: string) {
    MustParse(v).Some?
  }

  /** The version as numbers; only asked of versions that parse. */
  function NumberOf(v: string): Number {
    match MustParse(v) case Some(n) => n case None => (0, 0)
  }

  predicate Before(a: Number, b: Number) {
    a.0 < b.0 || (a.0 == b.0 && a.1 < b.1)
  }

  /** A version the pattern accepts parses to its digits, and panics when they exceed 64 bits. */
  lemma ValidVersionParses(v: string)
    requires ValidVersion(v)
    ensures MustParse(v) == if DigitsValue(v[2..]) <= MAX_INT then Some((1, DigitsValue(v[2..]))) else None
  {
    assert v == "1" + "." + v[2..];
    SplitAtOnlyDot("1", v[2..]);
    assert DigitsValue("1") == 1 by {
      assert "1"[..0] == "";
    }
  }


  function AfterDigits(s: string): string {
    if s != [] && IsDigit(s[0]) then AfterDigits(s[1..]) else s
  }

  predicate DigitsOnly(s: string) {
    s != [] && AllDigits(s)
  }

  /** The pattern `^v[0-9]+((alpha|beta)[0-9]+)?$`. */
  predicate ValidAPIVersion(s: string) {
    && s != [] && s[0] == 'v'
    && var rest := AfterDigits(s[1..]);
       && |rest| < |s| - 1
       && (rest == [] || (HasPrefix(rest, "alpha") && DigitsOnly(rest[5..]))
           || (HasPrefix(rest, "beta") && DigitsOnly(rest[4..])))
  }

  // ---- entries -----------------------------------------------------------------------------------------------

  datatype TargetRange = TargetRange(min: string, max: string)

  datatype VersionedAPI = VersionedAPI(
    group: string, version: string, resource: string, kind: string, namespaced: bool,
    deprecatedIn: string, removedIn: string, replacementAPI: string, replacementAPIVersion: string,
    range: TargetRange, source: string, reference: string, lastVerifiedDate: string, confidence: string)

  /** Group, version and kind. */
  type Key = TextKey

  function KeyOf(e: VersionedAPI): Key {
    (e.group, e.version, e.kind)
  }

  function NormalKey(group: string, version: string, kind: string): Key {
    (ToLower(TrimSpace(group)), ToLower(TrimSpace(version)), TrimSpace(kind))
  }

  function TrimVersion(v: string): string {
    TrimPrefix(TrimSpace(v), "v")
  }

  function NormalRange(r: TargetRange): TargetRange {
    TargetRange(TrimVersion(r.min), TrimVersion(r.max))
  }

  function Trimmed(e: VersionedAPI): VersionedAPI {
    var key := NormalKey(e.group, e.version, e.kind);
    VersionedAPI(key.0, key.1, ToLower(TrimSpace(e.resource)), key.2, e.namespaced,
                 TrimVersion(e.deprecatedIn), TrimVersion(e.removedIn), TrimSpace(e.replacementAPI),
                 TrimSpace(e.replacementAPIVersion), NormalRange(e.range), TrimSpace(e.source), TrimSpace(e.reference),
                 TrimSpace(e.lastVerifiedDate), TrimSpace(e.confidence))
  }

  datatype Problem =
    | InvalidAPIVersion | ResourceRequired | KindRequired | InvalidDeprecated | InvalidRemoved | DeprecatedAfterRemoved
    | ReplacementRequired | InvalidRange | RangeReversed | SourceRequired | ReferenceRequired | InvalidDate
    | UnsupportedConfidence | VersionPanics

  datatype EntryResult = EntryOk(entry: VersionedAPI) | EntryBad(problem: Problem)

  /** Comparing the two versions panics, finds them reversed, or is fine. */
  function OrderProblem(low: string, high: string, reversed: Problem): Option<Problem> {
    if !Parses(low) || !Parses(high) then Some(VersionPanics)
    else if Before(NumberOf(high), NumberOf(low)) then Some(reversed)
    else None
  }

  /** The first problem with the names of the API and its life cycle. */
  function LifecycleProblem(e: VersionedAPI): Option<Problem> {
    if !ValidAPIVersion(e.version) then Some(InvalidAPIVersion)
    else if e.resource == "" then Some(ResourceRequired)
    else if e.kind == "" then Some(KindRequired)
    else if !ValidVersion(e.deprecatedIn) then Some(InvalidDeprecated)
    else if !ValidVersion(e.removedIn) then Some(InvalidRemoved)
    else OrderProblem(e.deprecatedIn, e.removedIn, DeprecatedAfterRemoved)
  }

  /** The first problem with what supports the entry. */
  function SupportProblem(isDate: string -> bool, e: VersionedAPI): Option<Problem> {
    if e.replacementAPI == "" then Some(ReplacementRequired)
    else if !ValidVersion(e.range.min) || !ValidVersion(e.range.max) then Some(InvalidRange)
    else
      match OrderProblem(e.range.min, e.range.max, RangeReversed)
      case Some(p) => Some(p)
      case None =>
        if e.source == "" then Some(SourceRequired)
        else if e.reference == "" then Some(ReferenceRequired)
        else if !isDate(e.lastVerifiedDate) then Some(InvalidDate)
        else if e.confidence != "STATIC_CERTAIN" then Some(UnsupportedConfidence)
        else None
  }

  function FirstProblem(isDate: string -> bool, e: VersionedAPI): Option<Problem> {
    match LifecycleProblem(e) case Some(p) => Some(p) case None => SupportProblem(isDate, e)
  }

  /** `normalizeVersionedEntry`. */
  function NormalizeEntry(isDate: string -> bool, e: VersionedAPI): EntryResult {
    var n := Trimmed(e);
    match FirstProblem(isDate, n) case Some(p) => EntryBad(p) case None => EntryOk(n)
  }

  /** A range that can be compared, and is not reversed. */
  predicate Usable(r: TargetRange) {
    Parses(r.min) && Parses(r.max) && !Before(NumberOf(r.max), NumberOf(r.min))
  }

  predicate InRange(n: Number, r: TargetRange) {
    !Before(n, NumberOf(r.min)) && !Before(NumberOf(r.max), n)
  }

  predicate Overlap(a: TargetRange, b: TargetRange) {
    !Before(NumberOf(b.max), NumberOf(a.min)) && !Before(NumberOf(a.max), NumberOf(b.min))
  }

  /** Two usable ranges overlap exactly when some version lies in both. */
  lemma OverlapIff(a: TargetRange, b: TargetRange)
    requires Usable(a) && Usable(b)
    ensures Overlap(a, b) <==> exists n :: InRange(n, a) && InRange(n, b)
  {
    if Overlap(a, b) {
      var n := if Before(NumberOf(a.min), NumberOf(b.min)) then NumberOf(b.min) else NumberOf(a.min);
      assert InRange(n, a) && InRange(n, b);
    }
  }

  // ---- the order of the catalog -------------------------------------------------------------------------------

  /** The comparator of the source: the texts of the lower bounds decide whether their values are
      compared. */
  predicate EntryBefore(a: VersionedAPI, b: VersionedAPI) {
    if KeyOf(a) != KeyOf(b) then KeyLess(KeyOf(a), KeyOf(b))
    else if a.range.min != b.range.min then Before(NumberOf(a.range.min), NumberOf(b.range.min))
    else Before(NumberOf(a.range.max), NumberOf(b.range.max))
  }

  ghost predicate AllUsable(es: seq<VersionedAPI>) {
    forall e | e in es :: Usable(e.range)
  }

  /** Same API, overlapping ranges. */
  predicate Collide(a: VersionedAPI, b: VersionedAPI) {
    KeyOf(a) == KeyOf(b) && Overlap(a.range, b.range)
  }

  ghost predicate NoCollision(es: seq<VersionedAPI>) {
    forall i, j | 0 <= i < j < |es| :: !Collide(es[i], es[j])
  }

  ghost predicate NoNeighbourCollision(es: seq<VersionedAPI>) {
    forall i | 0 < i < |es| :: !Collide(es[i - 1], es[i])
  }

  /** Key first, then the value of the lower bound. */
  ghost predicate StartsBefore(a: VersionedAPI, b: VersionedAPI) {
    KeyLess(KeyOf(a), KeyOf(b)) || (KeyOf(a) == KeyOf(b) && Before(NumberOf(a.range.min), NumberOf(b.range.min)))
  }

  /** A list with no inverted neighbour starts in order throughout. */
  lemma {:induction false} StartsInOrder(es: seq<VersionedAPI>, i: nat, j: nat)
    requires NeighboursOrdered(EntryBefore, es) && i < j < |es|
    ensures !StartsBefore(es[j], es[i])
  {
    KeyLessLaws();
    assert !EntryBefore(es[j], es[j - 1]);
    if i < j - 1 {
      StartsInOrder(es, i, j - 1);
    }
  }

  /** On a sorted list looking at neighbours is enough: no two entries of the list collide exactly
      when no neighbours do. */
  lemma NeighbourCheckSuffices(es: seq<VersionedAPI>)
    requires NeighboursOrdered(EntryBefore, es) && AllUsable(es)
    ensures NoNeighbourCollision(es) <==> NoCollision(es)
  {
    if i, j :| 0 <= i < j < |es| && Collide(es[i], es[j]) {
      CollisionReachesNeighbour(es, i, j);
    }
    if NoCollision(es) {
      forall k | 0 < k < |es|
        ensures !Collide(es[k - 1], es[k])
      {
        assert k - 1 < k;
      }
    }
  }

  lemma CollisionReachesNeighbour(es: seq<VersionedAPI>, i: nat, j: nat)
    requires NeighboursOrdered(EntryBefore, es) && AllUsable(es)
    requires i < j < |es| && Collide(es[i], es[j])
    ensures Collide(es[i], es[i + 1])
  {
    if i + 1 < j {
      StartsInOrder(es, i, i + 1);
      StartsInOrder(es, i + 1, j);
      assert es[i] in es && es[i + 1] in es && es[j] in es;
      KeysSandwich(KeyOf(es[i]), KeyOf(es[i + 1]));
      RangesSandwich(es[i].range, es[i + 1].range, es[j].range);
    }
  }

  lemma KeysSandwich(a: Key, b: Key)
    ensures !KeyLess(a, b) && !KeyLess(b, a) ==> a == b
  {
    KeyLessLaws();
  }

  lemma RangesSandwich(a: TargetRange, n: TargetRange, b: TargetRange)
    requires !Before(NumberOf(n.min), NumberOf(a.min)) && !Before(NumberOf(b.min), NumberOf(n.min))
    requires Usable(n) && Overlap(a, b)
    ensures Overlap(a, n)
  {
  }

  /** A usable entry collides with itself, so a list without collisions repeats nothing. */
  lemma NoCollisionMeansDistinct(es: seq<VersionedAPI>)
    requires AllUsable(es) && NoCollision(es)
    ensures NoDuplicates(es)
    ensures forall a, b | a in es && b in es && a != b :: !Collide(a, b)
  {
    forall i, j | 0 <= i < j < |es|
      ensures es[i] != es[j]
    {
      assert !Collide(es[i], es[j]);
      assert Usable(es[i].range);
    }
    forall a, b | a in es && b in es && a != b
      ensures !Collide(a, b)
    {
      var i :| 0 <= i < |es| && es[i] == a;
      var j :| 0 <= j < |es| && es[j] == b;
      assert !Collide(es[if i < j then i else j], es[if i < j then j else i]);
    }
  }

  lemma PermutationKeepsNoCollision(es: seq<VersionedAPI>, fs: seq<VersionedAPI>)
    requires multiset(es) == multiset(fs) && AllUsable(es) && NoCollision(es)
    ensures AllUsable(fs) && NoCollision(fs)
  {
    SameMembers(es, fs);
    NoCollisionMeansDistinct(es);
    PermutationKeepsNoDuplicates(es, fs);
    forall i, j | 0 <= i < j < |fs|
      ensures !Collide(fs[i], fs[j])
    {
      assert fs[i] in fs && fs[j] in fs;
    }
  }

  /** The comparator never contradicts itself, whatever the spellings. */
  lemma EntryBeforeIsPartialOrder(a: VersionedAPI, b: VersionedAPI, c: VersionedAPI)
    ensures !EntryBefore(a, a)
    ensures EntryBefore(a, b) ==> !EntryBefore(b, a)
    ensures EntryBefore(a, b) && EntryBefore(b, c) ==> EntryBefore(a, c)
  {
    KeyLessLaws();
  }

  /** On the entries of a catalog the comparator is a strict total order. */
  lemma CatalogOrderIsTotal(es: seq<VersionedAPI>)
    requires AllUsable(es) && NoCollision(es)
    ensures StrictTotalOn(EntryBefore, es)
  {
    NoCollisionMeansDistinct(es);
    forall a, b | a in es && b in es
      ensures !EntryBefore(a, a) && (a == b || EntryBefore(a, b) || EntryBefore(b, a))
    {
      KeyLessLaws();
      if a != b {
        assert !Collide(a, b) && Usable(a.range) && Usable(b.range);
      }
    }
    forall a, b, c | a in es && b in es && c in es && EntryBefore(a, b) && EntryBefore(b, c)
      ensures EntryBefore(a, c)
    {
      EntryBeforeIsPartialOrder(a, b, c);
    }
  }

  // ---- the comparator as an order on raw texts -------------------------------------------------------------------

  ghost predicate Tied(a: VersionedAPI, b: VersionedAPI) {
    !EntryBefore(a, b) && !EntryBefore(b, a)
  }

  /** The law sort algorithms rely on: ties are transitive. */
  ghost predicate TiesAreTransitive(es: seq<VersionedAPI>) {
    forall a, b, c | a in es && b in es && c in es && Tied(a, b) && Tied(b, c) :: Tied(a, c)
  }

  /** One API, one lower bound spelled in two ways, one of the ways with two different upper bounds. */
  predicate MixedTriple(a: VersionedAPI, b: VersionedAPI, c: VersionedAPI) {
    && KeyOf(a) == KeyOf(b) == KeyOf(c) && NumberOf(a.range.min) == NumberOf(b.range.min)
    && a.range.min == c.range.min && a.range.min != b.range.min && NumberOf(a.range.max) != NumberOf(c.range.max)
  }

  ghost predicate MixesSpellings(es: seq<VersionedAPI>) {
    exists a, b, c :: a in es && b in es && c in es && MixedTriple(a, b, c)
  }

  /** Of two ties in a row the third fails exactly in a mixed triple. */
  lemma BrokenTieIff(a: VersionedAPI, b: VersionedAPI, c: VersionedAPI)
    ensures Tied(a, b) && Tied(b, c) && !Tied(a, c) <==> MixedTriple(a, b, c)
  {
    KeysSandwich(KeyOf(a), KeyOf(b));
    KeysSandwich(KeyOf(b), KeyOf(c));
    KeyLessLaws();
  }

  /** The comparator keeps the law exactly when no API mixes spellings such as "1.9" and "1.09". */
  lemma TiesAreTransitiveIff(es: seq<VersionedAPI>)
    ensures TiesAreTransitive(es) <==> !MixesSpellings(es)
  {
    if MixesSpellings(es) {
      var a, b, c :| a in es && b in es && c in es && MixedTriple(a, b, c);
      BrokenTieIff(a, b, c);
    } else {
      forall a, b, c | a in es && b in es && c in es && Tied(a, b) && Tied(b, c)
        ensures Tied(a, c)
      {
        BrokenTieIff(a, b, c);
      }
    }
  }

  /** Entries that mix spellings collide: two of them start at the same version. So a list without
      collisions never mixes them. */
  lemma MixedSpellingsCollide(es: seq<VersionedAPI>)
    requires AllUsable(es) && MixesSpellings(es)
    ensures !NoCollision(es)
  {
    var a, b, c :| a in es && b in es && c in es && MixedTriple(a, b, c);
    assert Collide(a, b) && a != b;
    if NoCollision(es) {
      NoCollisionMeansDistinct(es);
    }
  }

  /** And on entries that do not mix them the comparator is the weak order a sort asks for. */
  lemma UnmixedOrderIsWeak(es: seq<VersionedAPI>)
    requires !MixesSpellings(es)
    ensures WeakOn(EntryBefore, es)
  {
    TiesAreTransitiveIff(es);
    forall a, b, c | a in es && b in es && c in es && !EntryBefore(b, a) && !EntryBefore(c, b)
      ensures !EntryBefore(c, a)
    {
      WeakStep(a, b, c);
    }
  }

  lemma WeakStep(a: VersionedAPI, b: VersionedAPI, c: VersionedAPI)
    requires !EntryBefore(b, a) && !EntryBefore(c, b) && (Tied(a, b) && Tied(b, c) ==> Tied(a, c))
    requires Tied(c, a) && Tied(a, b) ==> Tied(c, b)
    requires Tied(b, c) && Tied(c, a) ==> Tied(b, a)
    ensures !EntryBefore(c, a)
  {
    EntryBeforeIsPartialOrder(c, a, b);
    EntryBeforeIsPartialOrder(b, c, a);
    EntryBeforeIsPartialOrder(a, b, c);
  }

  function Sample(min: string, max: string): VersionedAPI {
    VersionedAPI("g", "v1", "rs", "K", true, "1.1", "1.2", "g/v2", "", TargetRange(min, max), "s", "r", "2024-01-01",
                 "STATIC_CERTAIN")
  }

  lemma MixedTripleBreaksTies(a: VersionedAPI, b: VersionedAPI, c: VersionedAPI)
    requires MixedTriple(a, b, c)
    ensures !TiesAreTransitive([a, b, c])
  {
    var es := [a, b, c];
    assert es[0] in es && es[1] in es && es[2] in es;
    BrokenTieIff(a, b, c);
  }

  predicate AnyDate(d: string) {
    true
  }

  /** And it can fail: for any number with two spellings three valid entries make two ties and no
      third. */
  lemma MixedSpellingsBreakTheOrder(p: string, q: string, x: string, y: string, z: string)
    requires forall v | v in [p, q, x, y, z] :: ValidVersion(v) && Parses(v) && !Before(NumberOf(v), NumberOf(p))
    requires p != q && NumberOf(p) == NumberOf(q) && NumberOf(x) != NumberOf(z)
    ensures forall e | e in [Sample(p, x), Sample(q, y), Sample(p, z)] :: FirstProblem(AnyDate, e) == None
    ensures !TiesAreTransitive([Sample(p, x), Sample(q, y), Sample(p, z)])
  {
    MixedTripleBreaksTies(Sample(p, x), Sample(q, y), Sample(p, z));
    SampleIsValid(p, x);
    SampleIsValid(q, y);
    SampleIsValid(p, z);
  }

  predicate ReadsAs(v: string, minor: nat) {
    ValidVersion(v) && MustParse(v) == Some((1, minor))
  }

  /** The same with the versions read: 9 in two spellings, and 10. */
  lemma MixedVersionsBreakTheOrder(p: string, q: string, x: string)
    requires ReadsAs(p, 9) && ReadsAs(q, 9) && p != q && ReadsAs(x, 10)
    ensures forall e | e in [Sample(p, p), Sample(q, q), Sample(p, x)] :: FirstProblem(AnyDate, e) == None
    ensures !TiesAreTransitive([Sample(p, p), Sample(q, q), Sample(p, x)])
  {
    MixedSpellingsBreakTheOrder(p, q, p, q, x);
  }

  /** A literal document that does it. */
  lemma MixedDocument()
    ensures forall e | e in [Sample("1.9", "1.9"), Sample("1.09", "1.09"), Sample("1.9", "1.10")] ::
              FirstProblem(AnyDate, e) == None
    ensures !TiesAreTransitive([Sample("1.9", "1.9"), Sample("1.09", "1.09"), Sample("1.9", "1.10")])
  {
    NineHasTwoSpellings();
    TwoDigits("1.10");
    MixedVersionsBreakTheOrder("1.9", "1.09", "1.10");
  }

  lemma NineHasTwoSpellings()
    ensures ValidVersion("1.9") && ValidVersion("1.09") && "1.9" != "1.09"
    ensures MustParse("1.9") == Some((1, 9)) && MustParse("1.09") == Some((1, 9))
  {
    OneDigit("1.9");
    TwoDigits("1.09");
  }

  lemma OneDigit(v: string)
    requires |v| == 3 && v[0] == '1' && v[1] == '.' && IsDigit(v[2])
    ensures ValidVersion(v) && MustParse(v) == Some((1, DigitValue(v[2])))
  {
    assert v[..2] == "1." && v[2..] == [v[2]];
    assert v[2..][..0] == "";
    assert DigitsValue(v[2..]) == DigitValue(v[2]);
    ValidVersionParses(v);
  }

  lemma TwoDigits(v: string)
    requires |v| == 4 && v[0] == '1' && v[1] == '.' && IsDigit(v[2]) && IsDigit(v[3])
    ensures ValidVersion(v) && MustParse(v) == Some((1, 10 * DigitValue(v[2]) + DigitValue(v[3])))
  {
    var d := v[2..];
    assert v[..2] == "1." && d == [v[2], v[3]];
    assert d[..1] == [v[2]] && d[..1][..0] == "";
    assert DigitsValue(d[..1]) == DigitValue(v[2]);
    ValidVersionParses(v);
  }

  lemma SampleIsValid(min: string, max: string)
    requires ValidVersion(min) && ValidVersion(max) && Usable(TargetRange(min, max))
    ensures FirstProblem(AnyDate, Sample(min, max)) == None
  {
    OneDigit("1.1");
    OneDigit("1.2");
    assert "v1"[1..] == "1" && AfterDigits("1") == "" by {
      assert "1"[1..] == "";
    }
  }
}
