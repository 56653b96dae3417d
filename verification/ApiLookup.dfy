/** Building the versioned API catalog and looking APIs up in it
    (internal/apicatalog/versioned_catalog.go). */
module ApiLookup {
  import opened Orders
  import opened Text
  import opened Findings
  import opened Versions
  import opened ApiCatalog

  datatype Document = Document(schemaVersion: string, entries: seq<VersionedAPI>, buildRange: TargetRange)
  datatype Catalog = Catalog(entries: seq<VersionedAPI>, buildRange: TargetRange)

  const SCHEMA_VERSION: string := "apicatalog.kubepreflight.io/v1"

  datatype CatalogError =
    | UnsupportedSchema
    | BadEntry(index: nat, problem: Problem)
    | OverlappingRanges
    | BadBuildRange(problem: Problem)

  datatype CatalogResult = Accepted(catalog: Catalog) | Refused(error: CatalogError)

  // ---- what acceptance means -----------------------------------------------------------------------------------

  type Normalizer = VersionedAPI -> EntryResult

  function NormalizerFor(isDate: string -> bool): Normalizer {
    (e: VersionedAPI) => NormalizeEntry(isDate, e)
  }

  ghost predicate AllNormalize(normalize: Normalizer, es: seq<VersionedAPI>) {
    forall e | e in es :: normalize(e).EntryOk?
  }

  ghost function Normalized(normalize: Normalizer, es: seq<VersionedAPI>): seq<VersionedAPI> {
    Image((e: VersionedAPI) => if normalize(e).EntryOk? then normalize(e).entry else e, es)
  }

  /** What the catalog needs of normalising: usable ranges, and nothing left to normalise. */
  ghost predicate Settles(normalize: Normalizer) {
    forall e | normalize(e).EntryOk? ::
        Usable(normalize(e).entry.range) && normalize(normalize(e).entry) == normalize(e)
  }

  /** The problem of a build range, if any. */
  function RangeProblem(r: TargetRange): Option<Problem> {
    if !ValidVersion(r.min) || !ValidVersion(r.max) then Some(InvalidRange)
    else OrderProblem(r.min, r.max, RangeReversed)
  }

  /** The first entry that fails names the error. */
  ghost predicate FailsFirstAt(normalize: Normalizer, es: seq<VersionedAPI>, i: nat, problem: Problem) {
    i < |es| && AllNormalize(normalize, es[..i]) && normalize(es[i]) == EntryBad(problem)
  }

  ghost predicate IsCatalog(c: Catalog) {
    AllUsable(c.entries) && NoCollision(c.entries) && Sorted(EntryBefore, c.entries) && Usable(c.buildRange)
  }

  /** A document is accepted exactly when every entry is valid, no two entries of one API overlap
      anywhere in it, and the build range is valid; the catalog holds its entries, normalised and
      sorted. */
  ghost predicate IsOutcome(normalize: Normalizer, doc: Document, r: CatalogResult) {
    if doc.schemaVersion != SCHEMA_VERSION then r == Refused(UnsupportedSchema)
    else if !AllNormalize(normalize, doc.entries) then
      r.Refused? && r.error.BadEntry? && FailsFirstAt(normalize, doc.entries, r.error.index, r.error.problem)
    else if !NoCollision(Normalized(normalize, doc.entries)) then r == Refused(OverlappingRanges)
    else RangeOutcome(normalize, doc, NormalRange(doc.buildRange), r)
  }

  ghost predicate RangeOutcome(normalize: Normalizer, doc: Document, range: TargetRange, r: CatalogResult) {
    match RangeProblem(range)
    case Some(problem) => r == Refused(BadBuildRange(problem))
    case None =>
      && r.Accepted? && IsCatalog(r.catalog) && r.catalog.buildRange == range
      && multiset(r.catalog.entries) == multiset(Normalized(normalize, doc.entries))
  }

  // ---- building -----------------------------------------------------------------------------------------------------

  datatype NormalizeResult = AllOk(entries: seq<VersionedAPI>) | BadAt(index: nat, problem: Problem)

  method NormalizeAll(normalize: Normalizer, es: seq<VersionedAPI>) returns (r: NormalizeResult)
    ensures r.AllOk? <==> AllNormalize(normalize, es)
    ensures r.AllOk? ==> r.entries == Normalized(normalize, es)
    ensures r.BadAt? ==> FailsFirstAt(normalize, es, r.index, r.problem)
  {
    var out: seq<VersionedAPI> := [];
    for i := 0 to |es|
      invariant |out| == i
      invariant forall k | 0 <= k < i :: normalize(es[k]) == EntryOk(out[k])
    {
      match normalize(es[i]) {
        case EntryBad(problem) => return BadAt(i, problem);
        case EntryOk(n) => out := out + [n];
      }
    }
    assert out == Normalized(normalize, es);
    r := AllOk(out);
  }

  lemma NormalizedIsUsable(normalize: Normalizer, es: seq<VersionedAPI>)
    requires Settles(normalize) && AllNormalize(normalize, es)
    ensures AllUsable(Normalized(normalize, es))
  {
  }

  /** The scan over neighbours. */
  method FindsOverlap(es: seq<VersionedAPI>) returns (found: bool)
    ensures found <==> !NoNeighbourCollision(es)
  {
    var i := 1;
    while i < |es|
      invariant 1 <= i
      invariant forall k | 0 < k < i && k < |es| :: !Collide(es[k - 1], es[k])
    {
      if KeyOf(es[i - 1]) == KeyOf(es[i]) && Overlap(es[i - 1].range, es[i].range) {
        assert Collide(es[i - 1], es[i]);
        return true;
      }
      i := i + 1;
    }
    found := false;
  }

  /** `normalizeAndValidateVersioned` after the entries are normalised: None when ranges overlap. */
  method SortAndCheck(es: seq<VersionedAPI>) returns (r: Option<seq<VersionedAPI>>)
    requires AllUsable(es)
    ensures r.Some? <==> NoCollision(es)
    ensures r.Some? ==> multiset(r.value) == multiset(es) && AllUsable(r.value) && NoCollision(r.value)
    ensures r.Some? ==> Sorted(EntryBefore, r.value)
  {
    forall a, b | EntryBefore(a, b)
      ensures !EntryBefore(b, a)
    {
      EntryBeforeIsPartialOrder(a, b, a);
    }
    var sorted := SortSlice(es, EntryBefore);
    SameMembers(es, sorted);
    NeighbourCheckSuffices(sorted);
    var overlap := FindsOverlap(sorted);
    if overlap {
      if NoCollision(es) {
        PermutationKeepsNoCollision(es, sorted);
      }
      return None;
    }
    PermutationKeepsNoCollision(sorted, es);
    CatalogOrderIsTotal(sorted);
    NeighboursOrderedIsSorted(EntryBefore, sorted);
    r := Some(sorted);
  }

  /** `NewVersioned`, for a given way of normalising entries. */
  method NewCatalog(normalize: Normalizer, doc: Document) returns (r: CatalogResult)
    requires Settles(normalize)
    ensures IsOutcome(normalize, doc, r)
  {
    if doc.schemaVersion != SCHEMA_VERSION {
      return Refused(UnsupportedSchema);
    }
    var normalized := NormalizeAll(normalize, doc.entries);
    if normalized.BadAt? {
      return Refused(BadEntry(normalized.index, normalized.problem));
    }
    NormalizedIsUsable(normalize, doc.entries);
    var entries := SortAndCheck(normalized.entries);
    if entries.None? {
      return Refused(OverlappingRanges);
    }
    r := CheckBuildRange(entries.value, NormalRange(doc.buildRange));
  }

  method CheckBuildRange(entries: seq<VersionedAPI>, range: TargetRange) returns (r: CatalogResult)
    ensures match RangeProblem(range)
            case Some(problem) => r == Refused(BadBuildRange(problem))
            case None => r == Accepted(Catalog(entries, range)) && Usable(range)
  {
    match RangeProblem(range)
    case Some(problem) => r := Refused(BadBuildRange(problem));
    case None => r := Accepted(Catalog(entries, range));
  }

  method New(isDate: string -> bool, doc: Document) returns (r: CatalogResult)
    ensures IsOutcome(NormalizerFor(isDate), doc, r)
  {
    NormalizingSettles(isDate);
    r := NewCatalog(NormalizerFor(isDate), doc);
  }

  /** The order of a document's entries does not matter to the catalog. */
  lemma CatalogIgnoresOrder(normalize: Normalizer, doc: Document, r: CatalogResult, doc': Document, r': CatalogResult)
    requires Settles(normalize) && IsOutcome(normalize, doc, r) && IsOutcome(normalize, doc', r')
    requires doc' == doc.(entries := doc'.entries) && multiset(doc.entries) == multiset(doc'.entries)
    ensures r.Accepted? <==> r'.Accepted?
    ensures r.Accepted? ==> r == r'
  {
    SameMembers(doc.entries, doc'.entries);
    if AllNormalize(normalize, doc.entries) {
      NormalizedPermutes(normalize, doc.entries, doc'.entries);
    }
    if r.Accepted? && r'.Accepted? {
      CatalogOrderIsTotal(r.catalog.entries);
      CatalogOrderIsTotal(r'.catalog.entries);
      SortedPermutationsAgree(EntryBefore, r.catalog.entries, r'.catalog.entries);
    }
  }

  lemma NormalizedPermutes(normalize: Normalizer, es: seq<VersionedAPI>, fs: seq<VersionedAPI>)
    requires Settles(normalize) && multiset(es) == multiset(fs) && AllNormalize(normalize, es)
             && AllNormalize(normalize, fs)
    ensures multiset(Normalized(normalize, es)) == multiset(Normalized(normalize, fs))
    ensures NoCollision(Normalized(normalize, es)) <==> NoCollision(Normalized(normalize, fs))
  {
    ImagePermutes((e: VersionedAPI) => if normalize(e).EntryOk? then normalize(e).entry else e, es, fs);
    var ns, ms := Normalized(normalize, es), Normalized(normalize, fs);
    NormalizedIsUsable(normalize, es);
    NormalizedIsUsable(normalize, fs);
    if NoCollision(ns) {
      PermutationKeepsNoCollision(ns, ms);
    }
    if NoCollision(ms) {
      PermutationKeepsNoCollision(ms, ns);
    }
  }

  /** Writing an accepted catalog out and loading it again gives the same catalog. */
  lemma ReloadIsIdentity(normalize: Normalizer, doc: Document, c: Catalog, r: CatalogResult)
    requires Settles(normalize) && IsOutcome(normalize, doc, Accepted(c))
    requires IsOutcome(normalize, Document(SCHEMA_VERSION, c.entries, c.buildRange), r)
    ensures r == Accepted(c)
  {
    var ns := Normalized(normalize, doc.entries);
    SameMembers(ns, c.entries);
    forall e | e in c.entries
      ensures normalize(e) == EntryOk(e)
    {
      var i :| 0 <= i < |ns| && ns[i] == e;
      assert doc.entries[i] in doc.entries;
      assert normalize(doc.entries[i]) == EntryOk(e);
    }
    assert Normalized(normalize, c.entries) == c.entries;
    NormalRangeSettles(doc.buildRange);
    CatalogOrderIsTotal(c.entries);
    CatalogOrderIsTotal(r.catalog.entries);
    SortedPermutationsAgree(EntryBefore, c.entries, r.catalog.entries);
  }

  // ---- normalising twice --------------------------------------------------------------------------------------------

  lemma ValidVersionIsTrimmed(v: string)
    requires ValidVersion(v)
    ensures TrimVersion(v) == v
  {
    assert v[..2] == "1.";
    assert IsDigit(v[2..][|v| - 3]);
    TrimSpaceIs(v);
  }

  lemma NormalRangeSettles(r: TargetRange)
    ensures RangeProblem(NormalRange(r)).None? ==>
              NormalRange(NormalRange(r)) == NormalRange(r) && Usable(NormalRange(r))
  {
    var n := NormalRange(r);
    if RangeProblem(n).None? {
      ValidVersionIsTrimmed(n.min);
      ValidVersionIsTrimmed(n.max);
    }
  }

  /** Trimming a trimmed entry changes nothing once its versions are trimmed. */
  lemma TrimmedSettles(e: VersionedAPI)
    requires var n := Trimmed(e);
             && TrimVersion(n.deprecatedIn) == n.deprecatedIn && TrimVersion(n.removedIn) == n.removedIn
             && NormalRange(n.range) == n.range
    ensures Trimmed(Trimmed(e)) == Trimmed(e)
  {
    NormalTextSettles(e.group);
    NormalTextSettles(e.version);
    NormalTextSettles(e.resource);
    NormalTextSettles(e.kind);
    NormalTextSettles(e.replacementAPI);
    NormalTextSettles(e.replacementAPIVersion);
    NormalTextSettles(e.source);
    NormalTextSettles(e.reference);
    NormalTextSettles(e.lastVerifiedDate);
    NormalTextSettles(e.confidence);
  }

  lemma NoProblemMeans(isDate: string -> bool, n: VersionedAPI)
    requires FirstProblem(isDate, n).None?
    ensures TrimVersion(n.deprecatedIn) == n.deprecatedIn && TrimVersion(n.removedIn) == n.removedIn
    ensures NormalRange(n.range) == n.range && Usable(n.range)
  {
    ValidVersionIsTrimmed(n.deprecatedIn);
    ValidVersionIsTrimmed(n.removedIn);
    ValidVersionIsTrimmed(n.range.min);
    ValidVersionIsTrimmed(n.range.max);
  }

  /** Normalising entries settles them. */
  lemma NormalizingSettles(isDate: string -> bool)
    ensures Settles(NormalizerFor(isDate))
  {
    var normalize := NormalizerFor(isDate);
    forall e | normalize(e).EntryOk?
      ensures Usable(normalize(e).entry.range) && normalize(normalize(e).entry) == normalize(e)
    {
      NoProblemMeans(isDate, Trimmed(e));
      TrimmedSettles(e);
    }
  }

  // ---- looking up ---------------------------------------------------------------------------------------------------

  /** `normalizeVersionedKubernetesVersion`: what follows a second dot is dropped. */
  function NormalTarget(v: string): Option<string> {
    var parts := Split(TrimVersion(v), '.');
    if |parts| < 2 then None
    else
      var normalized := parts[0] + "." + parts[1];
      if ValidVersion(normalized) then Some(normalized) else None
  }

  /** The entry speaks for this API at this target. */
  ghost predicate Serves(c: Catalog, e: VersionedAPI, key: Key, target: Number) {
    e in c.entries && KeyOf(e) == key && InRange(target, e.range)
  }

  /** No two entries answer the same question. */
  lemma AtMostOneServes(c: Catalog, d: VersionedAPI, e: VersionedAPI, key: Key, target: Number)
    requires IsCatalog(c) && Serves(c, d, key, target) && Serves(c, e, key, target)
    ensures d == e
  {
    NoCollisionMeansDistinct(c.entries);
    OverlapIff(d.range, e.range);
    assert d != e ==> !Collide(d, e);
  }

  datatype LookupResult = Found(entry: VersionedAPI) | Missing | LookupPanics

  /** The answer for a target; None is a target whose minor exceeds 64 bits, which panics as soon as
      some entry of the API is compared with it. */
  ghost predicate IsLookup(c: Catalog, key: Key, target: Option<Number>, r: LookupResult) {
    match target
    case None => r == if exists e :: e in c.entries && KeyOf(e) == key then LookupPanics else Missing
    case Some(n) => r != LookupPanics && forall e :: r == Found(e) <==> Serves(c, e, key, n)
  }

  function HasKey(key: Key): VersionedAPI -> bool {
    (e: VersionedAPI) => KeyOf(e) == key
  }

  function Answers(key: Key, target: Number): VersionedAPI -> bool {
    (e: VersionedAPI) => KeyOf(e) == key && InRange(target, e.range)
  }

  /** `Lookup`: the one entry that serves the API at the target, if there is one. */
  method Lookup(c: Catalog, group: string, version: string, kind: string, targetVersion: string)
    returns (r: LookupResult)
    requires IsCatalog(c)
    ensures match NormalTarget(targetVersion)
            case None => r == Missing
            case Some(target) => IsLookup(c, NormalKey(group, version, kind), MustParse(target), r)
  {
    match NormalTarget(targetVersion)
    case None => r := Missing;
    case Some(target) => r := LookupNumber(c, NormalKey(group, version, kind), MustParse(target));
  }

  method LookupNumber(c: Catalog, key: Key, target: Option<Number>) returns (r: LookupResult)
    requires IsCatalog(c)
    ensures IsLookup(c, key, target, r)
  {
    match target {
      case None =>
        var at := FirstIndex(c.entries, HasKey(key));
        return if at < |c.entries| then LookupPanics else Missing;
      case Some(n) =>
        var at := FirstIndex(c.entries, Answers(key, n));
        if at == |c.entries| {
          return Missing;
        }
        r := Found(c.entries[at]);
        forall e | Serves(c, e, key, n)
          ensures e == c.entries[at]
        {
          AtMostOneServes(c, e, c.entries[at], key, n);
        }
    }
  }

  /** Whatever follows an entry in a sorted list does not start before it. */
  lemma LaterStartLater(es: seq<VersionedAPI>, i: nat, e: VersionedAPI)
    requires Sorted(EntryBefore, es) && i < |es| && e in es[i..] && KeyOf(e) == KeyOf(es[i])
    ensures !Before(NumberOf(e.range.min), NumberOf(es[i].range.min))
  {
    SortedIsNeighbourly(es);
    var j :| i <= j < |es| && es[j] == e;
    if i < j {
      StartsInOrder(es, i, j);
    }
  }

  /** The first entry of an API in a sorted list is the one whose range starts first. */
  lemma FirstMatchStartsFirst(es: seq<VersionedAPI>, i: nat)
    requires Sorted(EntryBefore, es) && i < |es| && forall k | 0 <= k < i :: KeyOf(es[k]) != KeyOf(es[i])
    ensures forall e | e in es && KeyOf(e) == KeyOf(es[i]) ::
              !Before(NumberOf(e.range.min), NumberOf(es[i].range.min))
  {
    forall e | e in es && KeyOf(e) == KeyOf(es[i])
      ensures !Before(NumberOf(e.range.min), NumberOf(es[i].range.min))
    {
      assert es == es[..i] + es[i..];
      LaterStartLater(es, i, e);
    }
  }

  /** `EntryFor`: whatever the target, the entry of an API whose range starts first. */
  method EntryFor(c: Catalog, group: string, version: string, kind: string) returns (r: Option<VersionedAPI>)
    requires IsCatalog(c)
    ensures r.None? <==> forall e | e in c.entries :: KeyOf(e) != NormalKey(group, version, kind)
    ensures r.Some? ==> r.value in c.entries && KeyOf(r.value) == NormalKey(group, version, kind)
    ensures r.Some? ==>
              forall e | e in c.entries && KeyOf(e) == KeyOf(r.value) ::
                !Before(NumberOf(e.range.min), NumberOf(r.value.range.min))
  {
    var key := NormalKey(group, version, kind);
    var at := FirstIndex(c.entries, HasKey(key));
    if at == |c.entries| {
      return None;
    }
    FirstMatchStartsFirst(c.entries, at);
    r := Some(c.entries[at]);
  }

  lemma SortedIsNeighbourly(es: seq<VersionedAPI>)
    requires Sorted(EntryBefore, es)
    ensures NeighboursOrdered(EntryBefore, es)
  {
    forall i | 0 < i < |es|
      ensures !EntryBefore(es[i], es[i - 1])
    {
      assert i - 1 < i;
    }
  }

  datatype Support = Supported | Unsupported | SupportPanics

  /** `TargetSupported`. */
  function TargetSupported(c: Catalog, targetVersion: string): Support {
    match NormalTarget(targetVersion)
    case None => Unsupported
    case Some(target) =>
      if !Parses(target) then SupportPanics
      else if InRange(NumberOf(target), c.buildRange) then Supported else Unsupported
  }

  lemma ValidTargetIsNormal(v: string)
    requires ValidVersion(v)
    ensures NormalTarget(v) == Some(v)
  {
    PatchIsIgnored(v, "");
  }

  /** The bounds of the build range are themselves supported. */
  lemma BoundsAreSupported(normalize: Normalizer, doc: Document, c: Catalog)
    requires IsOutcome(normalize, doc, Accepted(c))
    ensures TargetSupported(c, c.buildRange.min) == Supported && TargetSupported(c, c.buildRange.max) == Supported
  {
    ValidTargetIsNormal(c.buildRange.min);
    ValidTargetIsNormal(c.buildRange.max);
  }

  /** Every readable target between two supported ones is supported. */
  lemma SupportIsAnInterval(c: Catalog, low: string, target: string, high: string)
    requires TargetSupported(c, low) == Supported && TargetSupported(c, high) == Supported
    requires NormalTarget(target).Some? && Parses(NormalTarget(target).value)
    requires !Before(NumberOf(NormalTarget(target).value), NumberOf(NormalTarget(low).value))
    requires !Before(NumberOf(NormalTarget(high).value), NumberOf(NormalTarget(target).value))
    ensures TargetSupported(c, target) == Supported
  {
  }

  lemma PatchIsTrimmed(v: string, patch: string)
    requires ValidVersion(v)
    ensures TrimVersion(v + "." + patch) == v + "." + TrimRight(patch)
  {
    var s, head := v + "." + patch, v + ".";
    assert v[..2] == "1." && v[0] == '1';
    assert s == head + patch && head[|head| - 1] == '.';
    TrimRightAfter(head, patch);
    StartsWithOne(s, head + TrimRight(patch));
  }

  lemma StartsWithOne(s: string, trimmed: string)
    requires s != "" && s[0] == '1' && TrimRight(s) == trimmed && trimmed != "" && trimmed[0] == '1'
    ensures TrimVersion(s) == trimmed
  {
    assert TrimLeft(s) == s;
    assert trimmed[..1] == "1";
  }

  /** A patch release is looked up like its minor, whatever the patch. */
  lemma PatchIsIgnored(v: string, patch: string)
    requires ValidVersion(v)
    ensures NormalTarget(v + "." + patch) == Some(v) && NormalTarget(v) == Some(v)
  {
    var rest := TrimRight(patch);
    PatchIsTrimmed(v, patch);
    ValidVersionIsTrimmed(v);
    assert v == "1" + "." + v[2..];
    assert v + "." + rest == "1" + "." + (v[2..] + "." + rest);
    SplitFirst("1", '.', v[2..] + "." + rest);
    SplitFirst(v[2..], '.', rest);
    SplitAtOnlyDot("1", v[2..]);
  }
}
