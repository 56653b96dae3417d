/** The add-on compatibility catalog (internal/compatcatalog/catalog.go): entries are normalised,
    validated, keyed and looked up, and judge installed versions. `isDate` stands for Go's date
    parser; `known` is the table of add-ons with a fixed provider. */
module CompatCatalog {
  import opened Orders
  import opened Text
  import opened Findings
  import opened Versions
  import ApiCatalog
  import opened CompatVersions

  datatype Entry = Entry(
    kubernetesVersion: string, provider: string, addonName: string, minimum: string, recommended: string,
    impacts: seq<string>, source: string, reference: string, lastVerifiedDate: string, confidence: string)

  /** Provider, add-on name and Kubernetes version. */
  type Key = TextKey

  function NormalKubernetesVersion(version: string): string {
    var v := TrimPrefix(TrimSpace(version), "v");
    var parts := Split(v, '.');
    if |parts| >= 2 then parts[0] + "." + parts[1] else v
  }

  /** `entryKey`: the key of any spelling. */
  function EntryKey(provider: string, addonName: string, kubernetesVersion: string): Key {
    (ToLower(TrimSpace(provider)), ToLower(TrimSpace(addonName)), NormalKubernetesVersion(kubernetesVersion))
  }

  function KeyOf(e: Entry): Key {
    EntryKey(e.provider, e.addonName, e.kubernetesVersion)
  }

  // ---- operational impacts --------------------------------------------------------------------

  const UNKNOWN_IMPACT: string := "unknown"

  const SUPPORTED_IMPACTS: set<string> :=
    { "control_plane_dependency", "worker_rollout_dependency", "networking_data_plane", "storage_data_plane",
      "cluster_dns", "admission_api_dependency", "workload_dependency", "optional_ecosystem", "operator_review",
      UNKNOWN_IMPACT }

  function NormalImpact(impact: string): string {
    var text := ToLower(TrimSpace(impact));
    if text == "" then UNKNOWN_IMPACT else text
  }

  function NormalEach(impacts: seq<string>): seq<string> {
    if impacts == [] then [UNKNOWN_IMPACT]
    else seq(|impacts|, i requires 0 <= i < |impacts| => NormalImpact(impacts[i]))
  }

  function Inserted(x: string, sorted: seq<string>): (r: seq<string>)
    ensures multiset(r) == multiset(sorted) + multiset{x}
  {
    if sorted == [] then [x]
    else if StrLess(sorted[0], x) then
      assert sorted == [sorted[0]] + sorted[1..];
      [sorted[0]] + Inserted(x, sorted[1..])
    else [x] + sorted
  }

  /** The one sorted permutation of some texts. */
  function SortedTexts(texts: seq<string>): (r: seq<string>)
    ensures multiset(r) == multiset(texts)
  {
    if texts == [] then []
    else
      assert texts == [texts[0]] + texts[1..];
      Inserted(texts[0], SortedTexts(texts[1..]))
  }

  function NormalImpacts(impacts: seq<string>): seq<string> {
    SortedTexts(NormalEach(impacts))
  }

  lemma {:induction false} InsertedIsSorted(x: string, sorted: seq<string>)
    requires Sorted(StrLess, sorted)
    ensures Sorted(StrLess, Inserted(x, sorted))
  {
    StrLessLaws();
    if sorted != [] && StrLess(sorted[0], x) {
      var tail := sorted[1..];
      forall i, j | 0 <= i < j < |tail|
        ensures !StrLess(tail[j], tail[i])
      {
        assert !StrLess(sorted[j + 1], sorted[i + 1]);
      }
      InsertedIsSorted(x, tail);
      var r := Inserted(x, tail);
      forall y | y in r
        ensures !StrLess(y, sorted[0])
      {
        assert y in multiset(r);
        assert y == x || y in tail;
        if y in tail {
          var k :| 0 <= k < |tail| && tail[k] == y;
          assert !StrLess(sorted[k + 1], sorted[0]);
        }
      }
      SmallestFirst(sorted[0], r);
    } else {
      forall y | y in sorted
        ensures !StrLess(y, x)
      {
        var k :| 0 <= k < |sorted| && sorted[k] == y;
        assert k > 0 ==> !StrLess(sorted[k], sorted[0]);
      }
      SmallestFirst(x, sorted);
    }
  }

  lemma SmallestFirst(x: string, sorted: seq<string>)
    requires Sorted(StrLess, sorted) && forall y | y in sorted :: !StrLess(y, x)
    ensures Sorted(StrLess, [x] + sorted)
  {
    var r := [x] + sorted;
    forall i, j | 0 <= i < j < |r|
      ensures !StrLess(r[j], r[i])
    {
      assert r[j] == sorted[j - 1];
      if i > 0 {
        assert !StrLess(sorted[j - 1], sorted[i - 1]);
      }
    }
  }

  lemma {:induction false} SortedTextsIsSorted(texts: seq<string>)
    ensures Sorted(StrLess, SortedTexts(texts))
  {
    if texts != [] {
      SortedTextsIsSorted(texts[1..]);
      InsertedIsSorted(texts[0], SortedTexts(texts[1..]));
    }
  }

  /** `normalizeOperationalImpacts`. */
  method NormalizeImpacts(impacts: seq<string>) returns (r: seq<string>)
    ensures r == NormalImpacts(impacts)
  {
    if |impacts| == 0 {
      assert SortedTexts([UNKNOWN_IMPACT]) == [UNKNOWN_IMPACT];
      return [UNKNOWN_IMPACT];
    }
    var out: seq<string> := [];
    for i := 0 to |impacts|
      invariant |out| == i && forall k | 0 <= k < i :: out[k] == NormalImpact(impacts[k])
    {
      out := out + [NormalImpact(impacts[i])];
    }
    assert out == NormalEach(impacts);
    StrLessLaws();
    r := SortSlice(out, StrLess);
    NeighboursOrderedIsSorted(StrLess, r);
    SortedTextsIsSorted(out);
    SortedPermutationsAgree(StrLess, r, SortedTexts(out));
  }

  /** The first impact that is not supported or was there before. */
  function ListProblem(impacts: seq<string>): Option<Problem> {
    if impacts == [] then None
    else
      var front, last := impacts[..|impacts| - 1], impacts[|impacts| - 1];
      if ListProblem(front).Some? then ListProblem(front)
      else if last !in SUPPORTED_IMPACTS then Some(UnsupportedImpact)
      else if last in front then Some(DuplicatedImpact)
      else None
  }

  function ImpactProblem(impacts: seq<string>): Option<Problem> {
    if impacts == [] then Some(ImpactsRequired)
    else if ListProblem(impacts).Some? then ListProblem(impacts)
    else if |impacts| > 1 && UNKNOWN_IMPACT in impacts then Some(UnknownImpactCombined)
    else None
  }

  lemma ProblemStays(impacts: seq<string>, i: nat)
    requires i <= |impacts| && ListProblem(impacts[..i]).Some?
    ensures ListProblem(impacts) == ListProblem(impacts[..i])
    decreases |impacts|
  {
    if i < |impacts| {
      var front := impacts[..|impacts| - 1];
      assert front[..i] == impacts[..i];
      ProblemStays(front, i);
    } else {
      assert impacts[..i] == impacts;
    }
  }

  /** `validateOperationalImpacts`. */
  method ValidateImpacts(impacts: seq<string>) returns (r: Option<Problem>)
    ensures r == ImpactProblem(impacts)
  {
    if |impacts| == 0 {
      return Some(ImpactsRequired);
    }
    var seen: set<string> := {};
    for i := 0 to |impacts|
      invariant ListProblem(impacts[..i]) == None
      invariant forall x :: x in seen <==> x in impacts[..i]
    {
      var next := impacts[..i + 1];
      assert next[..i] == impacts[..i] && next == impacts[..i] + [impacts[i]];
      if impacts[i] !in SUPPORTED_IMPACTS {
        ProblemStays(impacts, i + 1);
        return Some(UnsupportedImpact);
      }
      if impacts[i] in seen {
        ProblemStays(impacts, i + 1);
        return Some(DuplicatedImpact);
      }
      seen := seen + {impacts[i]};
    }
    assert impacts[..|impacts|] == impacts;
    r := if |impacts| > 1 && UNKNOWN_IMPACT in seen then Some(UnknownImpactCombined) else None;
  }

  lemma {:induction false} ListIsFineIff(impacts: seq<string>)
    ensures ListProblem(impacts).None? <==> (forall x | x in impacts :: x in SUPPORTED_IMPACTS) && NoDuplicates(impacts)
  {
    if impacts != [] {
      var front, last := impacts[..|impacts| - 1], impacts[|impacts| - 1];
      ListIsFineIff(front);
      assert impacts == front + [last];
      if last in front {
        var k :| 0 <= k < |front| && front[k] == last;
        assert impacts[k] == impacts[|impacts| - 1];
      }
    }
  }

  /** Impacts are accepted exactly when each is supported, none is repeated and "unknown" stands
      alone; whatever the order and the spelling they were given in. */
  lemma ImpactsAreFineIff(impacts: seq<string>)
    ensures ImpactProblem(NormalImpacts(impacts)).None? <==>
              && (forall x | x in NormalEach(impacts) :: x in SUPPORTED_IMPACTS)
              && NoDuplicates(NormalEach(impacts))
              && (UNKNOWN_IMPACT in NormalEach(impacts) ==> |NormalEach(impacts)| == 1)
  {
    var each, sorted := NormalEach(impacts), NormalImpacts(impacts);
    ListIsFineIff(sorted);
    SameMembers(each, sorted);
    assert |each| == |multiset(each)| == |multiset(sorted)| == |sorted|;
    if NoDuplicates(each) {
      PermutationKeepsNoDuplicates(each, sorted);
    }
    if NoDuplicates(sorted) {
      PermutationKeepsNoDuplicates(sorted, each);
    }
  }

  // ---- normal form ------------------------------------------------------------------------------

  function Trimmed(e: Entry): Entry {
    var key := KeyOf(e);
    Entry(key.2, key.0, key.1, TrimSpace(e.minimum), TrimSpace(e.recommended), NormalImpacts(e.impacts),
          TrimSpace(e.source), TrimSpace(e.reference), TrimSpace(e.lastVerifiedDate), TrimSpace(e.confidence))
  }

  // ---- what counts as a version ------------------------------------------------------------------------------------

  predicate Contains(s: string, sub: string) {
    HasPrefix(s, sub) || (s != "" && Contains(s[1..], sub))
  }

  predicate LooksLikeVersion(version: string) {
    var v := TrimSpace(version);
    && v != "" && ToLower(v) != "latest" && !Contains(v, "@sha256:")
    && Matches(v) != [] && exists i | 0 <= i < |v| :: IsDigit(v[i])
  }

  // ---- validation ---------------------------------------------------------------------------------------------------

  datatype Problem =
    | InvalidKubernetesVersion | ProviderRequired | AddonNameRequired | WrongProvider | MinimumUnparseable
    | RecommendedUnparseable | MinimumAboveRecommended | ImpactsRequired | UnsupportedImpact | DuplicatedImpact
    | UnknownImpactCombined | SourceRequired | ReferenceRequired | InvalidDate
    | UnsupportedConfidence

  datatype EntryResult = EntryOk(entry: Entry) | EntryBad(problem: Problem)

  function FirstProblem(known: map<string, string>, isDate: string -> bool, e: Entry): Option<Problem> {
    if !ApiCatalog.ValidVersion(e.kubernetesVersion) then Some(InvalidKubernetesVersion)
    else if e.provider == "" then Some(ProviderRequired)
    else if e.addonName == "" then Some(AddonNameRequired)
    else if e.addonName in known && known[e.addonName] != e.provider then Some(WrongProvider)
    else if !LooksLikeVersion(e.minimum) then Some(MinimumUnparseable)
    else if !LooksLikeVersion(e.recommended) then Some(RecommendedUnparseable)
    else if VersionOrder(e.minimum, e.recommended) > 0 then Some(MinimumAboveRecommended)
    else if ImpactProblem(e.impacts).Some? then ImpactProblem(e.impacts)
    else if e.source == "" then Some(SourceRequired)
    else if e.reference == "" then Some(ReferenceRequired)
    else if !isDate(e.lastVerifiedDate) then Some(InvalidDate)
    else if e.confidence !in ["STATIC_CERTAIN", "PROVIDER_REPORTED", "OBSERVED"] then Some(UnsupportedConfidence)
    else None
  }

  /** `normalizeEntry`. */
  function NormalizeEntry(known: map<string, string>, isDate: string -> bool, e: Entry): EntryResult {
    var n := Trimmed(e);
    match FirstProblem(known, isDate, n) case Some(p) => EntryBad(p) case None => EntryOk(n)
  }

  // ---- judging an installed version ---------------------------------------------------------------------------------

  datatype Status = Incompatible | UpgradeRecommended | Compatible | Unknown

  function StatusOf(e: Entry, installed: string): Status {
    if TrimSpace(installed) == "" || !LooksLikeVersion(installed) then Unknown
    else if VersionOrder(installed, e.minimum) < 0 then Incompatible
    else if VersionOrder(installed, e.recommended) < 0 then UpgradeRecommended
    else Compatible
  }

  /** The judgement of an installed version: unknown without a version, incompatible below the
      minimum, and for an entry whose minimum is not above its recommended version compatible from
      the recommended version on. */
  method InstalledStatus(e: Entry, installed: string) returns (s: Status)
    ensures s == StatusOf(e, installed)
    ensures s == Unknown <==> !LooksLikeVersion(installed)
    ensures s != Unknown ==> (s == Incompatible <==> VersionOrder(e.minimum, installed) > 0)
    ensures s != Unknown && VersionOrder(e.minimum, e.recommended) <= 0 ==>
              && (s == Compatible <==> VersionOrder(e.recommended, installed) <= 0)
              && (s == UpgradeRecommended <==>
                  VersionOrder(e.minimum, installed) <= 0 && VersionOrder(e.recommended, installed) > 0)
  {
    VersionOrderIsTotalPreorder(installed, e.minimum, installed);
    VersionOrderIsTotalPreorder(installed, e.recommended, installed);
    VersionOrderIsTotalPreorder(e.minimum, e.recommended, installed);
    if TrimSpace(installed) == "" || !LooksLikeVersion(installed) {
      return Unknown;
    }
    var c := CompareVersions(installed, e.minimum);
    if c < 0 {
      return Incompatible;
    }
    c := CompareVersions(installed, e.recommended);
    if c < 0 {
      return UpgradeRecommended;
    }
    s := Compatible;
  }

  /** Upgrading an add-on never makes an entry judge it worse. */
  lemma StatusIsMonotone(e: Entry, older: string, newer: string)
    requires VersionOrder(older, newer) <= 0
    requires StatusOf(e, older) != Unknown && StatusOf(e, newer) != Unknown
    ensures StatusOf(e, older) == Compatible ==> StatusOf(e, newer) == Compatible
    ensures StatusOf(e, newer) == Incompatible ==> StatusOf(e, older) == Incompatible
  {
    NewerStaysAbove(e.minimum, older, newer);
    NewerStaysAbove(e.recommended, older, newer);
  }

  lemma NewerStaysAbove(bound: string, older: string, newer: string)
    requires VersionOrder(older, newer) <= 0
    ensures VersionOrder(newer, bound) < 0 ==> VersionOrder(older, bound) < 0
  {
    VersionOrderIsTotalPreorder(newer, bound, older);
    VersionOrderIsTotalPreorder(bound, older, newer);
    VersionOrderIsTotalPreorder(older, bound, newer);
  }

  /** The three judgements divide the version line: below the minimum, from the minimum up to below
      the recommended version, and from the recommended version on. */
  lemma StatusIs(e: Entry, installed: string)
    requires VersionOrder(e.minimum, e.recommended) <= 0
    ensures StatusOf(e, installed) == Unknown <==> !LooksLikeVersion(installed)
    ensures LooksLikeVersion(installed) ==>
              && (StatusOf(e, installed) == Incompatible <==> VersionOrder(e.minimum, installed) > 0)
              && (StatusOf(e, installed) == Compatible <==> VersionOrder(e.recommended, installed) <= 0)
  {
    VersionOrderIsTotalPreorder(installed, e.minimum, installed);
    VersionOrderIsTotalPreorder(installed, e.recommended, installed);
    VersionOrderIsTotalPreorder(e.minimum, e.recommended, installed);
  }

  // ---- the catalog --------------------------------------------------------------------------------------------------

  datatype Document = Document(schemaVersion: string, entries: seq<Entry>)
  datatype Catalog = Catalog(entries: seq<Entry>, byKey: map<Key, Entry>)
  datatype CatalogError = UnsupportedSchema | BadEntry(index: nat, problem: Problem) | DuplicateEntry(index: nat)
  datatype CatalogResult = Accepted(catalog: Catalog) | Refused(error: CatalogError)

  const SCHEMA_VERSION: string := "compatcatalog.kubepreflight.io/v1"

  /** How entries are normalised, and the key they are filed under. */
  datatype Rules = Rules(normalize: Entry -> EntryResult, keyOf: Entry -> Key)

  function RulesFor(known: map<string, string>, isDate: string -> bool): Rules {
    Rules((e: Entry) => NormalizeEntry(known, isDate, e), (e: Entry) => KeyOf(e))
  }

  /** An entry as the catalog holds it. */
  ghost function Filed(rules: Rules, e: Entry): Entry {
    if rules.normalize(e).EntryOk? then rules.normalize(e).entry else e
  }

  ghost predicate AllNormalize(rules: Rules, es: seq<Entry>) {
    forall e | e in es :: rules.normalize(e).EntryOk?
  }

  /** No two entries share a key. */
  ghost predicate DistinctKeys(rules: Rules, es: seq<Entry>) {
    forall i, j | 0 <= i < j < |es| :: rules.keyOf(es[i]) != rules.keyOf(es[j])
  }

  ghost function NormalizedEntries(rules: Rules, es: seq<Entry>): seq<Entry> {
    Image((e: Entry) => Filed(rules, e), es)
  }

  predicate EntryBefore(rules: Rules, a: Entry, b: Entry) {
    KeyLess(rules.keyOf(a), rules.keyOf(b))
  }

  function Before(rules: Rules): (Entry, Entry) -> bool {
    (a: Entry, b: Entry) => EntryBefore(rules, a, b)
  }

  ghost predicate IsCatalog(rules: Rules, c: Catalog) {
    && DistinctKeys(rules, c.entries) && Sorted(Before(rules), c.entries)
    && (forall e | e in c.entries :: rules.keyOf(e) in c.byKey && c.byKey[rules.keyOf(e)] == e)
    && forall k | k in c.byKey :: c.byKey[k] in c.entries && rules.keyOf(c.byKey[k]) == k
  }

  /** The entries before `i` are fine; entry `i` is not. */
  ghost predicate FailsFirstAt(rules: Rules, es: seq<Entry>, error: CatalogError) {
    && !error.UnsupportedSchema? && error.index < |es|
    && AllNormalize(rules, es[..error.index]) && DistinctKeys(rules, NormalizedEntries(rules, es[..error.index]))
    && match error
       case BadEntry(i, problem) => rules.normalize(es[i]) == EntryBad(problem)
       case DuplicateEntry(i) =>
         && rules.normalize(es[i]).EntryOk?
         && exists j :: 0 <= j < i && rules.keyOf(Filed(rules, es[j])) == rules.keyOf(Filed(rules, es[i]))
       case UnsupportedSchema => true
  }

  /** A document is accepted exactly when every entry is valid and no two are about the same add-on
      and version. */
  ghost predicate IsOutcome(rules: Rules, doc: Document, r: CatalogResult) {
    if doc.schemaVersion != SCHEMA_VERSION then r == Refused(UnsupportedSchema)
    else if AllNormalize(rules, doc.entries) && DistinctKeys(rules, NormalizedEntries(rules, doc.entries)) then
      && r.Accepted? && IsCatalog(rules, r.catalog)
      && multiset(r.catalog.entries) == multiset(NormalizedEntries(rules, doc.entries))
    else r.Refused? && FailsFirstAt(rules, doc.entries, r.error)
  }

  datatype NormalizeResult = AllOk(entries: seq<Entry>) | Failed(error: CatalogError)

  method NormalizeAll(rules: Rules, es: seq<Entry>) returns (r: NormalizeResult)
    ensures r.AllOk? <==> AllNormalize(rules, es) && DistinctKeys(rules, NormalizedEntries(rules, es))
    ensures r.AllOk? ==> r.entries == NormalizedEntries(rules, es)
    ensures r.Failed? ==> FailsFirstAt(rules, es, r.error)
  {
    var out: seq<Entry> := [];
    var seen: set<Key> := {};
    for i := 0 to |es|
      invariant |out| == i && forall k | 0 <= k < i :: rules.normalize(es[k]) == EntryOk(out[k])
      invariant DistinctKeys(rules, out)
      invariant forall k :: k in seen <==> exists j :: 0 <= j < i && rules.keyOf(out[j]) == k
    {
      assert out == NormalizedEntries(rules, es[..i]);
      match rules.normalize(es[i]) {
        case EntryBad(problem) =>
          return Failed(BadEntry(i, problem));
        case EntryOk(n) =>
          if rules.keyOf(n) in seen {
            DuplicateFails(rules, es, out, i);
            return Failed(DuplicateEntry(i));
          }
          seen := seen + {rules.keyOf(n)};
          out := out + [n];
      }
    }
    assert out == NormalizedEntries(rules, es);
    r := AllOk(out);
  }

  lemma DuplicateFails(rules: Rules, es: seq<Entry>, out: seq<Entry>, i: nat)
    requires i < |es| && |out| == i && forall k | 0 <= k < i :: rules.normalize(es[k]) == EntryOk(out[k])
    requires DistinctKeys(rules, out) && rules.normalize(es[i]).EntryOk?
    requires exists j :: 0 <= j < i && rules.keyOf(out[j]) == rules.keyOf(rules.normalize(es[i]).entry)
    ensures FailsFirstAt(rules, es, DuplicateEntry(i)) && !DistinctKeys(rules, NormalizedEntries(rules, es))
  {
    var j :| 0 <= j < i && rules.keyOf(out[j]) == rules.keyOf(rules.normalize(es[i]).entry);
    assert out == NormalizedEntries(rules, es[..i]);
    var ns := NormalizedEntries(rules, es);
    assert rules.keyOf(ns[j]) == rules.keyOf(ns[i]);
  }

  /** Distinct keys make the sort order strict and total. */
  lemma DistinctKeysAreTotal(rules: Rules, es: seq<Entry>)
    requires DistinctKeys(rules, es)
    ensures StrictTotalOn(Before(rules), es) && NoDuplicates(es)
    ensures forall a, b | a in es && b in es && rules.keyOf(a) == rules.keyOf(b) :: a == b
  {
    KeyLessLaws();
    forall a, b | a in es && b in es && rules.keyOf(a) == rules.keyOf(b)
      ensures a == b
    {
      var i :| 0 <= i < |es| && es[i] == a;
      var j :| 0 <= j < |es| && es[j] == b;
    }
  }

  lemma PermutationKeepsDistinctKeys(rules: Rules, es: seq<Entry>, fs: seq<Entry>)
    requires multiset(es) == multiset(fs) && DistinctKeys(rules, es)
    ensures DistinctKeys(rules, fs)
  {
    SameMembers(es, fs);
    DistinctKeysAreTotal(rules, es);
    PermutationKeepsNoDuplicates(es, fs);
    forall i, j | 0 <= i < j < |fs|
      ensures rules.keyOf(fs[i]) != rules.keyOf(fs[j])
    {
      assert fs[i] in fs && fs[j] in fs;
    }
  }

  method SortEntries(rules: Rules, es: seq<Entry>) returns (sorted: seq<Entry>)
    requires DistinctKeys(rules, es)
    ensures multiset(sorted) == multiset(es) && DistinctKeys(rules, sorted) && Sorted(Before(rules), sorted)
  {
    KeyLessLaws();
    DistinctKeysAreTotal(rules, es);
    sorted := SortSlice(es, Before(rules));
    PermutationKeepsDistinctKeys(rules, es, sorted);
    DistinctKeysAreTotal(rules, sorted);
    NeighboursOrderedIsSorted(Before(rules), sorted);
  }

  method IndexByKey(rules: Rules, es: seq<Entry>) returns (byKey: map<Key, Entry>)
    requires DistinctKeys(rules, es)
    ensures forall e | e in es :: rules.keyOf(e) in byKey && byKey[rules.keyOf(e)] == e
    ensures forall k | k in byKey :: byKey[k] in es && rules.keyOf(byKey[k]) == k
  {
    byKey := map[];
    for i := 0 to |es|
      invariant forall j | 0 <= j < i :: rules.keyOf(es[j]) in byKey && byKey[rules.keyOf(es[j])] == es[j]
      invariant forall k | k in byKey :: byKey[k] in es && rules.keyOf(byKey[k]) == k
    {
      byKey := byKey[rules.keyOf(es[i]) := es[i]];
    }
  }

  /** `New`, for given rules. */
  method NewCatalog(rules: Rules, doc: Document) returns (r: CatalogResult)
    ensures IsOutcome(rules, doc, r)
  {
    if doc.schemaVersion != SCHEMA_VERSION {
      return Refused(UnsupportedSchema);
    }
    var normalized := NormalizeAll(rules, doc.entries);
    match normalized
    case Failed(error) => r := Refused(error);
    case AllOk(entries) =>
      var sorted := SortEntries(rules, entries);
      var byKey := IndexByKey(rules, sorted);
      r := Accepted(Catalog(sorted, byKey));
  }

  method New(known: map<string, string>, isDate: string -> bool, doc: Document) returns (r: CatalogResult)
    ensures IsOutcome(RulesFor(known, isDate), doc, r)
  {
    r := NewCatalog(RulesFor(known, isDate), doc);
  }

  // ---- looking up ---------------------------------------------------------------------------------------------------

  /** `Lookup`. */
  function Lookup(c: Catalog, provider: string, addonName: string, kubernetesVersion: string): Option<Entry> {
    var key := EntryKey(provider, addonName, kubernetesVersion);
    if key in c.byKey then Some(c.byKey[key]) else None
  }

  /** A lookup returns an entry exactly when the catalog lists it under that key, whatever the
      spelling of the question. */
  lemma LookupIff(rules: Rules, c: Catalog, provider: string, addonName: string, kubernetesVersion: string, e: Entry)
    requires IsCatalog(rules, c)
    ensures Lookup(c, provider, addonName, kubernetesVersion) == Some(e) <==>
              e in c.entries && rules.keyOf(e) == EntryKey(provider, addonName, kubernetesVersion)
  {
  }

  lemma FiledEntryIs(known: map<string, string>, isDate: string -> bool, e: Entry)
    requires NormalizeEntry(known, isDate, e).EntryOk?
    ensures var n := NormalizeEntry(known, isDate, e).entry;
            && n == Trimmed(e) && ApiCatalog.ValidVersion(n.kubernetesVersion)
            && VersionOrder(n.minimum, n.recommended) <= 0
  {
  }

  lemma ValidVersionIsNormal(v: string)
    requires ApiCatalog.ValidVersion(v)
    ensures NormalKubernetesVersion(v) == v
  {
    assert v[..2] == "1.";
    assert IsDigit(v[2..][|v| - 3]);
    TrimSpaceIs(v);
    assert v == "1" + "." + v[2..];
    SplitAtOnlyDot("1", v[2..]);
  }

  lemma TrimmedKeepsKey(e: Entry)
    requires ApiCatalog.ValidVersion(Trimmed(e).kubernetesVersion)
    ensures KeyOf(Trimmed(e)) == KeyOf(e)
  {
    ValidVersionIsNormal(Trimmed(e).kubernetesVersion);
    NormalTextSettles(e.provider);
    NormalTextSettles(e.addonName);
  }

  /** Every entry a document offers is found again under its own words, in its normal form, and judges
      installed versions monotonically. */
  lemma AcceptedEntriesAreFound(known: map<string, string>, isDate: string -> bool, doc: Document, c: Catalog, e: Entry)
    requires IsOutcome(RulesFor(known, isDate), doc, Accepted(c)) && e in doc.entries
    ensures Lookup(c, e.provider, e.addonName, e.kubernetesVersion) == Some(Trimmed(e))
    ensures VersionOrder(Trimmed(e).minimum, Trimmed(e).recommended) <= 0
  {
    var rules := RulesFor(known, isDate);
    assert rules.normalize(e).EntryOk?;
    FiledEntryIs(known, isDate, e);
    TrimmedKeepsKey(e);
    var ns := NormalizedEntries(rules, doc.entries);
    var i :| 0 <= i < |doc.entries| && doc.entries[i] == e;
    assert ns[i] == Trimmed(e);
    SameMembers(ns, c.entries);
    assert Trimmed(e) in c.entries;
    LookupIff(rules, c, e.provider, e.addonName, e.kubernetesVersion, Trimmed(e));
  }

  /** The order of a document's entries does not matter to the catalog. */
  lemma CatalogIgnoresOrder(rules: Rules, doc: Document, c: Catalog, doc': Document, r': CatalogResult)
    requires IsOutcome(rules, doc, Accepted(c)) && IsOutcome(rules, doc', r')
    requires doc' == doc.(entries := doc'.entries) && multiset(doc.entries) == multiset(doc'.entries)
    ensures r' == Accepted(c)
  {
    var ns, ms := NormalizedEntries(rules, doc.entries), NormalizedEntries(rules, doc'.entries);
    SameMembers(doc.entries, doc'.entries);
    ImagePermutes((e: Entry) => Filed(rules, e), doc.entries, doc'.entries);
    PermutationKeepsDistinctKeys(rules, ns, ms);
    DistinctKeysAreTotal(rules, c.entries);
    DistinctKeysAreTotal(rules, r'.catalog.entries);
    SortedPermutationsAgree(Before(rules), c.entries, r'.catalog.entries);
    SameIndex(rules, c, r'.catalog);
  }

  lemma SameIndex(rules: Rules, c: Catalog, d: Catalog)
    requires IsCatalog(rules, c) && IsCatalog(rules, d) && c.entries == d.entries
    ensures c == d
  {
    assert c.byKey == d.byKey;
  }
}
