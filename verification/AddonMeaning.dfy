/** What the add-on catalog accepts and finds, over the texts of its entries
    (internal/compatcatalog/catalog.go). */
module AddonMeaning {
  import opened Orders
  import opened Text
  import opened Findings
  import opened Versions
  import opened CompatVersions
  import opened CompatCatalog
  import ApiCatalog
  import CatalogMeaning

  // ---- what looks like a version ----------------------------------------------------------------------

  ghost predicate StandsAt(s: string, sub: string, i: nat) {
    i + |sub| <= |s| && s[i..i + |sub|] == sub
  }

  lemma {:induction false} ContainsMeans(s: string, sub: string)
    ensures Contains(s, sub) <==> exists i: nat :: StandsAt(s, sub, i)
  {
    assert HasPrefix(s, sub) <==> StandsAt(s, sub, 0);
    if s != "" {
      ContainsMeans(s[1..], sub);
      if i: nat :| StandsAt(s[1..], sub, i) {
        assert s[i + 1..i + 1 + |sub|] == s[1..][i..i + |sub|];
        assert StandsAt(s, sub, i + 1);
      }
      if i: nat :| i > 0 && StandsAt(s, sub, i) {
        assert s[1..][i - 1..i - 1 + |sub|] == s[i..i + |sub|];
        assert StandsAt(s[1..], sub, i - 1);
      }
    }
  }

  lemma {:induction false} DigitsMakeMatches(s: string, i: nat)
    requires i < |s| && IsDigit(s[i])
    ensures Matches(s) != []
  {
    if !IsDigit(s[0]) && !IsLetter(s[0]) {
      DigitsMakeMatches(s[1..], i - 1);
    }
  }

  lemma LatestHasNoDigit(v: string)
    requires ToLower(v) == "latest"
    ensures forall i | 0 <= i < |v| :: !IsDigit(v[i])
  {
    assert |v| == 6;
    forall i | 0 <= i < |v|
      ensures !IsDigit(v[i])
    {
      assert ToLower(v)[i] == ToLowerChar(v[i]) == "latest"[i];
    }
  }

  ghost predicate HoldsDigit(v: string) {
    exists c :: c in v && c in "0123456789"
  }

  ghost predicate IsVersionText(version: string) {
    HoldsDigit(TrimSpace(version)) && forall i: nat :: !StandsAt(TrimSpace(version), "@sha256:", i)
  }

  /** A text looks like a version exactly when it holds a digit and does not pin an image by digest. The
      test for "latest" adds nothing: it holds no digit. */
  lemma LooksLikeVersionMeans(version: string)
    ensures LooksLikeVersion(version) <==> IsVersionText(version)
  {
    var v := TrimSpace(version);
    ContainsMeans(v, "@sha256:");
    if c :| c in v && c in "0123456789" {
      var i :| 0 <= i < |v| && v[i] == c;
      assert IsDigit(v[i]);
      DigitsMakeMatches(v, i);
      if ToLower(v) == "latest" {
        LatestHasNoDigit(v);
      }
    }
    if i :| 0 <= i < |v| && IsDigit(v[i]) {
      DigitsMean([v[i]]);
      assert v[i] in [v[i]] && v[i] in v;
    }
  }

  // ---- what is refused --------------------------------------------------------------------------------

  /** The list of impacts has this problem. */
  ghost predicate IsWrongList(impacts: seq<string>, p: Problem) {
    match p
    case ImpactsRequired => impacts == []
    case UnsupportedImpact => exists x :: x in impacts && x !in SUPPORTED_IMPACTS
    case DuplicatedImpact => !NoDuplicates(impacts)
    case UnknownImpactCombined => |impacts| > 1 && "unknown" in impacts
    case _ => false
  }

  /** The normalised entry has this problem. */
  ghost predicate IsWrong(known: map<string, string>, isDate: string -> bool, e: Entry, p: Problem) {
    match p
    case InvalidKubernetesVersion => CatalogMeaning.NoMinor(e.kubernetesVersion)
    case ProviderRequired => e.provider == ""
    case AddonNameRequired => e.addonName == ""
    case WrongProvider => e.addonName in known && known[e.addonName] != e.provider
    case MinimumUnparseable => !IsVersionText(e.minimum)
    case RecommendedUnparseable => !IsVersionText(e.recommended)
    case MinimumAboveRecommended => VersionOrder(e.minimum, e.recommended) > 0
    case SourceRequired => e.source == ""
    case ReferenceRequired => e.reference == ""
    case InvalidDate => !isDate(e.lastVerifiedDate)
    case UnsupportedConfidence =>
      e.confidence != "STATIC_CERTAIN" && e.confidence != "PROVIDER_REPORTED" && e.confidence != "OBSERVED"
    case _ => IsWrongList(e.impacts, p)
  }

  lemma {:induction false} ListProblemMeans(impacts: seq<string>)
    ensures match ListProblem(impacts)
            case None => (forall x | x in impacts :: x in SUPPORTED_IMPACTS) && NoDuplicates(impacts)
            case Some(p) =>
              || (p == UnsupportedImpact && exists x :: x in impacts && x !in SUPPORTED_IMPACTS)
              || (p == DuplicatedImpact && !NoDuplicates(impacts))
  {
    ListIsFineIff(impacts);
    if impacts != [] {
      var front, last := impacts[..|impacts| - 1], impacts[|impacts| - 1];
      ListProblemMeans(front);
      assert impacts == front + [last];
      if !NoDuplicates(front) {
        var i, j :| 0 <= i < j < |front| && front[i] == front[j];
        assert impacts[i] == impacts[j];
      }
      if last in front {
        var k :| 0 <= k < |front| && front[k] == last;
        assert impacts[k] == impacts[|front|];
      }
    }
  }

  lemma ImpactProblemMeans(impacts: seq<string>)
    ensures match ImpactProblem(impacts)
            case Some(p) => IsWrongList(impacts, p)
            case None => forall p :: !IsWrongList(impacts, p)
  {
    ListProblemMeans(impacts);
  }

  /** The problem an entry is refused for is one it has. */
  lemma NamedProblemIsReal(known: map<string, string>, isDate: string -> bool, e: Entry, p: Problem)
    requires FirstProblem(known, isDate, e) == Some(p)
    ensures IsWrong(known, isDate, e, p)
  {
    CatalogMeaning.NoMinorMeans(e.kubernetesVersion);
    LooksLikeVersionMeans(e.minimum);
    LooksLikeVersionMeans(e.recommended);
    ImpactProblemMeans(e.impacts);
  }

  lemma AcceptedIsRight(known: map<string, string>, isDate: string -> bool, e: Entry, p: Problem)
    requires FirstProblem(known, isDate, e).None?
    ensures !IsWrong(known, isDate, e, p)
  {
    CatalogMeaning.NoMinorMeans(e.kubernetesVersion);
    LooksLikeVersionMeans(e.minimum);
    LooksLikeVersionMeans(e.recommended);
    ImpactProblemMeans(e.impacts);
  }

  /** An entry is accepted exactly when nothing is wrong with it. */
  lemma AcceptedIff(known: map<string, string>, isDate: string -> bool, e: Entry)
    ensures FirstProblem(known, isDate, e).None? <==> forall p :: !IsWrong(known, isDate, e, p)
  {
    if FirstProblem(known, isDate, e).None? {
      forall p
        ensures !IsWrong(known, isDate, e, p)
      {
        AcceptedIsRight(known, isDate, e, p);
      }
    } else {
      NamedProblemIsReal(known, isDate, e, FirstProblem(known, isDate, e).value);
    }
  }

  // ---- what is found ----------------------------------------------------------------------------------

  /** The minor a Kubernetes version is filed under: the text itself, or what stands before its second
      dot. */
  lemma MinorMeans(v: string, m: string)
    requires ApiCatalog.ValidVersion(m)
    ensures NormalKubernetesVersion(v) == m <==>
              ApiCatalog.TrimVersion(v) == m || HasPrefix(ApiCatalog.TrimVersion(v), m + ".")
  {
    var t := ApiCatalog.TrimVersion(v);
    if t == m {
      CatalogMeaning.ReadsAsMinor(m, []);
      assert m + [] == m;
    } else if HasPrefix(t, m + ".") {
      var tail := "." + t[|m| + 1..];
      assert t == m + tail;
      CatalogMeaning.ReadsAsMinor(m, tail);
    }
    if |Split(t, '.')| >= 2 {
      CatalogMeaning.FirstTwoParts(t);
    }
  }

  /** How an add-on is asked for: neither case nor outer blanks matter, nor a "v" or a patch. */
  lemma KeyMeans(provider: string, addonName: string, m: string, patch: string, l: string, r: string)
    requires NoOuterSpace(provider) && NoOuterSpace(addonName) && NoOuterSpace("v" + m + "." + patch)
    requires ApiCatalog.ValidVersion(m) && AllIn(l, BLANKS) && AllIn(r, BLANKS)
    ensures EntryKey(l + provider + r, l + addonName + r, l + ("v" + m + "." + patch) + r)
            == (ToLower(provider), ToLower(addonName), m)
  {
    var v := "v" + m + "." + patch;
    PaddingIsTrimmed(l, provider, r);
    PaddingIsTrimmed(l, addonName, r);
    PaddingIsTrimmed(l, v, r);
    assert v[..1] == "v" && v[1..] == (m + ".") + patch;
    MinorMeans(l + v + r, m);
  }

  /** An impact is read without case and outer blanks, and a blank one as "unknown". */
  lemma ImpactMeans(impact: string, l: string, r: string)
    requires NoOuterSpace(impact) && AllIn(l, BLANKS) && AllIn(r, BLANKS)
    ensures NormalImpact(l + impact + r) == if impact == "" then "unknown" else ToLower(impact)
  {
    PaddingIsTrimmed(l, impact, r);
  }
}
