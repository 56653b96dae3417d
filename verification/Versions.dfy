/** Kubernetes version strings at major.minor granularity, upgrade direction, display path and
    hop planning (internal/plan/version.go and the version part of internal/findings/report.go). */
module Versions {
  import opened Text
  import opened Findings

  // ---- decimal numbers -------------------------------------------------------------------------

  const MAX_INT: int := 0x7FFF_FFFF_FFFF_FFFF
  const MIN_INT: int := -0x8000_0000_0000_0000

  predicate IsDigit(c: char) {
    '0' <= c <= '9'
  }

  predicate AllDigits(s: string) {
    forall i | 0 <= i < |s| :: IsDigit(s[i])
  }

  lemma DigitsMean(s: string)
    ensures AllDigits(s) <==> AllIn(s, "0123456789")
  {
    var digits := "0123456789";
    assert forall c | IsDigit(c) :: digits[c as int - 48] == c && c in digits;
    assert forall i | 0 <= i < |s| :: s[i] in s;
  }

  function DigitValue(c: char): nat
    requires IsDigit(c)
  {
    c as int - '0' as int
  }

  function DigitsValue(s: string): nat
    requires AllDigits(s)
  {
    if s == [] then 0 else DigitsValue(s[..|s| - 1]) * 10 + DigitValue(s[|s| - 1])
  }

  /** `strconv.Atoi`: an optional sign, at least one digit, nothing else, in 64-bit range. */
  function Atoi(s: string): Option<int> {
    var negative := s != [] && s[0] == '-';
    var body := if s != [] && (s[0] == '-' || s[0] == '+') then s[1..] else s;
    if body == [] || !AllDigits(body) then None
    else
      var n: int := DigitsValue(body);
      var n := if negative then -n else n;
      if MIN_INT <= n <= MAX_INT then Some(n) else None
  }

  function NatText(n: nat): string {
    if n < 10 then [(n + '0' as int) as char] else NatText(n / 10) + [(n % 10 + '0' as int) as char]
  }

  lemma {:induction false} NatTextReads(n: nat)
    ensures NatText(n) != [] && AllDigits(NatText(n)) && DigitsValue(NatText(n)) == n
  {
    if n >= 10 {
      NatTextReads(n / 10);
      var s := NatText(n);
      assert s[..|s| - 1] == NatText(n / 10);
    } else {
      assert DigitsValue([]) == 0;
    }
  }

  function Itoa(n: int): string {
    if n < 0 then "-" + NatText(-n) else NatText(n)
  }

  lemma AtoiReadsItoa(n: int)
    requires MIN_INT <= n <= MAX_INT
    ensures Atoi(Itoa(n)) == Some(n)
  {
    NatTextReads(if n < 0 then -n else n);
    if n < 0 {
      assert Itoa(n)[1..] == NatText(-n);
    }
  }

  /** The printed form is the one everybody expects: digits alone with no leading zero, behind a sign for
      a negative number. */
  lemma {:induction false} NatTextIsCanonical(n: nat)
    ensures AllIn(NatText(n), "0123456789") && (n > 0 ==> NatText(n)[0] != '0') && (n == 0 ==> NatText(n) == "0")
  {
    NatTextReads(n);
    DigitsMean(NatText(n));
    if n >= 10 {
      NatTextIsCanonical(n / 10);
    }
  }

  lemma ItoaIsCanonical(n: int)
    ensures n >= 0 ==> AllIn(Itoa(n), "0123456789") && (Itoa(n)[0] == '0' ==> Itoa(n) == "0")
    ensures n < 0 ==> Itoa(n) == "-" + Itoa(-n)
  {
    NatTextReads(if n < 0 then -n else n);
    NatTextIsCanonical(if n < 0 then -n else n);
  }

  // ---- major.minor -----------------------------------------------------------------------------

  /** The first two parts of a split version, read as numbers. */
  function ReadParts(parts: seq<string>): Option<(int, int)> {
    if |parts| < 2 then None
    else
      match (Atoi(parts[0]), Atoi(parts[1]))
      case (Some(major), Some(minor)) => Some((major, minor))
      case _ => None
  }

  /** `plan.ParseMajorMinor`: an optional leading "v", then two numbers; what follows a second dot
      is ignored. */
  function ParseMajorMinor(v: string): Option<(int, int)> {
    ReadParts(Split(TrimPrefix(v, "v"), '.'))
  }

  /** `findings.parseMajorMinor` ignores surrounding space as well. */
  function ParseTrimmed(v: string): Option<(int, int)> {
    ParseMajorMinor(TrimSpace(v))
  }

  function PrintMajorMinor(major: int, minor: int): string {
    Itoa(major) + "." + Itoa(minor)
  }

  function NormalizeKubernetesVersion(v: string): Option<string> {
    match ParseTrimmed(v)
    case Some(mm) => Some(PrintMajorMinor(mm.0, mm.1))
    case None => None
  }

  lemma SplitAtOnlyDot(a: string, b: string)
    requires '.' !in a && '.' !in b
    ensures Split(a + "." + b, '.') == [a, b]
  {
    SplitFirst(a, '.', b);
    SplitWithout(b, '.');
  }

  lemma ItoaText(n: int)
    ensures Itoa(n) != [] && '.' !in Itoa(n) && Itoa(n)[0] != 'v'
  {
    var s := NatText(if n < 0 then -n else n);
    NatTextReads(if n < 0 then -n else n);
    assert forall i | 0 <= i < |s| :: IsDigit(s[i]);
  }

  /** Printing a version and parsing it back is the identity. */
  lemma ParseReadsPrint(major: int, minor: int)
    requires MIN_INT <= major <= MAX_INT && MIN_INT <= minor <= MAX_INT
    ensures ParseMajorMinor(PrintMajorMinor(major, minor)) == Some((major, minor))
  {
    ItoaText(major);
    ItoaText(minor);
    AtoiReadsItoa(major);
    AtoiReadsItoa(minor);
    var v := PrintMajorMinor(major, minor);
    assert v[..1] == [v[0]] && v[0] == Itoa(major)[0];
    assert TrimPrefix(v, "v") == v;
    SplitAtOnlyDot(Itoa(major), Itoa(minor));
  }

  /** One leading "v" makes no difference. */
  lemma LeadingVIsRead(major: int, minor: int)
    requires MIN_INT <= major <= MAX_INT && MIN_INT <= minor <= MAX_INT
    ensures ParseMajorMinor("v" + PrintMajorMinor(major, minor)) == Some((major, minor))
  {
    var v := PrintMajorMinor(major, minor);
    ParseReadsPrint(major, minor);
    ItoaText(major);
    assert ("v" + v)[..1] == "v" && ("v" + v)[1..] == v;
    assert v[0] == Itoa(major)[0] && v[..1] == [v[0]];
  }

  /** Two versions normalise to the same text exactly when they parse to the same numbers. */
  lemma NormalizedTextIsFaithful(a: string, b: string)
    requires ParseTrimmed(a).Some? && ParseTrimmed(b).Some?
    ensures NormalizeKubernetesVersion(a) == NormalizeKubernetesVersion(b) <==> ParseTrimmed(a) == ParseTrimmed(b)
  {
    var x, y := ParseTrimmed(a).value, ParseTrimmed(b).value;
    ParseReadsPrint(x.0, x.1);
    ParseReadsPrint(y.0, y.1);
  }

  // ---- direction, path and hops ----------------------------------------------------------------

  datatype VersionRelation = VersionUpgrade | VersionSame | VersionDowngrade

  /** `findings.CompareMinorVersions`; None is the error. */
  function CompareMinorVersions(current: string, target: string): Option<VersionRelation> {
    match (ParseTrimmed(current), ParseTrimmed(target))
    case (Some(c), Some(t)) =>
      if c.0 != t.0 then None
      else if t.1 > c.1 then Some(VersionUpgrade)
      else if t.1 == c.1 then Some(VersionSame)
      else Some(VersionDowngrade)
    case _ => None
  }

  datatype PathLabel =
    CurrentUnknown | PathUnavailable | SameMinorTarget | OneMinorUpgrade | MultiMinorPath

  /** The minors from `from` to `to`, one at a time, both ends included. */
  ghost predicate IsMinorPath(from: (int, int), to: (int, int), path: seq<string>) {
    && |path| == to.1 - from.1 + 1
    && forall k | 0 <= k < |path| :: path[k] == PrintMajorMinor(from.0, from.1 + k)
  }

  method MinorsBetween(from: (int, int), to: (int, int)) returns (path: seq<string>)
    requires from.0 == to.0 && from.1 <= to.1
    ensures IsMinorPath(from, to, path)
  {
    path := [];
    var minor := from.1;
    while minor <= to.1
      invariant from.1 <= minor <= to.1 + 1 && |path| == minor - from.1
      invariant forall k | 0 <= k < |path| :: path[k] == PrintMajorMinor(from.0, from.1 + k)
    {
      path := path + [PrintMajorMinor(from.0, minor)];
      minor := minor + 1;
    }
  }

  /** `findings.UpgradePath`: every minor from current to target. */
  method UpgradePath(currentVersion: string, targetVersion: string)
    returns (path: seq<string>, tag: PathLabel, ok: bool)
    ensures ok == (CompareMinorVersions(currentVersion, targetVersion) in {Some(VersionUpgrade), Some(VersionSame)})
    ensures !ok ==> path == [] && tag == if ParseTrimmed(currentVersion).None? then CurrentUnknown else PathUnavailable
    ensures ok ==> IsMinorPath(ParseTrimmed(currentVersion).value, ParseTrimmed(targetVersion).value, path)
    ensures ok ==>
              tag == if |path| == 1 then SameMinorTarget else if |path| == 2 then OneMinorUpgrade else MultiMinorPath
  {
    var current, target := ParseTrimmed(currentVersion), ParseTrimmed(targetVersion);
    if current.None? {
      return [], CurrentUnknown, false;
    }
    if target.None? || current.value.0 != target.value.0 || target.value.1 < current.value.1 {
      return [], PathUnavailable, false;
    }
    path := MinorsBetween(current.value, target.value);
    tag := match target.value.1 - current.value.1
      case 0 => SameMinorTarget
      case 1 => OneMinorUpgrade
      case _ => MultiMinorPath;
    ok := true;
  }

  datatype Hop = Hop(index: int, from: string, to: string)
  datatype HopError = BadFromVersion | BadToVersion | CrossMajor | NothingToPlan | Downgrade
  datatype HopResult = Hops(hops: seq<Hop>) | HopFailure(error: HopError)

  /** The hops are numbered from 1, start at `from`, end at `to`, and each rises by one minor. */
  ghost predicate IsHopPlan(from: (int, int), to: (int, int), hops: seq<Hop>) {
    && from.0 == to.0 && |hops| == to.1 - from.1 > 0
    && forall k | 0 <= k < |hops| ::
         hops[k] == Hop(k + 1, PrintMajorMinor(from.0, from.1 + k), PrintMajorMinor(from.0, from.1 + k + 1))
  }

  method HopsBetween(from: (int, int), to: (int, int)) returns (hops: seq<Hop>)
    requires from.0 == to.0 && from.1 < to.1
    ensures IsHopPlan(from, to, hops)
  {
    hops := [];
    var i, minor := 1, from.1;
    while minor < to.1
      invariant from.1 <= minor <= to.1 && i == |hops| + 1 && |hops| == minor - from.1
      invariant forall k | 0 <= k < |hops| ::
                  hops[k] == Hop(k + 1, PrintMajorMinor(from.0, from.1 + k), PrintMajorMinor(from.0, from.1 + k + 1))
    {
      hops := hops + [Hop(i, PrintMajorMinor(from.0, minor), PrintMajorMinor(from.0, minor + 1))];
      i, minor := i + 1, minor + 1;
    }
  }

  /** What `GenerateHops` may return for the two parsed versions. */
  ghost predicate IsHopResult(from: Option<(int, int)>, to: Option<(int, int)>, r: HopResult) {
    if from.None? then r == HopFailure(BadFromVersion)
    else if to.None? then r == HopFailure(BadToVersion)
    else if from.value.0 != to.value.0 then r == HopFailure(CrossMajor)
    else if from.value.1 == to.value.1 then r == HopFailure(NothingToPlan)
    else if to.value.1 < from.value.1 then r == HopFailure(Downgrade)
    else r.Hops? && IsHopPlan(from.value, to.value, r.hops)
  }

  /** `plan.GenerateHops`: one hop per minor from `fromVersion` (exclusive) to `toVersion`. */
  method GenerateHops(fromVersion: string, toVersion: string) returns (r: HopResult)
    ensures IsHopResult(ParseMajorMinor(fromVersion), ParseMajorMinor(toVersion), r)
  {
    var f := ParseMajorMinor(fromVersion);
    if f.None? { return HopFailure(BadFromVersion); }
    var t := ParseMajorMinor(toVersion);
    if t.None? { return HopFailure(BadToVersion); }
    if f.value.0 != t.value.0 { return HopFailure(CrossMajor); }
    if f.value.1 == t.value.1 { return HopFailure(NothingToPlan); }
    if t.value.1 < f.value.1 { return HopFailure(Downgrade); }
    var hops := HopsBetween(f.value, t.value);
    return Hops(hops);
  }

  ghost function Stops(hops: seq<Hop>): seq<string>
    requires hops != []
  {
    seq(|hops|, k requires 0 <= k < |hops| => hops[k].from) + [hops[|hops| - 1].to]
  }

  lemma StopsAreMinorPath(from: (int, int), to: (int, int), hops: seq<Hop>)
    requires IsHopPlan(from, to, hops)
    ensures IsMinorPath(from, to, Stops(hops))
  {
    var stops, n := Stops(hops), |hops|;
    assert |stops| == n + 1;
    forall k | 0 <= k < |stops|
      ensures stops[k] == PrintMajorMinor(from.0, from.1 + k)
    {
      if k < n {
        assert stops[k] == hops[k].from;
      } else {
        assert stops[n] == hops[n - 1].to == PrintMajorMinor(from.0, from.1 + (n - 1) + 1);
      }
    }
  }

  /** A path is determined by its ends. */
  lemma MinorPathIsUnique(from: (int, int), to: (int, int), path: seq<string>, other: seq<string>)
    requires IsMinorPath(from, to, path) && IsMinorPath(from, to, other)
    ensures path == other
  {
  }

  lemma ParsedInRange(v: string)
    requires ParseMajorMinor(v).Some?
    ensures MIN_INT <= ParseMajorMinor(v).value.0 <= MAX_INT && MIN_INT <= ParseMajorMinor(v).value.1 <= MAX_INT
  {
  }

  lemma HopEndsParse(from: (int, int), to: (int, int), hops: seq<Hop>, k: nat)
    requires IsHopPlan(from, to, hops) && k < |hops|
    requires MIN_INT <= from.0 <= MAX_INT && MIN_INT <= from.1 && to.1 <= MAX_INT
    ensures hops[k].index == k + 1
    ensures ParseMajorMinor(hops[k].from) == Some((from.0, from.1 + k))
    ensures ParseMajorMinor(hops[k].to) == Some((from.0, from.1 + k + 1))
  {
    var hop := hops[k];
    PrintedReads(hop.from, from.0, from.1 + k);
    PrintedReads(hop.to, from.0, from.1 + k + 1);
  }

  lemma PrintedReads(v: string, major: int, minor: int)
    requires MIN_INT <= major <= MAX_INT && MIN_INT <= minor <= MAX_INT
    requires v == PrintMajorMinor(major, minor)
    ensures ParseMajorMinor(v) == Some((major, minor))
  {
    ParseReadsPrint(major, minor);
  }

  /** Hop number k + 1 starts k minors above the parsed start and rises by one minor. */
  lemma HopRisesOneMinor(fromVersion: string, toVersion: string, hops: seq<Hop>, k: nat)
    requires IsHopResult(ParseMajorMinor(fromVersion), ParseMajorMinor(toVersion), Hops(hops)) && k < |hops|
    ensures ParseMajorMinor(fromVersion).Some?
    ensures hops[k].index == k + 1
    ensures var f := ParseMajorMinor(fromVersion).value;
            && ParseMajorMinor(hops[k].from) == Some((f.0, f.1 + k))
            && ParseMajorMinor(hops[k].to) == Some((f.0, f.1 + k + 1))
  {
    var f, t := ParseMajorMinor(fromVersion), ParseMajorMinor(toVersion);
    ParsedInRange(fromVersion);
    ParsedInRange(toVersion);
    HopEndsParse(f.value, t.value, hops, k);
  }

  // ---- the planner and the report --------------------------------------------------------------

  /** A version the planner reads when the report does: no leading blank, and a trailing one only
      behind a second dot, where nothing is read. */
  predicate PlannerReads(v: string) {
    v != "" && !IsSpace(v[0]) && (!IsSpace(v[|v| - 1]) || |Split(TrimSpace(v), '.')| >= 3)
  }

  ghost predicate AllSpace(s: string) {
    forall i | 0 <= i < |s| :: IsSpace(s[i])
  }

  lemma {:induction false} TrimRightIs(s: string)
    ensures HasPrefix(s, TrimRight(s)) && AllSpace(s[|TrimRight(s)|..])
  {
    if s != [] && IsSpace(s[|s| - 1]) {
      TrimRightIs(s[..|s| - 1]);
    }
  }

  /** `q` is `p` with blanks behind its last part. */
  ghost predicate BlankTail(p: seq<string>, q: seq<string>, blanks: string) {
    && p != [] && |q| == |p| && q[|p| - 1] == p[|p| - 1] + blanks
    && forall k | 0 <= k < |p| - 1 :: q[k] == p[k]
  }

  lemma OneMoreChar(c: char, p: seq<string>, q: seq<string>, blanks: string)
    requires BlankTail(p, q, blanks)
    ensures BlankTail([[]] + p, [[]] + q, blanks)
    ensures BlankTail([[c] + p[0]] + p[1..], [[c] + q[0]] + q[1..], blanks)
  {
    var x, y := [[c] + p[0]] + p[1..], [[c] + q[0]] + q[1..];
    assert [c] + (p[0] + blanks) == ([c] + p[0]) + blanks;
    forall k | 0 <= k < |x| - 1
      ensures y[k] == x[k]
    {
      assert p[k] == q[k];
    }
  }

  /** Blanks appended to a text end up in its last part. */
  lemma {:induction false} SplitBeforeBlanks(u: string, blanks: string)
    requires AllSpace(blanks)
    ensures BlankTail(Split(u, '.'), Split(u + blanks, '.'), blanks)
  {
    var s := u + blanks;
    if u == [] {
      SplitWithout(blanks, '.');
      assert s == blanks;
    } else {
      assert s[1..] == u[1..] + blanks;
      SplitBeforeBlanks(u[1..], blanks);
      OneMoreChar(u[0], Split(u[1..], '.'), Split(s[1..], '.'), blanks);
    }
  }

  lemma AtoiRejectsBlanks(s: string)
    ensures s != [] && (IsSpace(s[0]) || IsSpace(s[|s| - 1])) ==> Atoi(s) == None
  {
    if s != [] {
      var body := if s[0] == '-' || s[0] == '+' then s[1..] else s;
      assert body != [] ==> body[|body| - 1] == s[|s| - 1];
    }
  }

  lemma LeadingBlankIsRejected(v: string)
    requires v != "" && IsSpace(v[0])
    ensures ParseMajorMinor(v) == None
  {
    assert TrimPrefix(v, "v") == v by {
      assert v[..1] == [v[0]];
    }
    AtoiRejectsBlanks(Split(v, '.')[0]);
  }

  lemma BlankLastPart(p: seq<string>, q: seq<string>, blanks: string)
    requires BlankTail(p, q, blanks)
    requires blanks != "" && AllSpace(blanks)
    ensures ReadParts(q) == if |p| >= 3 then ReadParts(p) else None
  {
    var last := q[|q| - 1];
    assert last[|last| - 1] == blanks[|blanks| - 1];
    AtoiRejectsBlanks(last);
  }

  lemma VPrefix(u: string, blanks: string)
    requires u != ""
    ensures TrimPrefix(u + blanks, "v") == TrimPrefix(u, "v") + blanks
    ensures |Split(TrimPrefix(u, "v"), '.')| == |Split(u, '.')|
  {
    assert (u + blanks)[..1] == u[..1] == [u[0]];
    assert (u + blanks)[1..] == u[1..] + blanks;
  }

  /** Blanks behind `u` matter to the planner unless a second dot stands before them. */
  lemma TrailingBlanks(u: string, blanks: string)
    requires u != "" && blanks != "" && AllSpace(blanks)
    ensures ParseMajorMinor(u + blanks) == if |Split(u, '.')| >= 3 then ParseMajorMinor(u) else None
  {
    var w := TrimPrefix(u, "v");
    VPrefix(u, blanks);
    SplitBeforeBlanks(w, blanks);
    BlankLastPart(Split(w, '.'), Split(w + blanks, '.'), blanks);
  }

  /** The planner reads a version as the report does or not at all; and it reads one that the report
      reads exactly when blanks do not stand in the way. */
  lemma PlannerReadsIff(v: string)
    ensures ParseMajorMinor(v).Some? ==> ParseMajorMinor(v) == ParseTrimmed(v)
    ensures ParseTrimmed(v).Some? ==> (ParseMajorMinor(v).Some? <==> PlannerReads(v))
  {
    if v != "" {
      if IsSpace(v[0]) {
        LeadingBlankIsRejected(v);
      } else {
        TrimRightIs(v);
        var u := TrimSpace(v);
        assert u == TrimRight(v);
        TrimRightEnds(v);
        var blanks := v[|u|..];
        assert v == u + blanks;
        if blanks == "" {
          assert u == v;
        } else {
          assert u != "";
          TrailingBlanks(u, blanks);
        }
      }
    }
  }

  /** The stops along the hops are the path the report shows. */
  ghost predicate StopsFollowReport(fromVersion: string, toVersion: string, hops: seq<Hop>) {
    && hops != [] && ParseTrimmed(fromVersion).Some? && ParseTrimmed(toVersion).Some?
    && IsMinorPath(ParseTrimmed(fromVersion).value, ParseTrimmed(toVersion).value, Stops(hops))
  }

  /** The planner and the report agree on the route: hops are generated exactly when the report calls
      the target an upgrade and the planner reads both versions, and then the stops along them are
      the report's upgrade path. So the two agree exactly when no upgrade has a version the planner
      cannot read. */
  lemma HopsFollowUpgradePath(fromVersion: string, toVersion: string, r: HopResult)
    requires IsHopResult(ParseMajorMinor(fromVersion), ParseMajorMinor(toVersion), r)
    ensures var upgrade := CompareMinorVersions(fromVersion, toVersion) == Some(VersionUpgrade);
            && (r.Hops? <==> upgrade && PlannerReads(fromVersion) && PlannerReads(toVersion))
            && ((r.Hops? <==> upgrade) <==> (upgrade ==> PlannerReads(fromVersion) && PlannerReads(toVersion)))
    ensures r.Hops? ==> StopsFollowReport(fromVersion, toVersion, r.hops)
  {
    PlannerReadsIff(fromVersion);
    PlannerReadsIff(toVersion);
    if r.Hops? {
      StopsAreMinorPath(ParseMajorMinor(fromVersion).value, ParseMajorMinor(toVersion).value, r.hops);
    }
  }

  /** A leading blank makes them differ: every version the report reads, the planner then rejects. */
  lemma PlannerRejectsLeadingSpace(v: string)
    ensures ParseMajorMinor(" " + v) == None
    ensures ParseTrimmed(" " + v) == ParseTrimmed(v)
  {
    LeadingBlankIsRejected(" " + v);
    assert (" " + v)[1..] == v;
  }

  lemma PrintedIsTrimmed(major: int, minor: int)
    ensures TrimSpace(PrintMajorMinor(major, minor)) == PrintMajorMinor(major, minor)
  {
    var a, b := Itoa(major), Itoa(minor);
    NatTextReads(if major < 0 then -major else major);
    NatTextReads(if minor < 0 then -minor else minor);
    assert !IsSpace(a[0]) && !IsSpace(b[|b| - 1]);
    TrimSpaceIs(PrintMajorMinor(major, minor));
  }

  /** So one blank before the start of a one-minor upgrade makes the planner refuse what the report
      calls an upgrade. */
  lemma BlankHidesUpgrade(major: int, minor: int, r: HopResult)
    requires MIN_INT <= major <= MAX_INT && MIN_INT <= minor < MAX_INT
    requires IsHopResult(ParseMajorMinor(" " + PrintMajorMinor(major, minor)),
                         ParseMajorMinor(PrintMajorMinor(major, minor + 1)), r)
    ensures CompareMinorVersions(" " + PrintMajorMinor(major, minor), PrintMajorMinor(major, minor + 1))
            == Some(VersionUpgrade)
    ensures r == HopFailure(BadFromVersion)
  {
    PlannerRejectsLeadingSpace(PrintMajorMinor(major, minor));
    PrintedIsTrimmed(major, minor);
    PrintedIsTrimmed(major, minor + 1);
    ParseReadsPrint(major, minor);
    ParseReadsPrint(major, minor + 1);
  }
}
