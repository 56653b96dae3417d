/** What the comparison of two findings tells apart (internal/comparison/compare.go): the tracked fields
    themselves, not the texts they are joined into. */
module CompareMeaning {
  import opened Text
  import opened Findings
  import opened CompareOrder
  import opened Comparison

  // ---- joined texts -----------------------------------------------------------------------------------

  /** A separator that neither head holds splits equal texts alike. */
  lemma SplitsAlike(a: string, b: string, c: char, x: string, y: string)
    requires c !in a && c !in b && a + [c] + x == b + [c] + y
    ensures a == b && x == y
  {
    SplitFirst(a, c, x);
    SplitFirst(b, c, y);
    assert a == Split(a + [c] + x, c)[0] == b;
    assert x == (a + [c] + x)[|a| + 1..] && y == (b + [c] + y)[|b| + 1..];
  }

  predicate NoSemicolons(scopes: seq<string>) {
    forall s | s in scopes :: ';' !in s
  }

  /** The joined scopes tell scope lists apart, order and repetition included. */
  lemma {:induction false} ScopesAreTold(s: seq<string>, t: seq<string>)
    requires NoSemicolons(s) && NoSemicolons(t)
    ensures ImpactScopeIdentity(s) == ImpactScopeIdentity(t) <==> s == t
  {
    if s != [] {
      ConcatFromFront(ScopeText, s);
    }
    if t != [] {
      ConcatFromFront(ScopeText, t);
    }
    if s != [] && t != [] && ImpactScopeIdentity(s) == ImpactScopeIdentity(t) {
      SplitsAlike(s[0], t[0], ';', ImpactScopeIdentity(s[1..]), ImpactScopeIdentity(t[1..]));
      ScopesAreTold(s[1..], t[1..]);
      assert s == [s[0]] + s[1..] && t == [t[0]] + t[1..];
    }
  }

  /** No part of the reference holds the separator that follows it, and an unlisted plane is not spelled
      like a listed one. */
  predicate IsSeparable(r: ResourceReference) {
    && ':' !in PlaneText(r.plane) && ':' !in r.kind && '/' !in r.namespace && ';' !in r.name
    && (r.plane.PlaneOther? ==> r.plane.raw != "live" && r.plane.raw != "manifest" && r.plane.raw != "aws")
  }

  predicate SameObject(r: ResourceReference, s: ResourceReference) {
    r.plane == s.plane && r.kind == s.kind && r.namespace == s.namespace && r.name == s.name
  }

  predicate SameObjects(rs: seq<ResourceReference>, ss: seq<ResourceReference>) {
    |rs| == |ss| && forall i | 0 <= i < |rs| :: SameObject(rs[i], ss[i])
  }

  lemma PlanesAreTold(r: ResourceReference, s: ResourceReference)
    requires IsSeparable(r) && IsSeparable(s) && PlaneText(r.plane) == PlaneText(s.plane)
    ensures r.plane == s.plane
  {
    assert "live"[0] != "manifest"[0] && "live"[0] != "aws"[0] && "manifest"[0] != "aws"[0];
  }

  lemma Chained(a: string, b: string, c: string, d: string, x: string)
    ensures (a + ":" + b + ":" + c + "/" + d + ";") + x
            == a + [':'] + (b + [':'] + (c + ['/'] + (d + [';'] + x)))
  {
  }

  /** Four texts with their separators can be read off the front one after the other. */
  lemma ChainsAreTold(a: string, b: string, c: string, d: string, x: string,
                      a': string, b': string, c': string, d': string, y: string)
    requires ':' !in a && ':' !in b && '/' !in c && ';' !in d && ':' !in a' && ':' !in b' && '/' !in c' && ';' !in d'
    requires (a + ":" + b + ":" + c + "/" + d + ";") + x == (a' + ":" + b' + ":" + c' + "/" + d' + ";") + y
    ensures a == a' && b == b' && c == c' && d == d' && x == y
  {
    Chained(a, b, c, d, x);
    Chained(a', b', c', d', y);
    SplitsAlike(a, a', ':', b + [':'] + (c + ['/'] + (d + [';'] + x)), b' + [':'] + (c' + ['/'] + (d' + [';'] + y)));
    SplitsAlike(b, b', ':', c + ['/'] + (d + [';'] + x), c' + ['/'] + (d' + [';'] + y));
    SplitsAlike(c, c', '/', d + [';'] + x, d' + [';'] + y);
    SplitsAlike(d, d', ';', x, y);
  }

  /** A reference can be read off the front of the joined text. */
  lemma PiecesAreTold(r: ResourceReference, x: string, s: ResourceReference, y: string)
    requires IsSeparable(r) && IsSeparable(s) && ResourceText(r) + x == ResourceText(s) + y
    ensures SameObject(r, s) && x == y
  {
    ChainsAreTold(PlaneText(r.plane), r.kind, r.namespace, r.name, x, PlaneText(s.plane), s.kind, s.namespace, s.name,
                  y);
    PlanesAreTold(r, s);
  }

  predicate AllSeparable(refs: seq<ResourceReference>) {
    forall r | r in refs :: IsSeparable(r)
  }

  /** The joined resources tell lists of objects apart, order and repetition included. */
  lemma {:induction false} ResourcesAreTold(rs: seq<ResourceReference>, ss: seq<ResourceReference>)
    requires AllSeparable(rs) && AllSeparable(ss)
    ensures ResourceIdentity(rs) == ResourceIdentity(ss) <==> SameObjects(rs, ss)
  {
    if rs != [] {
      ConcatFromFront(ResourceText, rs);
    }
    if ss != [] {
      ConcatFromFront(ResourceText, ss);
    }
    if rs != [] && ss != [] {
      ResourcesAreTold(rs[1..], ss[1..]);
      SameObjectsFromFront(rs, ss);
      if ResourceIdentity(rs) == ResourceIdentity(ss) {
        PiecesAreTold(rs[0], ResourceIdentity(rs[1..]), ss[0], ResourceIdentity(ss[1..]));
      }
    }
  }

  lemma SameObjectsFromFront(rs: seq<ResourceReference>, ss: seq<ResourceReference>)
    requires rs != [] && ss != []
    ensures SameObjects(rs, ss) <==> SameObject(rs[0], ss[0]) && SameObjects(rs[1..], ss[1..])
  {
    if SameObject(rs[0], ss[0]) && SameObjects(rs[1..], ss[1..]) {
      forall i | 0 <= i < |rs|
        ensures SameObject(rs[i], ss[i])
      {
        if i > 0 {
          assert SameObject(rs[1..][i - 1], ss[1..][i - 1]);
        }
      }
    }
    if SameObjects(rs, ss) {
      forall i | 0 <= i < |rs[1..]|
        ensures SameObject(rs[1..][i], ss[1..][i])
      {
        assert SameObject(rs[i + 1], ss[i + 1]);
      }
    }
  }

  /** With a separator inside a scope the join cannot tell: one scope "a;b" reads like two. */
  lemma SeparatorsHideScopes()
    ensures ImpactScopeIdentity(["a;b"]) == ImpactScopeIdentity(["a", "b"])
  {
    ConcatFromFront(ScopeText, ["a;b"]);
    ConcatFromFront(ScopeText, ["a", "b"]);
    ConcatFromFront(ScopeText, ["b"]);
    assert ["a", "b"][1..] == ["b"] && ["a;b"][1..] == [] && ["b"][1..] == [];
  }

  // ---- the tracked fields ---------------------------------------------------------------------------------

  predicate IsReadable(f: Finding) {
    NoSemicolons(f.impactScopes) && AllSeparable(f.resources)
  }

  /** The change of one field is recorded, with its values before and after. */
  ghost predicate Notes(d: Changes, field: Field, differs: bool, before: FieldValue, after: FieldValue) {
    (field in d <==> differs) && (field in d ==> d[field] == FieldChange(before, after))
  }

  lemma NotedByValue(f: Finding, g: Finding, field: Field)
    ensures Notes(DiffFinding(f, g), field, ValueOf(f, field) != ValueOf(g, field), ValueOf(f, field),
                  ValueOf(g, field))
  {
    DiffFindingIs(f, g);
  }

  /** Which fields a comparison records for two readable findings, and with which values. */
  lemma RecordedChange(f: Finding, g: Finding, field: Field)
    requires IsReadable(f) && IsReadable(g)
    ensures var d := DiffFinding(f, g);
            match field
            case FieldSeverity =>
              Notes(d, field, f.severity != g.severity, SeverityValue(f.severity), SeverityValue(g.severity))
            case FieldPriority =>
              Notes(d, field, f.priority != g.priority, TextValue(f.priority), TextValue(g.priority))
            case FieldConfidence =>
              Notes(d, field, f.confidence != g.confidence, ConfidenceValue(f.confidence),
                    ConfidenceValue(g.confidence))
            case FieldCanUpgradeContinue =>
              Notes(d, field, f.canUpgradeContinue != g.canUpgradeContinue,
                    BoolValue(f.canUpgradeContinue), BoolValue(g.canUpgradeContinue))
            case FieldUpgradeGate =>
              Notes(d, field, f.EffectiveUpgradeGate() != g.EffectiveUpgradeGate(),
                    GateValue(f.EffectiveUpgradeGate()), GateValue(g.EffectiveUpgradeGate()))
            case FieldAffectedScope =>
              Notes(d, field, f.affectedScope != g.affectedScope, TextValue(f.affectedScope),
                    TextValue(g.affectedScope))
            case FieldRuleID =>
              Notes(d, field, f.ruleID != g.ruleID, TextValue(f.ruleID), TextValue(g.ruleID))
            case FieldImpactScopes => field in d <==> f.impactScopes != g.impactScopes
            case FieldResource => field in d <==> !SameObjects(f.resources, g.resources)
  {
    NotedByValue(f, g, field);
    match field {
      case FieldImpactScopes => ScopesAreTold(f.impactScopes, g.impactScopes);
      case FieldResource => ResourcesAreTold(f.resources, g.resources);
      case _ =>
    }
  }

  /** Alike in everything the comparison looks at. */
  predicate AlikeInTrackedFields(f: Finding, g: Finding) {
    && f.severity == g.severity && f.priority == g.priority && f.confidence == g.confidence
    && f.canUpgradeContinue == g.canUpgradeContinue && f.EffectiveUpgradeGate() == g.EffectiveUpgradeGate()
    && f.impactScopes == g.impactScopes && f.affectedScope == g.affectedScope && f.ruleID == g.ruleID
    && SameObjects(f.resources, g.resources)
  }

  lemma NothingRecordedIff(f: Finding, g: Finding)
    requires IsReadable(f) && IsReadable(g)
    ensures DiffFinding(f, g) == map[] <==> AlikeInTrackedFields(f, g)
  {
    var d := DiffFinding(f, g);
    RecordedChange(f, g, FieldSeverity);
    RecordedChange(f, g, FieldPriority);
    RecordedChange(f, g, FieldConfidence);
    RecordedChange(f, g, FieldCanUpgradeContinue);
    RecordedChange(f, g, FieldUpgradeGate);
    RecordedChange(f, g, FieldImpactScopes);
    RecordedChange(f, g, FieldAffectedScope);
    RecordedChange(f, g, FieldRuleID);
    RecordedChange(f, g, FieldResource);
    NoFieldIn(d);
  }

  lemma NoFieldIn(d: Changes)
    ensures d == map[] <==>
              && FieldSeverity !in d && FieldPriority !in d && FieldConfidence !in d && FieldCanUpgradeContinue !in d
              && FieldUpgradeGate !in d && FieldImpactScopes !in d && FieldAffectedScope !in d && FieldRuleID !in d
              && FieldResource !in d
  {
    if field :| field in d {
      match field {
        case FieldSeverity => case FieldPriority => case FieldConfidence => case FieldCanUpgradeContinue =>
        case FieldUpgradeGate => case FieldImpactScopes => case FieldAffectedScope => case FieldRuleID =>
        case FieldResource =>
      }
    }
  }

  /** A finding of both reports is listed as unchanged exactly when the two are alike in severity,
      priority, confidence, continue flag, effective gate, impact scopes, affected scope, rule ID and the
      objects they name; and as changed exactly when they are not. */
  lemma UnchangedMeans(b: Index, c: Index, byRule: Records, d: Buckets, fp: string)
    requires WellIndexed(b) && WellIndexed(c) && BucketsHold(b, c, byRule, d)
    requires fp in b && fp in c && IsReadable(b[fp]) && IsReadable(c[fp])
    ensures c[fp] in d.same <==> AlikeInTrackedFields(b[fp], c[fp])
    ensures (exists x :: x in d.changed && x.fingerprint == fp) <==> !AlikeInTrackedFields(b[fp], c[fp])
  {
    NothingRecordedIff(b[fp], c[fp]);
    assert IsUnchanged(b, c, c[fp]) <==> DiffFinding(b[fp], c[fp]) == map[];
    if DiffFinding(b[fp], c[fp]) != map[] {
      assert IsChanged(b, c, ChangedEntry(b[fp], c[fp]));
    }
  }
}
