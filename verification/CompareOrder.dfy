/** The tracked fields of a finding and the order of comparison buckets
    (internal/comparison/compare.go, sort.go). */
module CompareOrder {
  import opened Orders
  import opened Text
  import opened Findings

  // ---- tracked fields -----------------------------------------------------------------------------------

  datatype Field =
    | FieldSeverity | FieldPriority | FieldConfidence | FieldCanUpgradeContinue | FieldUpgradeGate
    | FieldImpactScopes | FieldAffectedScope | FieldRuleID | FieldResource

  datatype FieldValue =
    | SeverityValue(severity: Severity) | ConfidenceValue(tier: ConfidenceTier) | GateValue(gate: UpgradeGate)
    | BoolValue(flag: bool) | TextValue(text: string)

  datatype FieldChange = FieldChange(before: FieldValue, after: FieldValue)

  function PlaneText(p: Plane): string {
    match p case PlaneLive => "live" case PlaneManifest => "manifest" case PlaneAWS => "aws" case PlaneOther(raw) => raw
  }

  /** One reference in the joined text. */
  function ResourceText(r: ResourceReference): string {
    PlaneText(r.plane) + ":" + r.kind + ":" + r.namespace + "/" + r.name + ";"
  }

  function ResourceIdentity(refs: seq<ResourceReference>): string {
    Concat(ResourceText, refs)
  }

  function ScopeText(scope: string): string {
    scope + ";"
  }

  function ImpactScopeIdentity(scopes: seq<string>): string {
    Concat(ScopeText, scopes)
  }

  /** What the comparison looks at: never message, evidence or remediation text. */
  function ValueOf(f: Finding, field: Field): FieldValue {
    match field
    case FieldSeverity => SeverityValue(f.severity)
    case FieldPriority => TextValue(f.priority)
    case FieldConfidence => ConfidenceValue(f.confidence)
    case FieldCanUpgradeContinue => BoolValue(f.canUpgradeContinue)
    case FieldUpgradeGate => GateValue(f.EffectiveUpgradeGate())
    case FieldImpactScopes => TextValue(ImpactScopeIdentity(f.impactScopes))
    case FieldAffectedScope => TextValue(f.affectedScope)
    case FieldRuleID => TextValue(f.ruleID)
    case FieldResource => TextValue(ResourceIdentity(f.resources))
  }

  type Changes = map<Field, FieldChange>

  /** The changes are exactly the tracked fields in which the two findings differ. */
  ghost predicate IsDiffOf(before: Finding, after: Finding, changes: Changes) {
    forall field: Field ::
      && (field in changes <==> ValueOf(before, field) != ValueOf(after, field))
      && (field in changes ==> changes[field] == FieldChange(ValueOf(before, field), ValueOf(after, field)))
  }

  lemma DiffIsUnique(before: Finding, after: Finding, c: Changes, d: Changes)
    requires IsDiffOf(before, after, c) && IsDiffOf(before, after, d)
    ensures c == d
  {
    assert forall field :: field in c <==> field in d;
  }

  /** The tracked fields in the order the code looks at them. */
  const TRACKED_FIELDS: seq<Field> :=
    [FieldSeverity, FieldPriority, FieldConfidence, FieldCanUpgradeContinue, FieldUpgradeGate,
     FieldImpactScopes, FieldAffectedScope, FieldRuleID, FieldResource]

  function DiffOver(before: Finding, after: Finding, fields: seq<Field>): Changes {
    if fields == [] then map[]
    else
      var front, field := DiffOver(before, after, fields[..|fields| - 1]), fields[|fields| - 1];
      var b, a := ValueOf(before, field), ValueOf(after, field);
      if b != a then front[field := FieldChange(b, a)] else front
  }

  /** `diffFinding`. */
  function DiffFinding(before: Finding, after: Finding): Changes {
    DiffOver(before, after, TRACKED_FIELDS)
  }

  lemma {:induction false} DiffOverIs(before: Finding, after: Finding, fields: seq<Field>, field: Field)
    ensures var c := DiffOver(before, after, fields);
            && (field in c <==> field in fields && ValueOf(before, field) != ValueOf(after, field))
            && (field in c ==> c[field] == FieldChange(ValueOf(before, field), ValueOf(after, field)))
  {
    if fields != [] {
      DiffOverIs(before, after, fields[..|fields| - 1], field);
      assert fields == fields[..|fields| - 1] + [fields[|fields| - 1]];
    }
  }

  lemma EveryFieldIsTracked(field: Field)
    ensures field in TRACKED_FIELDS
  {
    var k := match field
      case FieldSeverity => 0
      case FieldPriority => 1
      case FieldConfidence => 2
      case FieldCanUpgradeContinue => 3
      case FieldUpgradeGate => 4
      case FieldImpactScopes => 5
      case FieldAffectedScope => 6
      case FieldRuleID => 7
      case FieldResource => 8;
    assert TRACKED_FIELDS[k] == field;
  }

  lemma DiffFindingIs(before: Finding, after: Finding)
    ensures IsDiffOf(before, after, DiffFinding(before, after))
  {
    forall field: Field
      ensures field in DiffFinding(before, after) <==> ValueOf(before, field) != ValueOf(after, field)
      ensures field in DiffFinding(before, after) ==>
                DiffFinding(before, after)[field] == FieldChange(ValueOf(before, field), ValueOf(after, field))
    {
      EveryFieldIsTracked(field);
      DiffOverIs(before, after, TRACKED_FIELDS, field);
    }
  }

  // ---- the order of a bucket ---------------------------------------------------------------------------------

  datatype Changed = Changed(fingerprint: string, ruleID: string, resources: seq<ResourceReference>, changes: Changes)

  datatype SortKey = SortKey(priority: string, severity: int, ruleID: string, namespace: string, name: string,
                             fingerprint: string) {
    predicate Less(o: SortKey) {
      if priority != o.priority then StrLess(priority, o.priority)
      else if severity != o.severity then severity < o.severity
      else if ruleID != o.ruleID then StrLess(ruleID, o.ruleID)
      else if namespace != o.namespace then StrLess(namespace, o.namespace)
      else if name != o.name then StrLess(name, o.name)
      else StrLess(fingerprint, o.fingerprint)
    }
  }

  lemma SortKeyLaws()
    ensures forall k: SortKey :: !k.Less(k)
    ensures forall k: SortKey, l: SortKey {:trigger k.Less(l)} :: k == l || k.Less(l) || l.Less(k)
    ensures forall k: SortKey, l: SortKey, m: SortKey {:trigger k.Less(l), l.Less(m)} ::
              k.Less(l) && l.Less(m) ==> k.Less(m)
  {
    StrLessLaws();
  }

  /** A severity outside the table ranks like the first. */
  function SeverityOrder(s: Severity): int {
    match s case SeverityBlocker => 0 case SeverityWarning => 1 case SeverityInfo => 2 case SeverityOther(_) => 0
  }

  function PriorityForSort(p: string): string {
    if p == "" then "P9" else p
  }

  function FirstNamespace(refs: seq<ResourceReference>): string {
    if refs == [] then "" else refs[0].namespace
  }

  function FirstName(refs: seq<ResourceReference>): string {
    if refs == [] then "" else refs[0].name
  }

  function KeyOf(f: Finding): SortKey {
    SortKey(PriorityForSort(f.priority), SeverityOrder(f.severity), f.ruleID, FirstNamespace(f.resources),
            FirstName(f.resources), f.fingerprint)
  }

  function TextOf(v: FieldValue): string {
    match v case TextValue(text) => text case _ => ""
  }

  /** Only a changed priority counts; severity is left at zero. */
  function KeyOfChanged(c: Changed): SortKey {
    var priority := if FieldPriority in c.changes then TextOf(c.changes[FieldPriority].after) else "";
    SortKey(PriorityForSort(priority), 0, c.ruleID, FirstNamespace(c.resources), FirstName(c.resources), c.fingerprint)
  }

  /** The priority a changed entry is sorted by. */
  function ShownPriority(before: Finding, after: Finding): string {
    if before.priority != after.priority then PriorityForSort(after.priority) else PriorityForSort("")
  }

  function ChangedEntry(before: Finding, after: Finding): Changed {
    Changed(after.fingerprint, after.ruleID, after.resources, DiffFinding(before, after))
  }

  /** A changed entry sorts like its current finding, but with severity left out and the priority shown
      only when it changed. */
  lemma ChangedKeyIs(before: Finding, after: Finding)
    ensures KeyOfChanged(ChangedEntry(before, after))
            == KeyOf(after).(priority := ShownPriority(before, after), severity := 0)
  {
    DiffFindingIs(before, after);
    var c := DiffFinding(before, after);
    assert FieldPriority in c <==> ValueOf(before, FieldPriority) != ValueOf(after, FieldPriority);
  }

  predicate EntryLess(a: Finding, b: Finding) {
    KeyOf(a).Less(KeyOf(b))
  }

  predicate ChangedLess(a: Changed, b: Changed) {
    KeyOfChanged(a).Less(KeyOfChanged(b))
  }

  predicate BlockerFirst(a: Finding, b: Finding) {
    if Blocks(a) != Blocks(b) then Blocks(a) else EntryLess(a, b)
  }

  /** The members of `s` are told apart by their fingerprints. */
  ghost predicate Identified(s: seq<Finding>) {
    forall x, y | x in s && y in s && x.fingerprint == y.fingerprint :: x == y
  }

  ghost predicate IdentifiedChanges(s: seq<Changed>) {
    forall x, y | x in s && y in s && x.fingerprint == y.fingerprint :: x == y
  }

  /** On entries told apart by their fingerprints every bucket order is strict and total. */
  lemma BucketOrdersAreTotal(s: seq<Finding>)
    requires Identified(s)
    ensures StrictTotalOn(EntryLess, s) && StrictTotalOn(BlockerFirst, s)
  {
    SortKeyLaws();
  }

  lemma ChangedOrderIsTotal(s: seq<Changed>)
    requires IdentifiedChanges(s)
    ensures StrictTotalOn(ChangedLess, s)
  {
    SortKeyLaws();
  }

  // ---- the documented order of changed entries ----------------------------------------------------------------

  /** Priority, then severity: what the documented order looks at first. */
  predicate HeadLess(k: SortKey, l: SortKey) {
    if k.priority != l.priority then StrLess(k.priority, l.priority) else k.severity < l.severity
  }

  /** `k` with the rest of another key behind its priority and severity. */
  function WithRest(k: SortKey, rest: SortKey): SortKey {
    rest.(priority := k.priority, severity := k.severity)
  }

  /** The two keys are ordered alike by their heads. */
  predicate HeadsAgree(k: SortKey, l: SortKey, k': SortKey, l': SortKey) {
    (HeadLess(k, l) <==> HeadLess(k', l')) && (HeadLess(l, k) <==> HeadLess(l', k'))
  }

  lemma LessByHead(k: SortKey, l: SortKey, x: SortKey, y: SortKey)
    ensures WithRest(k, x).Less(WithRest(l, y)) <==>
              HeadLess(k, l) || (!HeadLess(l, k) && WithRest(k, x).Less(WithRest(k, y)))
    ensures WithRest(k, x).Less(WithRest(k, y)) <==> WithRest(l, x).Less(WithRest(l, y))
  {
    StrLessLaws();
  }

  /** Two keys and their shown forms order all entries alike, whatever stands behind priority and
      severity. */
  ghost predicate OrderAlike(k: SortKey, l: SortKey, k': SortKey, l': SortKey) {
    forall x: SortKey, y: SortKey {:trigger WithRest(k, x), WithRest(l, y)} ::
      WithRest(k, x).Less(WithRest(l, y)) <==> WithRest(k', x).Less(WithRest(l', y))
  }

  /** They do exactly when the heads are ordered alike: the same one first in both, or a tie in both. */
  lemma OrderAlikeIff(k: SortKey, l: SortKey, k': SortKey, l': SortKey)
    ensures OrderAlike(k, l, k', l') <==> HeadsAgree(k, l, k', l')
  {
    if HeadsAgree(k, l, k', l') {
      forall x: SortKey, y: SortKey
        ensures WithRest(k, x).Less(WithRest(l, y)) <==> WithRest(k', x).Less(WithRest(l', y))
      {
        LessByHead(k, l, x, y);
        LessByHead(k', l', x, y);
        LessByHead(k, k', x, y);
      }
    } else {
      var low, high := SortKey("", 0, "a", "", "", ""), SortKey("", 0, "b", "", "", "");
      assert StrLess("a", "b") && !StrLess("b", "a");
      DisagreesSomewhere(k, l, k', l', low, high);
    }
  }

  lemma DisagreesSomewhere(k: SortKey, l: SortKey, k': SortKey, l': SortKey, low: SortKey, high: SortKey)
    requires !HeadsAgree(k, l, k', l')
    requires low.ruleID != high.ruleID && StrLess(low.ruleID, high.ruleID) && !StrLess(high.ruleID, low.ruleID)
    ensures !OrderAlike(k, l, k', l')
  {
    StrLessLaws();
    LessByHead(k, l, low, high);
    LessByHead(k', l', low, high);
    LessByHead(k, l, high, low);
    LessByHead(k', l', high, low);
  }

  /** Two changed entries stand in the documented order whenever their priorities and severities are
      ordered like the priorities shown. */
  lemma ChangedOrderIsDocumented(b1: Finding, a1: Finding, b2: Finding, a2: Finding)
    requires HeadsAgree(KeyOf(a1), KeyOf(a2), KeyOfChanged(ChangedEntry(b1, a1)), KeyOfChanged(ChangedEntry(b2, a2)))
    ensures ChangedLess(ChangedEntry(b1, a1), ChangedEntry(b2, a2)) <==> EntryLess(a1, a2)
  {
    var k, l := KeyOf(a1), KeyOf(a2);
    var k', l' := KeyOfChanged(ChangedEntry(b1, a1)), KeyOfChanged(ChangedEntry(b2, a2));
    ChangedKeyIs(b1, a1);
    ChangedKeyIs(b2, a2);
    OrderAlikeIff(k, l, k', l');
    assert WithRest(k, k) == k && WithRest(l, l) == l && WithRest(k', k) == k' && WithRest(l', l) == l';
  }

  /** Otherwise not: a P4 entry and a P1 entry whose severities changed and priorities did not. The P4
      entry with the smaller rule ID comes first; the documented order puts the P1 entry first. */
  lemma UnchangedPrioritiesAreIgnored(b1: Finding, a1: Finding, b2: Finding, a2: Finding)
    requires b1.priority == a1.priority == "P4" && b2.priority == a2.priority == "P1"
    requires b1.severity != a1.severity && b2.severity != a2.severity && StrLess(a1.ruleID, a2.ruleID)
    ensures ChangedEntry(b1, a1).changes != map[] && ChangedEntry(b2, a2).changes != map[]
    ensures ChangedLess(ChangedEntry(b1, a1), ChangedEntry(b2, a2)) && !EntryLess(a1, a2) && EntryLess(a2, a1)
  {
    ChangedKeyIs(b1, a1);
    ChangedKeyIs(b2, a2);
    StrLessLaws();
    SeverityChangeIsRecorded(b1, a1);
    SeverityChangeIsRecorded(b2, a2);
  }

  lemma SeverityChangeIsRecorded(before: Finding, after: Finding)
    requires before.severity != after.severity
    ensures DiffFinding(before, after) != map[]
  {
    DiffFindingIs(before, after);
    assert ValueOf(before, FieldSeverity) != ValueOf(after, FieldSeverity);
    assert FieldSeverity in DiffFinding(before, after);
  }

  /** Sorts a bucket of identified entries. */
  method SortBucket(s: seq<Finding>, less: (Finding, Finding) -> bool) returns (r: seq<Finding>)
    requires NoDuplicates(s) && StrictTotalOn(less, s)
    ensures NoDuplicates(r) && Sorted(less, r) && forall f :: f in r <==> f in s
  {
    r := SortSlice(s, less);
    PermutationKeepsNoDuplicates(s, r);
    SameMembers(s, r);
    NeighboursOrderedIsSorted(less, r);
  }

  method SortChanges(s: seq<Changed>) returns (r: seq<Changed>)
    requires NoDuplicates(s) && IdentifiedChanges(s)
    ensures NoDuplicates(r) && Sorted(ChangedLess, r) && forall c :: c in r <==> c in s
  {
    ChangedOrderIsTotal(s);
    r := SortSlice(s, ChangedLess);
    PermutationKeepsNoDuplicates(s, r);
    SameMembers(s, r);
    NeighboursOrderedIsSorted(ChangedLess, r);
  }
}
