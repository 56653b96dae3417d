/** The finding schema shared by every part of the decision engine (internal/findings). String
    enumerations keep their unlisted values: each has a constructor for any other text. */
module Findings {
  import opened Orders
  import opened Text

  datatype Option<+T> = None | Some(value: T)

  datatype Severity = SeverityBlocker | SeverityWarning | SeverityInfo | SeverityOther(raw: string)
  datatype ConfidenceTier =
    TierStaticCertain | TierObserved | TierProviderReported | TierInferred | TierOther(raw: string)
  datatype UpgradeGate = GateUnset | GateBlock | GateAllow | GateOperatorDecision | GateOther(raw: string)
  datatype Plane = PlaneLive | PlaneManifest | PlaneAWS | PlaneOther(raw: string)
  datatype ResourceScope = ScopeCluster | ScopeNamespaced | ScopeOther(raw: string)

  datatype ResourceReference = ResourceReference(
    plane: Plane, kind: string, scope: ResourceScope, namespace: string, name: string,
    uid: string, sourcePath: string, category: string, kubernetesVersion: string, providerID: string)

  datatype Finding = Finding(
    ruleID: string, severity: Severity, confidence: ConfidenceTier, resources: seq<ResourceReference>,
    evidence: seq<string>, remediation: string, impactScopes: seq<string>, upgradeGate: UpgradeGate,
    globalBlocker: bool, criticalInfra: bool, priority: string, affectedScope: string,
    canUpgradeContinue: bool, fingerprint: string)
  {
    function EffectiveUpgradeGate(): UpgradeGate {
      if upgradeGate != GateUnset then upgradeGate
      else if globalBlocker || severity == SeverityBlocker then GateBlock
      else GateAllow
    }
  }

  predicate Blocks(f: Finding) {
    f.EffectiveUpgradeGate() == GateBlock
  }

  predicate NeedsOperator(f: Finding) {
    f.EffectiveUpgradeGate() == GateOperatorDecision
  }

  /** P1 sorts first; anything unrecognised sorts last. */
  function PriorityRank(p: string): nat {
    if p == "P1" then 0 else if p == "P2" then 1 else if p == "P3" then 2 else if p == "P4" then 3 else 4
  }

  /** An explicit gate counts as it is; without one a Blocker or a global blocker blocks and everything
      else is let through. */
  lemma GateMeans(f: Finding)
    ensures Blocks(f) <==>
              || f.upgradeGate == GateBlock
              || (f.upgradeGate == GateUnset && (f.globalBlocker || f.severity == SeverityBlocker))
    ensures NeedsOperator(f) <==> f.upgradeGate == GateOperatorDecision
    ensures f.EffectiveUpgradeGate() == GateAllow <==>
              || f.upgradeGate == GateAllow
              || (f.upgradeGate == GateUnset && !f.globalBlocker && f.severity != SeverityBlocker)
  {
  }

  // ---- resource identity -------------------------------------------------------------------
  // `digest` stands for the JSON encoding and hash of a list of key parts.

  function ConceptParts(r: ResourceReference): Option<seq<string>> {
    if r.plane == PlaneLive || r.plane == PlaneManifest then
      if r.kind == "" || r.name == "" then None
      else if r.scope == ScopeNamespaced && r.namespace == "" then None
      else if r.scope != ScopeCluster && r.scope != ScopeNamespaced then None
      else Some(["k8s-object", r.kind, r.namespace, r.name])
    else if r.plane == PlaneAWS then
      if r.providerID == "" then None
      else if r.kind == "EKSUpgradeInsight" then
        if r.category == "" || r.kubernetesVersion == "" then None
        else Some(["aws-insight", r.category, r.kubernetesVersion, r.providerID])
      else Some(["aws-resource", r.kind, r.providerID])
    else None
  }

  function OccurrenceParts(r: ResourceReference): seq<string> {
    match r.plane
    case PlaneLive => ["occurrence", "live", r.uid]
    case PlaneManifest => ["occurrence", "manifest", r.sourcePath, r.kind, r.namespace, r.name]
    case PlaneAWS => ["occurrence", "aws", r.providerID]
    case PlaneOther(raw) => ["occurrence", raw, r.kind, r.namespace, r.name]
  }

  /** The concept key when there is one, the occurrence key otherwise. */
  function IdentityParts(r: ResourceReference): seq<string> {
    match ConceptParts(r) case Some(parts) => parts case None => OccurrenceParts(r)
  }

  ghost predicate Injective(digest: seq<string> -> string) {
    forall x: seq<string>, y: seq<string> :: digest(x) == digest(y) ==> x == y
  }

  /** The distinct identity keys of a list of references, in order of first appearance. */
  method UniqueKeys(digest: seq<string> -> string, refs: seq<ResourceReference>) returns (keys: seq<string>)
    ensures NoDuplicates(keys)
    ensures forall k :: k in keys <==> exists r :: r in refs && digest(IdentityParts(r)) == k
    ensures refs != [] ==> keys != []
  {
    keys := [];
    var seen: set<string> := {};
    for i := 0 to |refs|
      invariant NoDuplicates(keys)
      invariant forall k :: k in keys <==> k in seen
      invariant forall k :: k in seen <==> exists r :: r in refs[..i] && digest(IdentityParts(r)) == k
      invariant i > 0 ==> keys != []
    {
      var key := digest(IdentityParts(refs[i]));
      assert refs[..i + 1] == refs[..i] + [refs[i]];
      if key !in seen {
        seen := seen + {key};
        keys := keys + [key];
      }
    }
    assert refs[..|refs|] == refs;
  }

  /** The identity of a finding: rule, target, discriminator and the sorted resource keys. */
  method FingerprintV2(digest: seq<string> -> string, ruleID: string, target: string, discriminator: string,
                       refs: seq<ResourceReference>) returns (fp: string)
    ensures IsFingerprintV2(digest, ruleID, target, discriminator, refs, fp)
  {
    var keys := UniqueKeys(digest, refs);
    StrLessLaws();
    var sorted := SortSlice(keys, StrLess);
    PermutationKeepsNoDuplicates(keys, sorted);
    SameMembers(keys, sorted);
    NeighboursOrderedIsSorted(StrLess, sorted);
    fp := digest(["finding-v2", ruleID, target, discriminator] + sorted);
  }

  /** `keys` is the sorted list of the distinct identity keys of `refs`. */
  ghost predicate IsKeyList(digest: seq<string> -> string, refs: seq<ResourceReference>, keys: seq<string>) {
    && NoDuplicates(keys) && Sorted(StrLess, keys)
    && (forall k :: k in keys <==> exists r :: r in refs && digest(IdentityParts(r)) == k)
  }

  ghost predicate IsFingerprintV2(digest: seq<string> -> string, ruleID: string, target: string,
                                  discriminator: string, refs: seq<ResourceReference>, fp: string) {
    exists keys :: IsKeyList(digest, refs, keys) && fp == digest(["finding-v2", ruleID, target, discriminator] + keys)
  }

  /** What a list of references is about: its identities, without order or repetition. */
  ghost function Subjects(refs: seq<ResourceReference>): set<seq<string>> {
    set r | r in refs :: IdentityParts(r)
  }

  lemma SameMembers<T>(a: seq<T>, b: seq<T>)
    requires multiset(a) == multiset(b)
    ensures forall x :: x in a <==> x in b
  {
    forall x
      ensures x in a <==> x in b
    {
      assert x in multiset(a) <==> x in multiset(b);
    }
  }

  lemma KeyListsAgreeIffSubjectsDo(digest: seq<string> -> string, refs1: seq<ResourceReference>, k1: seq<string>,
                                   refs2: seq<ResourceReference>, k2: seq<string>)
    requires Injective(digest)
    requires IsKeyList(digest, refs1, k1) && IsKeyList(digest, refs2, k2)
    ensures k1 == k2 <==> Subjects(refs1) == Subjects(refs2)
  {
    if k1 == k2 {
      forall parts
        ensures parts in Subjects(refs1) <==> parts in Subjects(refs2)
      {
        assert parts in Subjects(refs1) <==> digest(parts) in k1;
        assert parts in Subjects(refs2) <==> digest(parts) in k2;
      }
    }
    if Subjects(refs1) == Subjects(refs2) {
      forall k
        ensures k in k1 <==> k in k2
      {
        if r :| r in refs1 && digest(IdentityParts(r)) == k { assert IdentityParts(r) in Subjects(refs2); }
        if r :| r in refs2 && digest(IdentityParts(r)) == k { assert IdentityParts(r) in Subjects(refs1); }
      }
      StrLessLaws();
      SortedListsAgree(StrLess, k1, k2);
    }
  }

  /** Two findings carry the same fingerprint exactly when rule, target and discriminator agree and
      their references name the same set of subjects: neither the order nor the repetition of
      references matters, and nothing else is hashed. */
  lemma FingerprintIdentifiesSubjects(
    digest: seq<string> -> string, rule1: string, target1: string, disc1: string, refs1: seq<ResourceReference>,
    rule2: string, target2: string, disc2: string, refs2: seq<ResourceReference>, fp1: string, fp2: string)
    requires Injective(digest)
    requires IsFingerprintV2(digest, rule1, target1, disc1, refs1, fp1)
    requires IsFingerprintV2(digest, rule2, target2, disc2, refs2, fp2)
    ensures fp1 == fp2 <==>
            rule1 == rule2 && target1 == target2 && disc1 == disc2 && Subjects(refs1) == Subjects(refs2)
  {
    var p1, p2 := ["finding-v2", rule1, target1, disc1], ["finding-v2", rule2, target2, disc2];
    var k1 :| IsKeyList(digest, refs1, k1) && fp1 == digest(p1 + k1);
    var k2 :| IsKeyList(digest, refs2, k2) && fp2 == digest(p2 + k2);
    KeyListsAgreeIffSubjectsDo(digest, refs1, k1, refs2, k2);
    if fp1 == fp2 {
      assert p1 + k1 == p2 + k2;
      assert p1 == (p1 + k1)[..4] && p2 == (p2 + k2)[..4] && k1 == (p1 + k1)[4..] && k2 == (p2 + k2)[4..];
      assert p1[1] == p2[1] && p1[2] == p2[2] && p1[3] == p2[3];
    }
  }

  /** The reference names an object: kind, name and the namespace its scope needs. */
  predicate NamesObject(r: ResourceReference) {
    && r.kind != "" && r.name != ""
    && (r.scope == ScopeCluster || (r.scope == ScopeNamespaced && r.namespace != ""))
  }

  /** A live object and a manifest for it are one subject exactly when both name the same kind,
      namespace and name and neither leaves out a namespace its scope needs. */
  lemma CrossPlaneSubjects(live: ResourceReference, manifest: ResourceReference)
    requires live.plane == PlaneLive && manifest.plane == PlaneManifest
    ensures IdentityParts(live) == IdentityParts(manifest) <==>
            && NamesObject(live) && NamesObject(manifest)
            && live.kind == manifest.kind && live.namespace == manifest.namespace && live.name == manifest.name
  {
    var a, b := IdentityParts(live), IdentityParts(manifest);
    assert |a| == 3 ==> a != b;
    if NamesObject(live) {
      assert a == ["k8s-object", live.kind, live.namespace, live.name];
      assert a[1] == live.kind && a[2] == live.namespace && a[3] == live.name;
      if NamesObject(manifest) {
        assert b == ["k8s-object", manifest.kind, manifest.namespace, manifest.name];
        assert b[1] == manifest.kind && b[2] == manifest.namespace && b[3] == manifest.name;
      } else {
        assert |b| == 6;
      }
    }
  }

  /** An upgrade insight with its category and version. */
  predicate IsFullInsight(r: ResourceReference) {
    r.providerID != "" && r.kind == "EKSUpgradeInsight" && r.category != "" && r.kubernetesVersion != ""
  }

  predicate IsCloudResource(r: ResourceReference) {
    r.providerID != "" && r.kind != "EKSUpgradeInsight"
  }

  lemma CloudParts(r: ResourceReference)
    requires r.plane == PlaneAWS
    ensures IdentityParts(r) ==
            if IsFullInsight(r) then ["aws-insight", r.category, r.kubernetesVersion, r.providerID]
            else if IsCloudResource(r) then ["aws-resource", r.kind, r.providerID]
            else ["occurrence", "aws", r.providerID]
  {
  }

  /** Two references to the cloud provider are one subject exactly when they carry the same provider ID
      and are two full insights of one category and version, two resources of one kind, or neither. */
  lemma CloudSubjects(r: ResourceReference, s: ResourceReference)
    requires r.plane == PlaneAWS && s.plane == PlaneAWS
    ensures IdentityParts(r) == IdentityParts(s) <==>
            && r.providerID == s.providerID && IsFullInsight(r) == IsFullInsight(s)
            && IsCloudResource(r) == IsCloudResource(s)
            && (IsFullInsight(r) ==> r.category == s.category && r.kubernetesVersion == s.kubernetesVersion)
            && (IsCloudResource(r) ==> r.kind == s.kind)
  {
    CloudParts(r);
    CloudParts(s);
    var a, b := IdentityParts(r), IdentityParts(s);
    assert "aws-resource"[0] != "occurrence"[0];
    if a == b {
      assert a[0] == b[0] && a[1] == b[1] && a[2] == b[2];
      assert |a| == 4 ==> a[3] == b[3];
    }
  }
}
