/** Turning a findings report into a rollback readiness and a decision
    (internal/rollback/operational.go, recommendation.go).

    Every check is the sum of the signals raised against it: a signal carries a status, which can
    only make the check's status worse, and a reason code, which is recorded once. The functions
    named `...Signals` list the signals; the methods are the code, proved to raise exactly them. */
module Rollback {
  import opened Orders
  import opened Text
  import opened Findings
  import opened Versions
  import opened Reports
  import opened RollbackModel

  // ---- signals -----------------------------------------------------------------------------------

  datatype Signal = Signal(status: CheckStatus, reason: ReasonCode)

  function CheckRank(s: CheckStatus): nat {
    match s case CheckFail => 3 case CheckUnknown => 2 case CheckWarning => 1 case _ => 0
  }

  function MaxCheckStatus(a: CheckStatus, b: CheckStatus): CheckStatus {
    if CheckRank(b) > CheckRank(a) then b else a
  }

  function AppendUnique(reasons: seq<ReasonCode>, reason: ReasonCode): seq<ReasonCode> {
    if reason in reasons then reasons else reasons + [reason]
  }

  function Raise(c: Check, s: Signal): Check {
    c.(status := MaxCheckStatus(c.status, s.status), reasonCodes := AppendUnique(c.reasonCodes, s.reason))
  }

  function RaiseAll(c: Check, signals: seq<Signal>): Check {
    if signals == [] then c else Raise(RaiseAll(c, signals[..|signals| - 1]), signals[|signals| - 1])
  }

  lemma {:induction false} RaiseAllConcat(c: Check, a: seq<Signal>, b: seq<Signal>)
    ensures RaiseAll(c, a + b) == RaiseAll(RaiseAll(c, a), b)
  {
    if b == [] {
      assert a + b == a;
    } else {
      RaiseAllConcat(c, a, b[..|b| - 1]);
      assert (a + b)[..|a + b| - 1] == a + b[..|b| - 1];
    }
  }

  function Passing(id: CheckID): Check {
    Check(id, CheckPass, [])
  }

  // ---- provenance gates -----------------------------------------------------------------------------

  const MAX_AGE: int := 24 * 3600 * 1_000_000_000
  const FUTURE_SKEW: int := 5 * 60 * 1_000_000_000

  /** The report claims nothing about a live cluster. */
  predicate IsManifestOnly(r: ReportDoc) {
    r.eksCluster.None? && TrimSpace(r.clusterContext) == ""
  }

  datatype Gate = Open | Shut(reason: ReasonCode)

  function GateSignals(g: Gate): seq<Signal> {
    match g case Open => [] case Shut(reason) => [Signal(CheckUnknown, reason)]
  }

  /** `validateClusterEvidenceIdentity`: shut when the cluster is unknown or another one. */
  function IdentityGate(r: ReportDoc, cluster: Cluster): Gate {
    if IsManifestOnly(r) then Open
    else
      var findingsName := if r.eksCluster.Some? then TrimSpace(r.eksCluster.value.clusterName) else "";
      var findingsRegion := if r.eksCluster.Some? then TrimSpace(r.eksCluster.value.region) else "";
      var assessedName, assessedRegion := TrimSpace(cluster.name), TrimSpace(cluster.region);
      if findingsName == "" || findingsRegion == "" || assessedName == "" || assessedRegion == "" then
        Shut(RollbackEvidenceClusterUnknown)
      else if findingsName != assessedName || findingsRegion != assessedRegion then
        Shut(RollbackEvidenceClusterMismatch)
      else Open
  }

  /** `validateFindingsFreshness`: shut when the age is unknown or above the maximum. */
  function FreshnessGate(r: ReportDoc, evaluatedAt: Option<int>): Gate {
    if IsManifestOnly(r) then Open
    else if r.scannedAt.None? || evaluatedAt.None? then Shut(RollbackEvidenceTimestampUnknown)
    else if r.scannedAt.value > evaluatedAt.value + FUTURE_SKEW then Shut(RollbackEvidenceTimestampUnknown)
    else
      var age := evaluatedAt.value - r.scannedAt.value;
      if (if age < 0 then 0 else age) > MAX_AGE then Shut(RollbackEvidenceStale) else Open
  }

  /** `validateRollbackEvidenceTarget`: shut unless both targets are the same minor version. */
  function TargetGate(findingsTarget: string, rollbackTarget: string): Gate {
    var f, t := TrimSpace(findingsTarget), TrimSpace(rollbackTarget);
    if f == "" || t == "" then Shut(RollbackEvidenceTargetUnknown)
    else
      match (NormalizeKubernetesVersion(f), NormalizeKubernetesVersion(t))
      case (Some(x), Some(y)) => if x != y then Shut(RollbackEvidenceTargetMismatch) else Open
      case _ => Shut(RollbackEvidenceTargetUnknown)
  }

  /** The gates one report faces in one assessment. */
  datatype Gates = Gates(identity: Gate, freshness: Gate, target: Gate) {
    predicate Provenance() {
      identity.Open? && freshness.Open?
    }

    function ProvenanceSignals(): seq<Signal> {
      GateSignals(identity) + GateSignals(freshness)
    }
  }

  function GatesFor(a: Assessment, r: ReportDoc): Gates {
    Gates(IdentityGate(r, a.cluster), FreshnessGate(r, a.generatedAt),
          TargetGate(r.targetVersion, a.cluster.rollbackTargetVersion))
  }

  // ---- signals from findings --------------------------------------------------------------------------

  predicate MatchesOne(ruleID: string, prefix: string) {
    if HasSuffix(prefix, "-") then HasPrefix(ruleID, prefix) else ruleID == prefix
  }

  predicate RuleMatches(ruleID: string, prefixes: seq<string>) {
    exists p | p in prefixes :: MatchesOne(ruleID, p)
  }

  function FindingSignal(f: Finding, reason: ReasonCode): Signal {
    Signal(if f.severity == SeverityBlocker then CheckFail else CheckWarning, reason)
  }

  function FindingSignals(fs: seq<Finding>, prefixes: seq<string>, reason: ReasonCode): seq<Signal> {
    if fs == [] then []
    else
      var front, f := FindingSignals(fs[..|fs| - 1], prefixes, reason), fs[|fs| - 1];
      if RuleMatches(f.ruleID, prefixes) then front + [FindingSignal(f, reason)] else front
  }

  function Matching(fs: seq<Finding>, prefixes: seq<string>): seq<Finding> {
    if fs == [] then []
    else
      var front, f := Matching(fs[..|fs| - 1], prefixes), fs[|fs| - 1];
      if RuleMatches(f.ruleID, prefixes) then front + [f] else front
  }

  const API_RULES := ["API-001", "API-002"]
  const WORKLOAD_RULES := ["WORKLOAD-001", "DRAIN-005"]
  const LIVE_WEBHOOK_RULES := ["WH-002"]
  const CRD_WEBHOOK_RULES := ["CRD-", "WH-"]

  /** WH-002 looks at the live webhooks instead. */
  predicate CRDWebhookRule(id: string) {
    id != "WH-002" && (HasPrefix(id, "CRD-") || HasPrefix(id, "WH-"))
  }

  /** CRD and webhook findings that were judged against the report's own target. */
  function TargetGated(fs: seq<Finding>): seq<Finding> {
    if fs == [] then []
    else
      var front, f := TargetGated(fs[..|fs| - 1]), fs[|fs| - 1];
      if CRDWebhookRule(f.ruleID) then front + [f] else front
  }

  // ---- disruption --------------------------------------------------------------------------------------

  datatype OperationEvidence = OperationEvidence(
    nodeDrain: bool, workerReplacement: bool, podEviction: bool, workloadRestart: bool, seen: bool)

  /** No operation evidence is collected, so no disruption finding is ever confirmed as active. */
  const NO_OPERATION_EVIDENCE := OperationEvidence(false, false, false, false, false)

  predicate ScopeActive(scope: string, e: OperationEvidence) {
    (scope == "node_drain" && (e.nodeDrain || e.podEviction || e.workerReplacement)) ||
    (scope == "worker_rollout" && (e.workerReplacement || e.nodeDrain)) ||
    (scope == "workload_restart" && (e.workloadRestart || e.podEviction))
  }

  predicate ActivationConfirmed(f: Finding, e: OperationEvidence) {
    && e.seen
    && (f.ruleID == "PDB-001" || f.ruleID == "PDB-002" || f.ruleID == "DRAIN-002")
    && (if f.impactScopes == [] then e.nodeDrain || e.workerReplacement || e.podEviction || e.workloadRestart
        else exists scope | scope in f.impactScopes :: ScopeActive(scope, e))
  }

  /** DRAIN-005 is counted by the workload check instead. */
  predicate DisruptionRule(id: string) {
    id != "DRAIN-005" && (HasPrefix(id, "PDB-") || HasPrefix(id, "DRAIN-"))
  }

  function DisruptionSignal(f: Finding, e: OperationEvidence): Signal {
    Signal(if f.severity == SeverityBlocker && ActivationConfirmed(f, e) then CheckFail else CheckWarning,
           PDBDisruptionConstraints)
  }

  function DisruptionSignals(fs: seq<Finding>, e: OperationEvidence): seq<Signal> {
    if fs == [] then []
    else
      var front, f := DisruptionSignals(fs[..|fs| - 1], e), fs[|fs| - 1];
      if DisruptionRule(f.ruleID) then front + [DisruptionSignal(f, e)] else front
  }

  // ---- inventory -----------------------------------------------------------------------------------------

  predicate NeedsNodegroupRollback(ng: EKSNodegroup, c: Cluster) {
    (c.currentVersion != "" && ng.version == c.currentVersion
     && c.rollbackTargetVersion != "" && ng.version != c.rollbackTargetVersion)
    || ng.healthIssues != []
  }

  function NodegroupSignals(ngs: seq<EKSNodegroup>, c: Cluster): seq<Signal> {
    if ngs == [] then []
    else
      var front, ng := NodegroupSignals(ngs[..|ngs| - 1], c), ngs[|ngs| - 1];
      if ng.version == "" then front + [Signal(CheckUnknown, SelfManagedNodeEvidenceUnavailable)]
      else if NeedsNodegroupRollback(ng, c) then front + [Signal(CheckWarning, ManagedNodegroupRollbackRequired)]
      else front
  }

  function AddonSignals(addons: seq<EKSAddon>): seq<Signal> {
    if addons == [] then []
    else
      var front, addon := AddonSignals(addons[..|addons| - 1]), addons[|addons| - 1];
      if addon.verificationUnavailable then front + [Signal(CheckUnknown, ManagedAddonCompatibilityUnknown)]
      else if !addon.compatible then front + [Signal(CheckWarning, ManagedAddonRollbackRequired)]
      else front
  }

  // ---- the nine checks --------------------------------------------------------------------------------------

  /** Evidence about the live cluster counts only through both provenance gates. */
  function Gated(g: Gates, signals: seq<Signal>): seq<Signal> {
    if g.Provenance() then signals else g.ProvenanceSignals()
  }

  function FargateSignals(r: ReportDoc): seq<Signal> {
    if r.provider != "eks" then []
    else if r.coverage.aws != CoverageComplete then [Signal(CheckUnknown, FargateEvidenceUnavailable)]
    else if exists f | f in r.findings :: HasPrefix(f.ruleID, "FARGATE-") then
      [Signal(CheckWarning, FargatePodRecreationRisk)]
    else []
  }

  function TargetGatedSignals(g: Gates, fs: seq<Finding>, prefixes: seq<string>, reason: ReasonCode): seq<Signal> {
    if fs == [] then []
    else if g.target.Open? then FindingSignals(fs, prefixes, reason)
    else GateSignals(g.target)
  }

  function ReverseCompatibilitySignals(g: Gates, fs: seq<Finding>): seq<Signal> {
    var api, live, gated := Matching(fs, API_RULES), Matching(fs, LIVE_WEBHOOK_RULES), TargetGated(fs);
    TargetGatedSignals(g, api, API_RULES, NewVersionAPIAdoptionRisk)
    + (if api != [] then GateSignals(g.freshness) else [])
    + (if live == [] && gated == [] then []
       else Gated(g, FindingSignals(live, LIVE_WEBHOOK_RULES, CRDWebhookControllerRisk)
                     + TargetGatedSignals(g, gated, CRD_WEBHOOK_RULES, CRDWebhookControllerRisk)))
  }

  /** The signals raised against each of the nine checks. */
  datatype CheckSignals = CheckSignals(
    nodegroups: seq<Signal>, nodeEvidence: seq<Signal>, fargate: seq<Signal>, addons: seq<Signal>,
    selfManagedAddons: seq<Signal>, workloads: seq<Signal>, disruption: seq<Signal>,
    reverseCompatibility: seq<Signal>, coverage: seq<Signal>)

  function UnknownIf(doubtful: bool, reason: ReasonCode): seq<Signal> {
    if doubtful then [Signal(CheckUnknown, reason)] else []
  }

  function SignalsByCheck(g: Gates, c: Cluster, r: ReportDoc): CheckSignals {
    var fs := r.findings;
    CheckSignals(
      Gated(g, NodegroupSignals(r.eksNodegroups, c)),
      UnknownIf(r.coverage.kubernetes != CoverageComplete, SelfManagedNodeEvidenceUnavailable),
      FargateSignals(r),
      Gated(g, AddonSignals(r.eksAddons)
               + FindingSignals(fs, ["ADDON-001"], ManagedAddonRollbackRequired)
               + FindingSignals(fs, ["ADDON-002"], ManagedAddonCompatibilityUnknown)),
      Gated(g, FindingSignals(fs, ["ADDON-002"], SelfManagedAddonCompatibilityUnknown)),
      Gated(g, FindingSignals(fs, WORKLOAD_RULES, UnhealthyWorkloadsPresent)),
      Gated(g, DisruptionSignals(fs, NO_OPERATION_EVIDENCE)),
      ReverseCompatibilitySignals(g, fs),
      UnknownIf(r.coverage.AnyPartial(), ObservabilityEvidenceMissing))
  }

  function ChecksOf(s: CheckSignals): seq<Check> {
    [ RaiseAll(Passing(ManagedNodegroups), s.nodegroups),
      RaiseAll(Passing(SelfManagedNodeEvidence), s.nodeEvidence),
      RaiseAll(Passing(FargateEvidence), s.fargate),
      RaiseAll(Passing(ManagedAddons), s.addons),
      RaiseAll(Passing(SelfManagedAddons), s.selfManagedAddons),
      RaiseAll(Passing(WorkloadHealth), s.workloads),
      RaiseAll(Passing(DisruptionReadiness), s.disruption),
      RaiseAll(Passing(ReverseCompatibility), s.reverseCompatibility),
      RaiseAll(Passing(EvidenceCoverage), s.coverage) ]
  }

  // ---- readiness -------------------------------------------------------------------------------------------

  function CountStatus(checks: seq<Check>, s: CheckStatus): nat {
    if checks == [] then 0
    else CountStatus(checks[..|checks| - 1], s) + if checks[|checks| - 1].status == s then 1 else 0
  }

  function StatusFor(blockers: int, warnings: int, unknowns: int): ReadinessStatus {
    if blockers > 0 then Blocked
    else if unknowns > 0 then InsufficientEvidence
    else if warnings > 0 then HighRisk
    else Ready
  }

  function ReadinessOf(checks: seq<Check>): Readiness {
    var b, w, u := CountStatus(checks, CheckFail), CountStatus(checks, CheckWarning), CountStatus(checks, CheckUnknown);
    Readiness(StatusFor(b, w, u), b, w, u)
  }

  function CombineReadiness(existing: Readiness, operational: Readiness): Readiness {
    if existing.status == ReadinessUnset || existing.status == Ready then operational
    else if operational.status == Ready then existing
    else
      Readiness(
        if existing.status == Blocked || operational.status == Blocked then Blocked
        else if existing.status == InsufficientEvidence || operational.status == InsufficientEvidence then
          InsufficientEvidence
        else HighRisk,
        existing.blockers + operational.blockers,
        existing.warnings + operational.warnings,
        existing.unknowns + operational.unknowns)
  }

  /** The checks an assessment gains from a report; from no report, one unknown check. */
  function NewChecks(a: Assessment, report: Option<ReportDoc>): seq<Check> {
    match report
    case None => [RaiseAll(Passing(OperationalEvidence), [Signal(CheckUnknown, ObservabilityEvidenceMissing)])]
    case Some(r) => ChecksOf(SignalsByCheck(GatesFor(a, r), a.cluster, r))
  }

  function WithReadiness(a: Assessment, checks: seq<Check>): Assessment {
    var readiness := CombineReadiness(a.readiness, ReadinessOf(checks));
    a.(checks := a.checks + checks,
       readiness := readiness,
       evidenceComplete := a.evidenceComplete && readiness.status != InsufficientEvidence
                           && forall c | c in checks :: c.status != CheckUnknown)
  }

  // ---- recommendation ------------------------------------------------------------------------------------------

  function AppendAllUnique(reasons: seq<ReasonCode>, more: seq<ReasonCode>): seq<ReasonCode> {
    if more == [] then reasons else AppendUnique(AppendAllUnique(reasons, more[..|more| - 1]), more[|more| - 1])
  }

  function AppendCheckReasons(reasons: seq<ReasonCode>, checks: seq<Check>): seq<ReasonCode> {
    if checks == [] then reasons
    else AppendAllUnique(AppendCheckReasons(reasons, checks[..|checks| - 1]), checks[|checks| - 1].reasonCodes)
  }

  function RecommendationReasonsOf(a: Assessment): seq<ReasonCode> {
    AppendCheckReasons(AppendAllUnique(AppendAllUnique([], a.eligibility.reasonCodes), a.recommendation.reasonCodes),
                       a.checks)
  }

  // ---- the code ------------------------------------------------------------------------------------------------

  method ApplyFindingSignals(check: Check, fs: seq<Finding>, prefixes: seq<string>, reason: ReasonCode)
    returns (out: Check)
    ensures out == RaiseAll(check, FindingSignals(fs, prefixes, reason))
  {
    out := check;
    for i := 0 to |fs|
      invariant out == RaiseAll(check, FindingSignals(fs[..i], prefixes, reason))
    {
      FindingStep(check, fs, prefixes, reason, i);
      if RuleMatches(fs[i].ruleID, prefixes) {
        var status := match fs[i].severity case SeverityBlocker => CheckFail case _ => CheckWarning;
        out := out.(reasonCodes := AppendUnique(out.reasonCodes, reason), status := MaxCheckStatus(out.status, status));
      }
    }
    assert fs[..|fs|] == fs;
  }

  lemma FindingStep(check: Check, fs: seq<Finding>, prefixes: seq<string>, reason: ReasonCode, i: nat)
    requires i < |fs|
    ensures RaiseAll(check, FindingSignals(fs[..i + 1], prefixes, reason)) ==
            var before := RaiseAll(check, FindingSignals(fs[..i], prefixes, reason));
            if RuleMatches(fs[i].ruleID, prefixes) then Raise(before, FindingSignal(fs[i], reason)) else before
  {
    assert fs[..i + 1][..i] == fs[..i];
    var front := FindingSignals(fs[..i], prefixes, reason);
    assert (front + [FindingSignal(fs[i], reason)])[..|front|] == front;
  }

  method FindingsWithPrefixes(fs: seq<Finding>, prefixes: seq<string>) returns (out: seq<Finding>)
    ensures out == Matching(fs, prefixes)
  {
    out := [];
    for i := 0 to |fs|
      invariant out == Matching(fs[..i], prefixes)
    {
      assert fs[..i + 1][..i] == fs[..i];
      if RuleMatches(fs[i].ruleID, prefixes) {
        out := out + [fs[i]];
      }
    }
    assert fs[..|fs|] == fs;
  }

  method TargetGatedCRDWebhookFindings(fs: seq<Finding>) returns (out: seq<Finding>)
    ensures out == TargetGated(fs)
  {
    out := [];
    for i := 0 to |fs|
      invariant out == TargetGated(fs[..i])
    {
      assert fs[..i + 1][..i] == fs[..i];
      if fs[i].ruleID != "WH-002" {
        if HasPrefix(fs[i].ruleID, "CRD-") || HasPrefix(fs[i].ruleID, "WH-") {
          out := out + [fs[i]];
        }
      }
    }
    assert fs[..|fs|] == fs;
  }

  /** One closed gate makes the check unknown and leaves its reason; an open gate leaves no trace. */
  function ApplyGate(check: Check, gate: Gate): Check {
    match gate
    case Open => check
    case Shut(reason) =>
      check.(status := MaxCheckStatus(check.status, CheckUnknown),
             reasonCodes := AppendUnique(check.reasonCodes, reason))
  }

  function ApplyProvenanceGates(check: Check, g: Gates): Check {
    ApplyGate(ApplyGate(check, g.identity), g.freshness)
  }

  lemma GateRaises(check: Check, gate: Gate)
    ensures ApplyGate(check, gate) == RaiseAll(check, GateSignals(gate))
  {
    if gate.Shut? {
      assert [Signal(CheckUnknown, gate.reason)][..0] == [];
    }
  }

  lemma ProvenanceRaises(check: Check, g: Gates)
    ensures ApplyProvenanceGates(check, g) == RaiseAll(check, g.ProvenanceSignals())
  {
    GateRaises(check, g.identity);
    GateRaises(ApplyGate(check, g.identity), g.freshness);
    RaiseAllConcat(check, GateSignals(g.identity), GateSignals(g.freshness));
  }

  method NodegroupRollbackCheck(c: Cluster, r: ReportDoc, g: Gates) returns (check: Check)
    ensures check == RaiseAll(Passing(ManagedNodegroups), Gated(g, NodegroupSignals(r.eksNodegroups, c)))
  {
    check := Passing(ManagedNodegroups);
    if !g.Provenance() {
      ProvenanceRaises(check, g);
      return ApplyProvenanceGates(check, g);
    }
    var ngs := r.eksNodegroups;
    for i := 0 to |ngs|
      invariant check == RaiseAll(Passing(ManagedNodegroups), NodegroupSignals(ngs[..i], c))
    {
      var ng := ngs[i];
      assert ngs[..i + 1][..i] == ngs[..i];
      ghost var before := check;
      if ng.version == "" {
        check := check.(status := MaxCheckStatus(check.status, CheckUnknown),
                        reasonCodes := AppendUnique(check.reasonCodes, SelfManagedNodeEvidenceUnavailable));
      } else {
        if && c.currentVersion != "" && ng.version == c.currentVersion
           && c.rollbackTargetVersion != "" && ng.version != c.rollbackTargetVersion {
          check := check.(status := MaxCheckStatus(check.status, CheckWarning),
                          reasonCodes := AppendUnique(check.reasonCodes, ManagedNodegroupRollbackRequired));
        }
        if |ng.healthIssues| > 0 {
          check := check.(status := MaxCheckStatus(check.status, CheckWarning),
                          reasonCodes := AppendUnique(check.reasonCodes, ManagedNodegroupRollbackRequired));
        }
        assert check == if !NeedsNodegroupRollback(ng, c) then before
                        else Raise(before, Signal(CheckWarning, ManagedNodegroupRollbackRequired));
      }
      NodegroupStep(ngs, c, i);
    }
    assert ngs[..|ngs|] == ngs;
  }

  lemma NodegroupStep(ngs: seq<EKSNodegroup>, c: Cluster, i: nat)
    requires i < |ngs|
    ensures RaiseAll(Passing(ManagedNodegroups), NodegroupSignals(ngs[..i + 1], c)) ==
            var before := RaiseAll(Passing(ManagedNodegroups), NodegroupSignals(ngs[..i], c));
            if ngs[i].version == "" then Raise(before, Signal(CheckUnknown, SelfManagedNodeEvidenceUnavailable))
            else if NeedsNodegroupRollback(ngs[i], c) then
              Raise(before, Signal(CheckWarning, ManagedNodegroupRollbackRequired))
            else before
  {
    assert ngs[..i + 1][..i] == ngs[..i];
    var front := NodegroupSignals(ngs[..i], c);
    assert forall s: Signal :: (front + [s])[..|front|] == front;
  }

  method SelfManagedNodeEvidenceCheck(r: ReportDoc) returns (check: Check)
    ensures check == RaiseAll(Passing(SelfManagedNodeEvidence),
              UnknownIf(r.coverage.kubernetes != CoverageComplete, SelfManagedNodeEvidenceUnavailable))
  {
    check := Passing(SelfManagedNodeEvidence);
    if r.coverage.kubernetes != CoverageComplete {
      RaiseOne(check, Signal(CheckUnknown, SelfManagedNodeEvidenceUnavailable));
      check := check.(status := CheckUnknown, reasonCodes := [SelfManagedNodeEvidenceUnavailable]);
    }
  }

  lemma RaiseOne(check: Check, s: Signal)
    ensures RaiseAll(check, [s]) == Raise(check, s)
  {
    assert [s][..0] == [];
  }

  method FindingCount(fs: seq<Finding>, prefix: string) returns (count: nat)
    ensures count > 0 <==> exists f | f in fs :: HasPrefix(f.ruleID, prefix)
  {
    count := 0;
    for i := 0 to |fs|
      invariant count > 0 <==> exists f | f in fs[..i] :: HasPrefix(f.ruleID, prefix)
    {
      assert fs[..i + 1] == fs[..i] + [fs[i]];
      if HasPrefix(fs[i].ruleID, prefix) {
        count := count + 1;
      }
    }
    assert fs[..|fs|] == fs;
  }

  method FargateEvidenceCheck(r: ReportDoc) returns (check: Check)
    ensures check == RaiseAll(Passing(FargateEvidence), FargateSignals(r))
  {
    check := Passing(FargateEvidence);
    if r.provider != "eks" {
      return;
    }
    if r.coverage.aws != CoverageComplete {
      RaiseOne(check, Signal(CheckUnknown, FargateEvidenceUnavailable));
      check := check.(status := CheckUnknown, reasonCodes := [FargateEvidenceUnavailable]);
      return;
    }
    var n := FindingCount(r.findings, "FARGATE-");
    if n > 0 {
      RaiseOne(check, Signal(CheckWarning, FargatePodRecreationRisk));
      check := check.(status := CheckWarning, reasonCodes := [FargatePodRecreationRisk]);
    }
  }

  method ManagedAddonCheck(r: ReportDoc, g: Gates) returns (check: Check)
    ensures check == RaiseAll(Passing(ManagedAddons), Gated(g,
              AddonSignals(r.eksAddons)
              + FindingSignals(r.findings, ["ADDON-001"], ManagedAddonRollbackRequired)
              + FindingSignals(r.findings, ["ADDON-002"], ManagedAddonCompatibilityUnknown)))
  {
    check := Passing(ManagedAddons);
    if !g.Provenance() {
      ProvenanceRaises(check, g);
      return ApplyProvenanceGates(check, g);
    }
    ghost var base := check;
    var addons := r.eksAddons;
    for i := 0 to |addons|
      invariant check == RaiseAll(base, AddonSignals(addons[..i]))
    {
      assert addons[..i + 1][..i] == addons[..i];
      ghost var front := AddonSignals(addons[..i]);
      if addons[i].verificationUnavailable {
        RaiseAllConcat(base, front, [Signal(CheckUnknown, ManagedAddonCompatibilityUnknown)]);
        check := check.(status := MaxCheckStatus(check.status, CheckUnknown),
                        reasonCodes := AppendUnique(check.reasonCodes, ManagedAddonCompatibilityUnknown));
      } else if !addons[i].compatible {
        RaiseAllConcat(base, front, [Signal(CheckWarning, ManagedAddonRollbackRequired)]);
        check := check.(status := MaxCheckStatus(check.status, CheckWarning),
                        reasonCodes := AppendUnique(check.reasonCodes, ManagedAddonRollbackRequired));
      }
    }
    assert addons[..|addons|] == addons;
    ghost var s1 := AddonSignals(addons);
    ghost var s2 := FindingSignals(r.findings, ["ADDON-001"], ManagedAddonRollbackRequired);
    RaiseAllConcat(base, s1, s2);
    RaiseAllConcat(base, s1 + s2, FindingSignals(r.findings, ["ADDON-002"], ManagedAddonCompatibilityUnknown));
    check := ApplyFindingSignals(check, r.findings, ["ADDON-001"], ManagedAddonRollbackRequired);
    check := ApplyFindingSignals(check, r.findings, ["ADDON-002"], ManagedAddonCompatibilityUnknown);
  }

  method SelfManagedAddonCheck(r: ReportDoc, g: Gates) returns (check: Check)
    ensures check == RaiseAll(Passing(SelfManagedAddons),
              Gated(g, FindingSignals(r.findings, ["ADDON-002"], SelfManagedAddonCompatibilityUnknown)))
  {
    check := Passing(SelfManagedAddons);
    if !g.Provenance() {
      ProvenanceRaises(check, g);
      return ApplyProvenanceGates(check, g);
    }
    check := ApplyFindingSignals(check, r.findings, ["ADDON-002"], SelfManagedAddonCompatibilityUnknown);
  }

  method WorkloadHealthCheck(r: ReportDoc, g: Gates) returns (check: Check)
    ensures check == RaiseAll(Passing(WorkloadHealth),
              Gated(g, FindingSignals(r.findings, WORKLOAD_RULES, UnhealthyWorkloadsPresent)))
  {
    check := Passing(WorkloadHealth);
    if !g.Provenance() {
      ProvenanceRaises(check, g);
      return ApplyProvenanceGates(check, g);
    }
    check := ApplyFindingSignals(check, r.findings, WORKLOAD_RULES, UnhealthyWorkloadsPresent);
  }

  method DisruptionCheck(r: ReportDoc, g: Gates) returns (check: Check)
    ensures check == RaiseAll(Passing(DisruptionReadiness),
                              Gated(g, DisruptionSignals(r.findings, NO_OPERATION_EVIDENCE)))
    ensures check.status != CheckFail
  {
    check := Passing(DisruptionReadiness);
    if !g.Provenance() {
      ProvenanceRaises(check, g);
      return ApplyProvenanceGates(check, g);
    }
    ghost var base := check;
    var fs, evidence := r.findings, NO_OPERATION_EVIDENCE;
    for i := 0 to |fs|
      invariant check == RaiseAll(base, DisruptionSignals(fs[..i], evidence))
      invariant check.status != CheckFail
    {
      assert fs[..i + 1][..i] == fs[..i];
      if HasPrefix(fs[i].ruleID, "PDB-") || HasPrefix(fs[i].ruleID, "DRAIN-") {
        if fs[i].ruleID != "DRAIN-005" {
          RaiseAllConcat(base, DisruptionSignals(fs[..i], evidence), [DisruptionSignal(fs[i], evidence)]);
          var status := CheckWarning;
          if fs[i].severity == SeverityBlocker && ActivationConfirmed(fs[i], evidence) {
            status := CheckFail;
          }
          check := check.(reasonCodes := AppendUnique(check.reasonCodes, PDBDisruptionConstraints),
                          status := MaxCheckStatus(check.status, status));
        }
      }
    }
    assert fs[..|fs|] == fs;
  }

  /** Findings whose severity was computed for the report's target count only when that target is the
      rollback target. */
  method ApplyTargetGatedFindings(check: Check, g: Gates, fs: seq<Finding>, prefixes: seq<string>, reason: ReasonCode)
    returns (out: Check)
    ensures out == RaiseAll(check, TargetGatedSignals(g, fs, prefixes, reason))
  {
    if |fs| == 0 {
      return check;
    }
    if g.target.Open? {
      out := ApplyFindingSignals(check, fs, prefixes, reason);
      return;
    }
    GateRaises(check, g.target);
    out := ApplyGate(check, g.target);
  }

  method ReverseCompatibilityCheck(r: ReportDoc, g: Gates) returns (check: Check)
    ensures check == RaiseAll(Passing(ReverseCompatibility), ReverseCompatibilitySignals(g, r.findings))
  {
    check := Passing(ReverseCompatibility);
    ghost var base := check;
    var api := FindingsWithPrefixes(r.findings, API_RULES);
    check := ApplyTargetGatedFindings(check, g, api, API_RULES, NewVersionAPIAdoptionRisk);
    ghost var s1 := TargetGatedSignals(g, api, API_RULES, NewVersionAPIAdoptionRisk);
    ghost var s2 := if api != [] then GateSignals(g.freshness) else [];
    RaiseAllConcat(base, s1, s2);
    if |api| > 0 && g.freshness.Shut? {
      GateRaises(check, g.freshness);
      check := ApplyGate(check, g.freshness);
    }
    assert check == RaiseAll(base, s1 + s2);
    var live := FindingsWithPrefixes(r.findings, LIVE_WEBHOOK_RULES);
    var gated := TargetGatedCRDWebhookFindings(r.findings);
    if |live| > 0 || |gated| > 0 {
      ghost var s3 := FindingSignals(live, LIVE_WEBHOOK_RULES, CRDWebhookControllerRisk);
      ghost var s4 := TargetGatedSignals(g, gated, CRD_WEBHOOK_RULES, CRDWebhookControllerRisk);
      RaiseAllConcat(base, s1 + s2, Gated(g, s3 + s4));
      if !g.Provenance() {
        ProvenanceRaises(check, g);
        check := ApplyProvenanceGates(check, g);
      } else {
        RaiseAllConcat(check, s3, s4);
        check := ApplyFindingSignals(check, live, LIVE_WEBHOOK_RULES, CRDWebhookControllerRisk);
        check := ApplyTargetGatedFindings(check, g, gated, CRD_WEBHOOK_RULES, CRDWebhookControllerRisk);
      }
    } else {
      assert s1 + s2 + [] == s1 + s2;
    }
  }

  method CoverageCheck(r: ReportDoc) returns (check: Check)
    ensures check == RaiseAll(Passing(EvidenceCoverage),
              UnknownIf(r.coverage.AnyPartial(), ObservabilityEvidenceMissing))
  {
    check := Passing(EvidenceCoverage);
    if r.coverage.AnyPartial() {
      RaiseOne(check, Signal(CheckUnknown, ObservabilityEvidenceMissing));
      check := check.(status := CheckUnknown, reasonCodes := [ObservabilityEvidenceMissing]);
    }
  }

  method ReadinessFromChecks(checks: seq<Check>) returns (out: Readiness)
    ensures out == ReadinessOf(checks)
  {
    var blockers, warnings, unknowns := 0, 0, 0;
    for i := 0 to |checks|
      invariant blockers == CountStatus(checks[..i], CheckFail)
      invariant warnings == CountStatus(checks[..i], CheckWarning)
      invariant unknowns == CountStatus(checks[..i], CheckUnknown)
    {
      assert checks[..i + 1][..i] == checks[..i];
      match checks[i].status
      case CheckFail => blockers := blockers + 1;
      case CheckWarning => warnings := warnings + 1;
      case CheckUnknown => unknowns := unknowns + 1;
      case _ =>
    }
    assert checks[..|checks|] == checks;
    var status := if blockers > 0 then Blocked
                  else if unknowns > 0 then InsufficientEvidence
                  else if warnings > 0 then HighRisk
                  else Ready;
    out := Readiness(status, blockers, warnings, unknowns);
  }

  method HasUnknownCheck(checks: seq<Check>) returns (found: bool)
    ensures found <==> exists c | c in checks :: c.status == CheckUnknown
  {
    for i := 0 to |checks|
      invariant forall c | c in checks[..i] :: c.status != CheckUnknown
    {
      assert checks[..i + 1] == checks[..i] + [checks[i]];
      if checks[i].status == CheckUnknown {
        return true;
      }
    }
    assert checks[..|checks|] == checks;
    return false;
  }

  /** Adds the operational checks to the assessment and folds them into its readiness. */
  method ApplyOperationalReadiness(a: Assessment, report: Option<ReportDoc>) returns (out: Assessment)
    ensures out == WithReadiness(a, NewChecks(a, report))
  {
    var checks: seq<Check>;
    if report.None? {
      RaiseOne(Passing(OperationalEvidence), Signal(CheckUnknown, ObservabilityEvidenceMissing));
      checks := [Check(OperationalEvidence, CheckUnknown, [ObservabilityEvidenceMissing])];
      assert [] + [ObservabilityEvidenceMissing] == [ObservabilityEvidenceMissing];
      assert NewChecks(a, report) == checks && checks[0].status == CheckUnknown;
      var readiness := ReadinessFromChecks(checks);
      return a.(checks := a.checks + checks, readiness := CombineReadiness(a.readiness, readiness),
                evidenceComplete := false);
    }
    checks := BuildChecks(GatesFor(a, report.value), a.cluster, report.value);
    var readiness := ReadinessFromChecks(checks);
    out := a.(checks := a.checks + checks, readiness := CombineReadiness(a.readiness, readiness));
    var unknown := HasUnknownCheck(checks);
    if unknown || out.readiness.status == InsufficientEvidence {
      out := out.(evidenceComplete := false);
    }
  }

  method BuildChecks(g: Gates, c: Cluster, r: ReportDoc) returns (checks: seq<Check>)
    ensures checks == ChecksOf(SignalsByCheck(g, c, r))
  {
    var c0 := NodegroupRollbackCheck(c, r, g);
    var c1 := SelfManagedNodeEvidenceCheck(r);
    var c2 := FargateEvidenceCheck(r);
    var c3 := ManagedAddonCheck(r, g);
    var c4 := SelfManagedAddonCheck(r, g);
    var c5 := WorkloadHealthCheck(r, g);
    var c6 := DisruptionCheck(r, g);
    var c7 := ReverseCompatibilityCheck(r, g);
    var c8 := CoverageCheck(r);
    checks := [c0, c1, c2, c3, c4, c5, c6, c7, c8];
  }

  method RecommendationReasons(a: Assessment) returns (reasons: seq<ReasonCode>)
    ensures reasons == RecommendationReasonsOf(a)
  {
    reasons := AppendReasons([], a.eligibility.reasonCodes);
    reasons := AppendReasons(reasons, a.recommendation.reasonCodes);
    ghost var base := reasons;
    for i := 0 to |a.checks|
      invariant reasons == AppendCheckReasons(base, a.checks[..i])
    {
      assert a.checks[..i + 1][..i] == a.checks[..i];
      reasons := AppendReasons(reasons, a.checks[i].reasonCodes);
    }
    assert a.checks[..|a.checks|] == a.checks;
  }

  method AppendReasons(reasons: seq<ReasonCode>, more: seq<ReasonCode>) returns (out: seq<ReasonCode>)
    ensures out == AppendAllUnique(reasons, more)
  {
    out := reasons;
    for i := 0 to |more|
      invariant out == AppendAllUnique(reasons, more[..i])
    {
      assert more[..i + 1][..i] == more[..i];
      out := AppendUnique(out, more[i]);
    }
    assert more[..|more|] == more;
  }

  /** What the final decision rests on, in the order the code looks at it. */
  function Recommend(eligibility: EligibilityStatus, readiness: ReadinessStatus, complete: bool)
    : Option<(Decision, Confidence)>
  {
    if eligibility == Unavailable then Some((DoNotProceed, ConfidenceHigh))
    else if readiness == Blocked then Some((DoNotProceed, ConfidenceHigh))
    else if eligibility == EligibilityUnknown then Some((OperatorDecisionRequired, ConfidenceLow))
    else if readiness == InsufficientEvidence || !complete then Some((OperatorDecisionRequired, ConfidenceLow))
    else if readiness == HighRisk then Some((FixForwardPreferred, ConfidenceMedium))
    else if readiness == Ready then Some((RollbackPreferred, ConfidenceMedium))
    else None
  }

  function Recommended(a: Assessment): Assessment {
    match Recommend(a.eligibility.status, a.readiness.status, a.evidenceComplete)
    case Some((decision, confidence)) =>
      a.(recommendation := Recommendation(decision, confidence, RecommendationReasonsOf(a)))
    case None => a
  }

  lemma {:induction false} AppendedReasons(reasons: seq<ReasonCode>, more: seq<ReasonCode>, c: ReasonCode)
    ensures c in AppendAllUnique(reasons, more) <==> c in reasons || c in more
  {
    if more != [] {
      AppendedReasons(reasons, more[..|more| - 1], c);
      assert more == more[..|more| - 1] + [more[|more| - 1]];
    }
  }

  lemma {:induction false} AppendedCheckReasons(reasons: seq<ReasonCode>, checks: seq<Check>, c: ReasonCode)
    ensures c in AppendCheckReasons(reasons, checks) <==> c in reasons || exists k :: k in checks && c in k.reasonCodes
  {
    if checks != [] {
      var front, last := checks[..|checks| - 1], checks[|checks| - 1];
      AppendedCheckReasons(reasons, front, c);
      AppendedReasons(AppendCheckReasons(reasons, front), last.reasonCodes, c);
      assert checks == front + [last];
    }
  }

  /** The recommendation cites exactly the reasons of the eligibility, of the earlier recommendation
      and of all checks. */
  lemma RecommendationCites(a: Assessment, c: ReasonCode)
    ensures c in RecommendationReasonsOf(a) <==>
            || c in a.eligibility.reasonCodes || c in a.recommendation.reasonCodes
            || exists k :: k in a.checks && c in k.reasonCodes
  {
    AppendedReasons([], a.eligibility.reasonCodes, c);
    AppendedReasons(AppendAllUnique([], a.eligibility.reasonCodes), a.recommendation.reasonCodes, c);
    AppendedCheckReasons(AppendAllUnique(AppendAllUnique([], a.eligibility.reasonCodes), a.recommendation.reasonCodes),
                         a.checks, c);
  }

  lemma {:induction false} AppendedDistinct(reasons: seq<ReasonCode>, more: seq<ReasonCode>)
    requires NoDuplicates(reasons)
    ensures NoDuplicates(AppendAllUnique(reasons, more))
  {
    if more != [] {
      AppendedDistinct(reasons, more[..|more| - 1]);
    }
  }

  lemma {:induction false} AppendedChecksDistinct(reasons: seq<ReasonCode>, checks: seq<Check>)
    requires NoDuplicates(reasons)
    ensures NoDuplicates(AppendCheckReasons(reasons, checks))
  {
    if checks != [] {
      var front, last := checks[..|checks| - 1], checks[|checks| - 1];
      AppendedChecksDistinct(reasons, front);
      AppendedDistinct(AppendCheckReasons(reasons, front), last.reasonCodes);
    }
  }

  /** No reason is cited twice. */
  lemma ReasonsAreDistinct(a: Assessment)
    ensures NoDuplicates(RecommendationReasonsOf(a))
  {
    AppendedDistinct([], a.eligibility.reasonCodes);
    AppendedDistinct(AppendAllUnique([], a.eligibility.reasonCodes), a.recommendation.reasonCodes);
    AppendedChecksDistinct(AppendAllUnique(AppendAllUnique([], a.eligibility.reasonCodes),
                                           a.recommendation.reasonCodes), a.checks);
  }

  /** Something known stands against a rollback. */
  predicate Refused(a: Assessment) {
    a.eligibility.status == Unavailable || a.readiness.status == Blocked
  }

  /** Something that should be known is not. */
  predicate Unsettled(a: Assessment) {
    a.eligibility.status == EligibilityUnknown || a.readiness.status == InsufficientEvidence || !a.evidenceComplete
  }

  /** A readiness the code can act on once nothing is refused or unsettled. */
  predicate Actionable(a: Assessment) {
    Refused(a) || Unsettled(a) || a.readiness.status == HighRisk || a.readiness.status == Ready
  }

  /** The recommendation of `out` for `a`: a refusal decides alone and is certain; short of that a gap
      in the evidence calls the operator; short of both the risk decides. Every reason given so far is
      cited once, and nothing but the recommendation changes. */
  ghost predicate IsRecommendation(a: Assessment, out: Assessment) {
    && out == a.(recommendation := out.recommendation)
    && (!Actionable(a) ==> out == a)
    && (Actionable(a) ==>
          && (out.recommendation.decision == DoNotProceed <==> Refused(a))
          && (out.recommendation.decision == OperatorDecisionRequired <==> !Refused(a) && Unsettled(a))
          && (out.recommendation.decision == FixForwardPreferred <==>
              !Refused(a) && !Unsettled(a) && a.readiness.status == HighRisk)
          && (out.recommendation.decision == RollbackPreferred <==>
              !Refused(a) && !Unsettled(a) && a.readiness.status == Ready)
          && (out.recommendation.confidence == ConfidenceHigh <==> Refused(a))
          && (out.recommendation.confidence == ConfidenceLow <==> !Refused(a) && Unsettled(a))
          && (out.recommendation.confidence == ConfidenceMedium <==> !Refused(a) && !Unsettled(a))
          && NoDuplicates(out.recommendation.reasonCodes)
          && forall c :: c in out.recommendation.reasonCodes <==>
               || c in a.eligibility.reasonCodes || c in a.recommendation.reasonCodes
               || exists k :: k in a.checks && c in k.reasonCodes)
  }

  lemma RecommendedIs(a: Assessment)
    ensures IsRecommendation(a, Recommended(a))
  {
    ReasonsAreDistinct(a);
    forall c
      ensures c in RecommendationReasonsOf(a) <==>
                || c in a.eligibility.reasonCodes || c in a.recommendation.reasonCodes
                || exists k :: k in a.checks && c in k.reasonCodes
    {
      RecommendationCites(a, c);
    }
  }

  method ApplyRecommendation(a: Assessment) returns (out: Assessment)
    ensures out == Recommended(a)
    ensures IsRecommendation(a, out)
  {
    var reasons := RecommendationReasons(a);
    match Recommend(a.eligibility.status, a.readiness.status, a.evidenceComplete) {
      case Some((decision, confidence)) => out := a.(recommendation := Recommendation(decision, confidence, reasons));
      case None => out := a;
    }
    RecommendedIs(a);
  }
}
