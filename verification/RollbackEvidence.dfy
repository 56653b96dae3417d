/** The rollback decision read off the fields of the assessment and the report, and when each gate on
    the evidence is shut and why (internal/rollback/operational.go). */
module RollbackEvidence {
  import opened Text
  import opened Findings
  import opened Versions
  import opened Reports
  import opened RollbackModel
  import opened Rollback
  import opened RollbackSignals
  import opened RollbackDecision
  import opened RollbackTheorems

  // ---- the conditions in raw fields --------------------------------------------------------------------

  /** The report names no cluster and no context. */
  predicate NamesNoCluster(r: ReportDoc) {
    r.eksCluster == None && TrimSpace(r.clusterContext) == ""
  }

  /** Cluster name and region are given on both sides. */
  predicate IdentitiesGiven(c: Cluster, r: ReportDoc) {
    && r.eksCluster.Some?
    && TrimSpace(r.eksCluster.value.clusterName) != "" && TrimSpace(r.eksCluster.value.region) != ""
    && TrimSpace(c.name) != "" && TrimSpace(c.region) != ""
  }

  predicate SameCluster(c: Cluster, r: ReportDoc) {
    && IdentitiesGiven(c, r)
    && TrimSpace(r.eksCluster.value.clusterName) == TrimSpace(c.name)
    && TrimSpace(r.eksCluster.value.region) == TrimSpace(c.region)
  }

  /** Both times are known and the scan is at most five minutes ahead, in nanoseconds. */
  predicate AgeKnown(r: ReportDoc, at: Option<int>) {
    r.scannedAt.Some? && at.Some? && r.scannedAt.value - at.value <= 300_000_000_000
  }

  /** And at most 24 hours old. */
  predicate IsFresh(r: ReportDoc, at: Option<int>) {
    AgeKnown(r, at) && at.value - r.scannedAt.value <= 86_400_000_000_000
  }

  /** The evidence speaks about this cluster, now. */
  predicate EvidenceApplies(a: Assessment, r: ReportDoc) {
    NamesNoCluster(r) || (SameCluster(a.cluster, r) && IsFresh(r, a.generatedAt))
  }

  /** The report was made for the version a rollback would lead to. */
  predicate TargetsMatch(a: Assessment, r: ReportDoc) {
    && ParseTrimmed(r.targetVersion).Some? && ParseTrimmed(a.cluster.rollbackTargetVersion).Some?
    && ParseTrimmed(r.targetVersion) == ParseTrimmed(a.cluster.rollbackTargetVersion)
  }

  // ---- the gates -----------------------------------------------------------------------------------------

  /** The identity gate is open exactly for reports of no cluster and of this cluster, and says which of
      the two ways it is shut. */
  lemma IdentityGateMeans(a: Assessment, r: ReportDoc)
    ensures GatesFor(a, r).identity == Open <==> NamesNoCluster(r) || SameCluster(a.cluster, r)
    ensures GatesFor(a, r).identity == Shut(RollbackEvidenceClusterUnknown) <==>
              !NamesNoCluster(r) && !IdentitiesGiven(a.cluster, r)
    ensures GatesFor(a, r).identity == Shut(RollbackEvidenceClusterMismatch) <==>
              !NamesNoCluster(r) && IdentitiesGiven(a.cluster, r) && !SameCluster(a.cluster, r)
  {
  }

  lemma FreshnessGateMeans(a: Assessment, r: ReportDoc)
    ensures GatesFor(a, r).freshness == Open <==> NamesNoCluster(r) || IsFresh(r, a.generatedAt)
    ensures GatesFor(a, r).freshness == Shut(RollbackEvidenceTimestampUnknown) <==>
              !NamesNoCluster(r) && !AgeKnown(r, a.generatedAt)
    ensures GatesFor(a, r).freshness == Shut(RollbackEvidenceStale) <==>
              !NamesNoCluster(r) && AgeKnown(r, a.generatedAt) && !IsFresh(r, a.generatedAt)
  {
  }

  lemma BlankDoesNotParse(v: string)
    ensures TrimSpace(v) == "" ==> ParseTrimmed(v) == None
    ensures ParseTrimmed(TrimSpace(v)) == ParseTrimmed(v)
  {
    TrimSpaceIs(v);
    TrimSpaceIs(TrimSpace(v));
    if TrimSpace(v) == "" {
      assert TrimPrefix("", "v") == "";
    }
  }

  lemma TargetGateMeans(a: Assessment, r: ReportDoc)
    ensures GatesFor(a, r).target == Open <==> TargetsMatch(a, r)
    ensures GatesFor(a, r).target == Shut(RollbackEvidenceTargetUnknown) <==>
              ParseTrimmed(r.targetVersion) == None || ParseTrimmed(a.cluster.rollbackTargetVersion) == None
    ensures GatesFor(a, r).target == Shut(RollbackEvidenceTargetMismatch) <==>
              && ParseTrimmed(r.targetVersion).Some? && ParseTrimmed(a.cluster.rollbackTargetVersion).Some?
              && ParseTrimmed(r.targetVersion) != ParseTrimmed(a.cluster.rollbackTargetVersion)
  {
    var f, t := r.targetVersion, a.cluster.rollbackTargetVersion;
    BlankDoesNotParse(f);
    BlankDoesNotParse(t);
    if ParseTrimmed(f).Some? && ParseTrimmed(t).Some? {
      NormalizedTextIsFaithful(TrimSpace(f), TrimSpace(t));
    }
  }

  /** Cluster-specific evidence counts exactly when it speaks about this cluster, now. */
  lemma ProvenanceMeans(a: Assessment, r: ReportDoc)
    ensures GatesFor(a, r).Provenance() <==> EvidenceApplies(a, r)
  {
    IdentityGateMeans(a, r);
    FreshnessGateMeans(a, r);
  }

  // ---- the go in raw fields --------------------------------------------------------------------------------

  /** No finding of a rule that bears on a rollback. */
  predicate IsHarmless(f: Finding) {
    && f.ruleID != "ADDON-001" && f.ruleID != "ADDON-002" && f.ruleID != "WORKLOAD-001"
    && f.ruleID != "API-001" && f.ruleID != "API-002"
    && !HasPrefix(f.ruleID, "PDB-") && !HasPrefix(f.ruleID, "DRAIN-")
    && !HasPrefix(f.ruleID, "CRD-") && !HasPrefix(f.ruleID, "WH-")
  }

  /** A node group with a known version and no health issues, not left at the version to be rolled back. */
  predicate NodegroupIsFine(ng: EKSNodegroup, c: Cluster) {
    && ng.version != "" && ng.healthIssues == []
    && !(&& c.currentVersion != "" && ng.version == c.currentVersion
         && c.rollbackTargetVersion != "" && ng.version != c.rollbackTargetVersion)
  }

  /** Nothing in the report speaks against a rollback. */
  predicate ReportIsClear(a: Assessment, r: ReportDoc) {
    && EvidenceApplies(a, r)
    && r.coverage.kubernetes == CoverageComplete
    && r.coverage.aws != CoveragePartial && r.coverage.manifests != CoveragePartial
    && (r.provider == "eks" ==> r.coverage.aws == CoverageComplete)
    && (forall f | f in r.findings :: IsHarmless(f) && (r.provider == "eks" ==> !HasPrefix(f.ruleID, "FARGATE-")))
    && (forall ng | ng in r.eksNodegroups :: NodegroupIsFine(ng, a.cluster))
    && forall addon | addon in r.eksAddons :: addon.compatible && !addon.verificationUnavailable
  }

  lemma HarmlessMeans(f: Finding)
    ensures IsHarmless(f) <==> !RiskRule(f.ruleID)
    ensures StopRule(Gates(Open, Open, Open), f.ruleID) ==> RiskRule(f.ruleID)
  {
    assert "DRAIN-005"[..6] == "DRAIN-" && "WH-002"[..3] == "WH-";
  }

  lemma ClearMeans(a: Assessment, g: Gates, r: ReportDoc)
    requires g == GatesFor(a, r)
    ensures ReportIsClear(a, r) <==> !HardStop(g, r) && !Doubt(g, r) && !Risk(r, a.cluster)
  {
    ProvenanceMeans(a, r);
    forall f | f in r.findings
      ensures IsHarmless(f) <==> !RiskRule(f.ruleID)
      ensures StopRule(g, f.ruleID) ==> RiskRule(f.ruleID)
    {
      HarmlessMeans(f);
    }
    if ReportIsClear(a, r) {
      ClearHasNoObjection(a, g, r);
    }
    if !HardStop(g, r) && !Doubt(g, r) && !Risk(r, a.cluster) {
      NoObjectionIsClear(a, g, r);
    }
  }

  lemma ClearHasNoObjection(a: Assessment, g: Gates, r: ReportDoc)
    requires ReportIsClear(a, r) && g.Provenance()
    requires forall f | f in r.findings :: !RiskRule(f.ruleID) && !StopRule(g, f.ruleID)
    ensures !HardStop(g, r) && !Doubt(g, r) && !Risk(r, a.cluster)
  {
    forall ng | ng in r.eksNodegroups
      ensures ng.version != "" && !NeedsNodegroupRollback(ng, a.cluster)
    {
      assert NodegroupIsFine(ng, a.cluster);
    }
  }

  lemma NoObjectionIsClear(a: Assessment, g: Gates, r: ReportDoc)
    requires EvidenceApplies(a, r) && !HardStop(g, r) && !Doubt(g, r) && !Risk(r, a.cluster)
    requires forall f | f in r.findings :: IsHarmless(f) <==> !RiskRule(f.ruleID)
    ensures ReportIsClear(a, r)
  {
    forall ng | ng in r.eksNodegroups
      ensures NodegroupIsFine(ng, a.cluster)
    {
      assert ng.version != "" && !NeedsNodegroupRollback(ng, a.cluster);
    }
  }

  /** The one "go" over the fields of the inputs: nothing earlier speaks against the rollback, the report
      is about this cluster and fresh (or about none), all planes that matter are complete, no finding
      bears on a rollback, and every node group and add-on is fine. */
  lemma GoInRawFields(a: Assessment, r: ReportDoc)
    ensures DecisionOn(a, Some(r)) == RollbackPreferred <==> NothingAgainst(a) && ReportIsClear(a, r)
  {
    DecisionTable(a, Some(r));
    ClearMeans(a, GatesFor(a, r), r);
    DecideGo(a, Stopped(a, Some(r)), Doubtful(a, Some(r)), Risky(a, Some(r)));
  }

  lemma DecideGo(a: Assessment, stop: bool, doubt: bool, risk: bool)
    ensures Decide(a, stop, doubt, risk) == RollbackPreferred <==> NothingAgainst(a) && !stop && !doubt && !risk
  {
  }

  /** A finding that stops the rollback: an API Blocker of a report made for the rollback version, whatever
      cluster and age; a Blocker about the live cluster of a report that applies; a CRD or webhook Blocker
      when both hold. */
  predicate StopsRollback(a: Assessment, r: ReportDoc, f: Finding) {
    && f.severity == SeverityBlocker
    && (|| ((f.ruleID == "API-001" || f.ruleID == "API-002") && TargetsMatch(a, r))
        || (f.ruleID in ["ADDON-001", "ADDON-002", "WORKLOAD-001", "DRAIN-005", "WH-002"] && EvidenceApplies(a, r))
        || ((HasPrefix(f.ruleID, "CRD-") || HasPrefix(f.ruleID, "WH-")) && EvidenceApplies(a, r) && TargetsMatch(a, r)))
  }

  /** Something about the evidence is missing or cannot be trusted. */
  ghost predicate LeavesDoubt(a: Assessment, r: ReportDoc) {
    || !EvidenceApplies(a, r)
    || r.coverage.kubernetes != CoverageComplete
    || r.coverage.aws == CoveragePartial || r.coverage.manifests == CoveragePartial
    || (r.provider == "eks" && r.coverage.aws != CoverageComplete)
    || (exists ng :: ng in r.eksNodegroups && ng.version == "")
    || (exists addon :: addon in r.eksAddons && addon.verificationUnavailable)
    || (!TargetsMatch(a, r) && exists f :: f in r.findings && NeedsTarget(f))
  }

  /** A finding of a rule that is judged against the target version. */
  predicate NeedsTarget(f: Finding) {
    || f.ruleID == "API-001" || f.ruleID == "API-002"
    || HasPrefix(f.ruleID, "CRD-") || (HasPrefix(f.ruleID, "WH-") && f.ruleID != "WH-002")
  }

  lemma StopMeans(a: Assessment, r: ReportDoc, f: Finding)
    ensures f.severity == SeverityBlocker && StopRule(GatesFor(a, r), f.ruleID) <==> StopsRollback(a, r, f)
    ensures NeedsTarget(f) <==> APIRule(f.ruleID) || CRDWebhookRule(f.ruleID)
  {
    ProvenanceMeans(a, r);
    TargetGateMeans(a, r);
    assert "CRD-"[0] != "WH-002"[0] && "WH-002"[..3] == "WH-";
  }

  lemma DoubtMeans(a: Assessment, g: Gates, r: ReportDoc)
    requires g == GatesFor(a, r)
    ensures HardStop(g, r) <==> exists f :: f in r.findings && StopsRollback(a, r, f)
    ensures Doubt(g, r) <==> LeavesDoubt(a, r)
  {
    ProvenanceMeans(a, r);
    TargetGateMeans(a, r);
    forall f | f in r.findings
      ensures f.severity == SeverityBlocker && StopRule(g, f.ruleID) <==> StopsRollback(a, r, f)
      ensures NeedsTarget(f) <==> APIRule(f.ruleID) || CRDWebhookRule(f.ruleID)
    {
      StopMeans(a, r, f);
    }
  }

  /** When the rollback is refused and when an operator must decide, over the fields of the inputs, for
      every earlier readiness this build knows or none. */
  lemma RefusalInRawFields(a: Assessment, r: ReportDoc)
    requires !a.readiness.status.ReadinessOther?
    ensures var refused := a.eligibility.status == Unavailable || a.readiness.status == Blocked
                           || exists f :: f in r.findings && StopsRollback(a, r, f);
            && (DecisionOn(a, Some(r)) == DoNotProceed <==> refused)
            && (DecisionOn(a, Some(r)) == OperatorDecisionRequired <==>
                !refused
                && (a.eligibility.status == EligibilityUnknown || a.readiness.status == InsufficientEvidence
                    || !a.evidenceComplete || LeavesDoubt(a, r)))
            && DecisionOn(a, Some(r)) in {DoNotProceed, OperatorDecisionRequired, FixForwardPreferred,
                                          RollbackPreferred}
  {
    DecisionTable(a, Some(r));
    DoubtMeans(a, GatesFor(a, r), r);
    DecideRefuses(a, Stopped(a, Some(r)), Doubtful(a, Some(r)), Risky(a, Some(r)));
  }

  lemma DecideRefuses(a: Assessment, stop: bool, doubt: bool, risk: bool)
    requires !a.readiness.status.ReadinessOther?
    ensures var refused := a.eligibility.status == Unavailable || a.readiness.status == Blocked || stop;
            && (Decide(a, stop, doubt, risk) == DoNotProceed <==> refused)
            && (Decide(a, stop, doubt, risk) == OperatorDecisionRequired <==>
                !refused
                && (a.eligibility.status == EligibilityUnknown || a.readiness.status == InsufficientEvidence
                    || !a.evidenceComplete || doubt))
            && Decide(a, stop, doubt, risk)
               in {DoNotProceed, OperatorDecisionRequired, FixForwardPreferred, RollbackPreferred}
  {
  }

  // ---- disruptions ---------------------------------------------------------------------------------------------

  /** The operation in progress touches one of these scopes; without scopes, any part of it does. */
  predicate Touches(e: OperationEvidence, scopes: seq<string>) {
    || (scopes == [] && (e.nodeDrain || e.workerReplacement || e.podEviction || e.workloadRestart))
    || ("node_drain" in scopes && (e.nodeDrain || e.podEviction || e.workerReplacement))
    || ("worker_rollout" in scopes && (e.workerReplacement || e.nodeDrain))
    || ("workload_restart" in scopes && (e.workloadRestart || e.podEviction))
  }

  predicate Disrupts(f: Finding) {
    (HasPrefix(f.ruleID, "PDB-") || HasPrefix(f.ruleID, "DRAIN-")) && f.ruleID != "DRAIN-005"
  }

  /** Which disruption findings would fail the check if operation evidence were collected, and which make
      it speak at all. */
  lemma DisruptionMeans(fs: seq<Finding>, e: OperationEvidence)
    ensures HasSignal(DisruptionSignals(fs, e), CheckFail) <==> exists f ::
              && f in fs && f.severity == SeverityBlocker && e.seen && Touches(e, f.impactScopes)
              && (f.ruleID == "PDB-001" || f.ruleID == "PDB-002" || f.ruleID == "DRAIN-002")
    ensures DisruptionSignals(fs, e) == [] <==> forall f | f in fs :: !Disrupts(f)
  {
    DisruptionFailsIff(fs, e);
    SilentDisruptions(fs, e);
    forall f | f in fs
      ensures DisruptionRule(f.ruleID) && ActivationConfirmed(f, e) <==>
                && e.seen && Touches(e, f.impactScopes)
                && (f.ruleID == "PDB-001" || f.ruleID == "PDB-002" || f.ruleID == "DRAIN-002")
    {
      assert "PDB-001"[..4] == "PDB-" && "PDB-002"[..4] == "PDB-" && "DRAIN-002"[..6] == "DRAIN-";
      assert "DRAIN-002"[8] != "DRAIN-005"[8];
    }
  }

  lemma {:induction false} SilentDisruptions(fs: seq<Finding>, e: OperationEvidence)
    ensures DisruptionSignals(fs, e) == [] <==> forall f | f in fs :: !Disrupts(f)
  {
    if fs != [] {
      var front, last := fs[..|fs| - 1], fs[|fs| - 1];
      SilentDisruptions(front, e);
      assert fs == front + [last] && last in fs;
      assert Disrupts(last) <==> DisruptionRule(last.ruleID);
      assert forall f | f in front :: f in fs;
    }
  }

  // ---- validation ----------------------------------------------------------------------------------------------

  /** A valid document: every value is one the schema lists, and the decision neither prefers a rollback
      that is not eligible nor is confident without evidence. */
  lemma ValidatesMeans(a: Assessment)
    ensures Validates(a) <==>
              && a.schemaVersion == "kubepreflight.io/rollback-assessment/v1alpha1"
              && a.mode in {PreUpgradePosture, PostUpgradeReadiness}
              && a.eligibility.status in {Eligible, Unavailable, EligibilityUnknown}
              && a.readiness.status in {Ready, Blocked, HighRisk, InsufficientEvidence}
              && a.recommendation.decision
                 in {RollbackPreferred, FixForwardPreferred, OperatorDecisionRequired, DoNotProceed}
              && a.recommendation.confidence in {ConfidenceHigh, ConfidenceMedium, ConfidenceLow}
              && (forall c | c in a.eligibility.reasonCodes + a.recommendation.reasonCodes :: !c.ReasonOther?)
              && (forall k | k in a.checks ::
                    k.status in {CheckPass, CheckWarning, CheckUnknown, CheckFail}
                    && forall c | c in k.reasonCodes :: !c.ReasonOther?)
              && (a.recommendation.decision == RollbackPreferred ==> a.eligibility.status == Eligible)
              && (a.readiness.status == InsufficientEvidence && a.recommendation.decision != DoNotProceed ==>
                    a.recommendation.confidence != ConfidenceHigh)
  {
  }

  // ---- the reasons cited for shut gates ------------------------------------------------------------------------

  ghost predicate Carries(signals: seq<Signal>, c: ReasonCode) {
    exists x :: x in signals && x.reason == c
  }

  ghost predicate Cited(checks: seq<Check>, c: ReasonCode) {
    exists k :: k in checks && c in k.reasonCodes
  }

  predicate IsProvenanceReason(c: ReasonCode) {
    || c == RollbackEvidenceClusterUnknown || c == RollbackEvidenceClusterMismatch
    || c == RollbackEvidenceTimestampUnknown || c == RollbackEvidenceStale
  }

  predicate IsTargetReason(c: ReasonCode) {
    c == RollbackEvidenceTargetUnknown || c == RollbackEvidenceTargetMismatch
  }

  predicate IsGateReason(c: ReasonCode) {
    IsProvenanceReason(c) || IsTargetReason(c)
  }

  /** A raised check cites the reasons of its signals. */
  lemma {:induction false} RaisedCites(check: Check, signals: seq<Signal>, c: ReasonCode)
    ensures c in RaiseAll(check, signals).reasonCodes <==> c in check.reasonCodes || Carries(signals, c)
  {
    if signals != [] {
      var front, last := signals[..|signals| - 1], signals[|signals| - 1];
      RaisedCites(check, front, c);
      assert signals == front + [last];
    }
  }

  lemma CarriesConcat(s: seq<Signal>, t: seq<Signal>, c: ReasonCode)
    ensures Carries(s + t, c) <==> Carries(s, c) || Carries(t, c)
  {
  }

  /** Findings and inventory never cite a gate reason. */
  lemma {:induction false} FindingsCiteTheirReason(fs: seq<Finding>, prefixes: seq<string>, reason: ReasonCode,
                                                   c: ReasonCode)
    requires c != reason
    ensures !Carries(FindingSignals(fs, prefixes, reason), c)
  {
    if fs != [] {
      FindingsCiteTheirReason(fs[..|fs| - 1], prefixes, reason, c);
    }
  }

  lemma NodegroupsCiteNoGate(ngs: seq<EKSNodegroup>, cluster: Cluster, c: ReasonCode)
    requires IsGateReason(c)
    ensures !Carries(NodegroupSignals(ngs, cluster), c)
  {
    forall x | x in NodegroupSignals(ngs, cluster)
      ensures x.reason != c
    {
      NodegroupSignalsAre(ngs, cluster, x);
    }
  }

  lemma AddonsCiteNoGate(addons: seq<EKSAddon>, c: ReasonCode)
    requires IsGateReason(c)
    ensures !Carries(AddonSignals(addons), c)
  {
    forall x | x in AddonSignals(addons)
      ensures x.reason != c
    {
      AddonSignalsAre(addons, x);
    }
  }

  lemma DisruptionCitesNoGate(fs: seq<Finding>, c: ReasonCode)
    requires IsGateReason(c)
    ensures !Carries(DisruptionSignals(fs, NO_OPERATION_EVIDENCE), c)
  {
    DisruptionSignalsAre(fs);
  }

  lemma GatedCites(g: Gates, signals: seq<Signal>, c: ReasonCode)
    ensures Carries(Gated(g, signals), c) <==>
              if g.Provenance() then Carries(signals, c) else g.identity == Shut(c) || g.freshness == Shut(c)
  {
    CarriesConcat(GateSignals(g.identity), GateSignals(g.freshness), c);
    GateCarries(g.identity, c);
    GateCarries(g.freshness, c);
  }

  lemma GateCarries(gate: Gate, c: ReasonCode)
    ensures Carries(GateSignals(gate), c) <==> gate == Shut(c)
  {
    if gate == Shut(c) {
      assert GateSignals(gate)[0].reason == c;
    }
  }

  lemma TargetGatedCites(g: Gates, fs: seq<Finding>, prefixes: seq<string>, reason: ReasonCode, c: ReasonCode)
    requires c != reason
    ensures Carries(TargetGatedSignals(g, fs, prefixes, reason), c) <==> fs != [] && g.target == Shut(c)
  {
    FindingsCiteTheirReason(fs, prefixes, reason, c);
    GateCarries(g.target, c);
  }

  /** API findings cite the target and freshness gates, CRD and webhook findings the target gate when
      the scan is about this cluster, now; webhook findings of either kind the provenance gates. */
  lemma ReverseCites(g: Gates, fs: seq<Finding>, c: ReasonCode)
    requires IsGateReason(c)
    ensures var api, gated := Matching(fs, API_RULES), TargetGated(fs);
            var webhooks := Matching(fs, LIVE_WEBHOOK_RULES) != [] || gated != [];
            Carries(ReverseCompatibilitySignals(g, fs), c) <==>
              || (api != [] && (g.target == Shut(c) || g.freshness == Shut(c)))
              || (webhooks && !g.Provenance() && (g.identity == Shut(c) || g.freshness == Shut(c)))
              || (gated != [] && g.Provenance() && g.target == Shut(c))
  {
    var api, live, gated := Matching(fs, API_RULES), Matching(fs, LIVE_WEBHOOK_RULES), TargetGated(fs);
    TargetGatedCites(g, api, API_RULES, NewVersionAPIAdoptionRisk, c);
    TargetGatedCites(g, gated, CRD_WEBHOOK_RULES, CRDWebhookControllerRisk, c);
    FindingsCiteTheirReason(live, LIVE_WEBHOOK_RULES, CRDWebhookControllerRisk, c);
    GateCarries(g.freshness, c);
    var a1 := TargetGatedSignals(g, api, API_RULES, NewVersionAPIAdoptionRisk);
    var a2 := if api != [] then GateSignals(g.freshness) else [];
    var w1 := FindingSignals(live, LIVE_WEBHOOK_RULES, CRDWebhookControllerRisk);
    var w2 := TargetGatedSignals(g, gated, CRD_WEBHOOK_RULES, CRDWebhookControllerRisk);
    var w := if live == [] && gated == [] then [] else Gated(g, w1 + w2);
    CarriesConcat(w1, w2, c);
    GatedCites(g, w1 + w2, c);
    CarriesConcat(a1, a2, c);
    CarriesConcat(a1 + a2, w, c);
    assert ReverseCompatibilitySignals(g, fs) == (a1 + a2) + w;
  }

  lemma NineCite(k: seq<Check>, c: ReasonCode)
    requires |k| == 9
    ensures Cited(k, c) <==>
              || c in k[0].reasonCodes || c in k[1].reasonCodes || c in k[2].reasonCodes || c in k[3].reasonCodes
              || c in k[4].reasonCodes || c in k[5].reasonCodes || c in k[6].reasonCodes || c in k[7].reasonCodes
              || c in k[8].reasonCodes
  {
    assert forall i | 0 <= i < 9 :: k[i] in k;
  }

  /** A check list cites what its signals carry. */
  lemma ChecksCite(s: CheckSignals, c: ReasonCode)
    ensures Cited(ChecksOf(s), c) <==>
              || Carries(s.nodegroups, c) || Carries(s.nodeEvidence, c) || Carries(s.fargate, c) || Carries(s.addons, c)
              || Carries(s.selfManagedAddons, c) || Carries(s.workloads, c) || Carries(s.disruption, c)
              || Carries(s.reverseCompatibility, c) || Carries(s.coverage, c)
  {
    RaisedCites(Passing(ManagedNodegroups), s.nodegroups, c);
    RaisedCites(Passing(SelfManagedNodeEvidence), s.nodeEvidence, c);
    RaisedCites(Passing(FargateEvidence), s.fargate, c);
    RaisedCites(Passing(ManagedAddons), s.addons, c);
    RaisedCites(Passing(SelfManagedAddons), s.selfManagedAddons, c);
    RaisedCites(Passing(WorkloadHealth), s.workloads, c);
    RaisedCites(Passing(DisruptionReadiness), s.disruption, c);
    RaisedCites(Passing(ReverseCompatibility), s.reverseCompatibility, c);
    RaisedCites(Passing(EvidenceCoverage), s.coverage, c);
    NineCite(ChecksOf(s), c);
  }

  /** A shut provenance gate gives this reason. */
  ghost predicate ShutFor(g: Gates, c: ReasonCode) {
    g.identity == Shut(c) || g.freshness == Shut(c)
  }

  /** Signals that are gated and carry no gate reason of their own. */
  lemma OnlyGatesCited(g: Gates, signals: seq<Signal>, c: ReasonCode)
    requires !Carries(signals, c)
    ensures Carries(Gated(g, signals), c) <==> ShutFor(g, c)
  {
    GatedCites(g, signals, c);
  }

  lemma AddonsCiteGates(g: Gates, r: ReportDoc, c: ReasonCode)
    requires IsGateReason(c)
    ensures Carries(Gated(g, AddonSignals(r.eksAddons)
                             + FindingSignals(r.findings, ["ADDON-001"], ManagedAddonRollbackRequired)
                             + FindingSignals(r.findings, ["ADDON-002"], ManagedAddonCompatibilityUnknown)), c)
            <==> ShutFor(g, c)
  {
    var s1 := AddonSignals(r.eksAddons);
    var s2 := FindingSignals(r.findings, ["ADDON-001"], ManagedAddonRollbackRequired);
    var s3 := FindingSignals(r.findings, ["ADDON-002"], ManagedAddonCompatibilityUnknown);
    AddonsCiteNoGate(r.eksAddons, c);
    FindingsCiteTheirReason(r.findings, ["ADDON-001"], ManagedAddonRollbackRequired, c);
    FindingsCiteTheirReason(r.findings, ["ADDON-002"], ManagedAddonCompatibilityUnknown, c);
    CarriesConcat(s1, s2, c);
    CarriesConcat(s1 + s2, s3, c);
    OnlyGatesCited(g, s1 + s2 + s3, c);
  }

  lemma GatedFindingsCite(g: Gates, fs: seq<Finding>, prefixes: seq<string>, reason: ReasonCode, c: ReasonCode)
    requires c != reason
    ensures Carries(Gated(g, FindingSignals(fs, prefixes, reason)), c) <==> ShutFor(g, c)
  {
    FindingsCiteTheirReason(fs, prefixes, reason, c);
    OnlyGatesCited(g, FindingSignals(fs, prefixes, reason), c);
  }

  /** The five lists behind the provenance gates carry the reasons of shut gates and no other. */
  ghost predicate GatedListsCite(s: CheckSignals, g: Gates, c: ReasonCode) {
    && (Carries(s.nodegroups, c) <==> ShutFor(g, c)) && (Carries(s.addons, c) <==> ShutFor(g, c))
    && (Carries(s.selfManagedAddons, c) <==> ShutFor(g, c)) && (Carries(s.workloads, c) <==> ShutFor(g, c))
    && (Carries(s.disruption, c) <==> ShutFor(g, c))
  }

  /** The three lists about coverage carry none. */
  ghost predicate PlainListsAreSilent(s: CheckSignals, c: ReasonCode) {
    !Carries(s.nodeEvidence, c) && !Carries(s.fargate, c) && !Carries(s.coverage, c)
  }

  lemma GatedSignalsCite(g: Gates, cluster: Cluster, r: ReportDoc, c: ReasonCode)
    requires IsGateReason(c)
    ensures GatedListsCite(SignalsByCheck(g, cluster, r), g, c)
  {
    var fs := r.findings;
    NodegroupsCiteNoGate(r.eksNodegroups, cluster, c);
    OnlyGatesCited(g, NodegroupSignals(r.eksNodegroups, cluster), c);
    DisruptionCitesNoGate(fs, c);
    OnlyGatesCited(g, DisruptionSignals(fs, NO_OPERATION_EVIDENCE), c);
    AddonsCiteGates(g, r, c);
    GatedFindingsCite(g, fs, ["ADDON-002"], SelfManagedAddonCompatibilityUnknown, c);
    GatedFindingsCite(g, fs, WORKLOAD_RULES, UnhealthyWorkloadsPresent, c);
  }

  lemma PlainSignalsAreSilent(g: Gates, cluster: Cluster, r: ReportDoc, c: ReasonCode)
    requires IsGateReason(c)
    ensures PlainListsAreSilent(SignalsByCheck(g, cluster, r), c)
  {
    UnknownIfCites(r.coverage.kubernetes != CoverageComplete, SelfManagedNodeEvidenceUnavailable, c);
    UnknownIfCites(r.coverage.AnyPartial(), ObservabilityEvidenceMissing, c);
    FargateCitesNoGate(r, c);
  }

  lemma UnknownIfCites(doubtful: bool, reason: ReasonCode, c: ReasonCode)
    requires c != reason
    ensures !Carries(UnknownIf(doubtful, reason), c)
  {
  }

  lemma FargateCitesNoGate(r: ReportDoc, c: ReasonCode)
    requires IsGateReason(c)
    ensures !Carries(FargateSignals(r), c)
  {
  }

  ghost predicate HasAPIFinding(r: ReportDoc) {
    exists f :: f in r.findings && (f.ruleID == "API-001" || f.ruleID == "API-002")
  }

  ghost predicate HasCRDFinding(r: ReportDoc) {
    exists f :: && f in r.findings && f.ruleID != "WH-002"
                && (HasPrefix(f.ruleID, "CRD-") || HasPrefix(f.ruleID, "WH-"))
  }

  lemma MatchingMeans(r: ReportDoc)
    ensures Matching(r.findings, API_RULES) != [] <==> HasAPIFinding(r)
    ensures TargetGated(r.findings) != [] <==> HasCRDFinding(r)
  {
    var api, gated := Matching(r.findings, API_RULES), TargetGated(r.findings);
    MatchingAre(r.findings, API_RULES);
    TargetGatedAre(r.findings);
    forall f | f in r.findings
      ensures RuleMatches(f.ruleID, API_RULES) <==> f.ruleID == "API-001" || f.ruleID == "API-002"
    {
      RuleMatchesLiterals(f.ruleID);
    }
    if api != [] {
      assert api[0] in api;
    }
    if gated != [] {
      assert gated[0] in gated;
    }
  }

  lemma ReasonsUnderGates(g: Gates, s: CheckSignals, r: ReportDoc, c: ReasonCode)
    requires IsGateReason(c) && GatedListsCite(s, g, c) && PlainListsAreSilent(s, c)
    requires s.reverseCompatibility == ReverseCompatibilitySignals(g, r.findings)
    requires IsProvenanceReason(c) ==> g.target != Shut(c)
    requires IsTargetReason(c) ==> !ShutFor(g, c)
    ensures IsProvenanceReason(c) ==> (Cited(ChecksOf(s), c) <==> ShutFor(g, c))
    ensures IsTargetReason(c) ==>
              (Cited(ChecksOf(s), c) <==>
                 g.target == Shut(c) && (HasAPIFinding(r) || (HasCRDFinding(r) && g.Provenance())))
  {
    ChecksCite(s, c);
    ReverseCites(g, r.findings, c);
    MatchingMeans(r);
  }

  lemma CitedUnderGates(g: Gates, cluster: Cluster, r: ReportDoc, c: ReasonCode)
    requires IsGateReason(c) && OwnReasons(g)
    ensures var checks := ChecksOf(SignalsByCheck(g, cluster, r));
            && (IsProvenanceReason(c) ==> (Cited(checks, c) <==> ShutFor(g, c)))
            && (IsTargetReason(c) ==>
                  (Cited(checks, c) <==>
                     g.target == Shut(c) && (HasAPIFinding(r) || (HasCRDFinding(r) && g.Provenance()))))
  {
    GateReasonsAreTheirOwn(g, c);
    GatedSignalsCite(g, cluster, r, c);
    PlainSignalsAreSilent(g, cluster, r, c);
    ReasonsUnderGates(g, SignalsByCheck(g, cluster, r), r, c);
  }

  /** The new checks cite a provenance reason exactly when its gate is shut for it, and a target reason
      exactly when the target gate is shut for it and an API finding, or a CRD or webhook finding of a
      scan of this cluster, depends on the target. */
  lemma GateReasonsCited(a: Assessment, r: ReportDoc, c: ReasonCode)
    requires IsGateReason(c)
    ensures IsProvenanceReason(c) ==> (Cited(NewChecks(a, Some(r)), c) <==> ShutFor(GatesFor(a, r), c))
    ensures IsTargetReason(c) ==>
              (Cited(NewChecks(a, Some(r)), c) <==>
                 && GatesFor(a, r).target == Shut(c)
                 && (HasAPIFinding(r) || (HasCRDFinding(r) && EvidenceApplies(a, r))))
  {
    GatesGiveOwnReasons(a, r);
    CitedUnderGates(GatesFor(a, r), a.cluster, r, c);
    ProvenanceMeans(a, r);
  }

  /** Each gate gives reasons of its own kind. */
  predicate OwnReasons(g: Gates) {
    && (g.identity.Shut? ==> IsProvenanceReason(g.identity.reason))
    && (g.freshness.Shut? ==> IsProvenanceReason(g.freshness.reason))
    && (g.target.Shut? ==> IsTargetReason(g.target.reason))
  }

  lemma GatesGiveOwnReasons(a: Assessment, r: ReportDoc)
    ensures OwnReasons(GatesFor(a, r))
  {
    IdentityReasons(r, a.cluster);
    FreshnessReasons(r, a.generatedAt);
    TargetReasons(r.targetVersion, a.cluster.rollbackTargetVersion);
  }

  lemma GateReasonsAreTheirOwn(g: Gates, c: ReasonCode)
    requires OwnReasons(g)
    ensures IsProvenanceReason(c) ==> g.target != Shut(c)
    ensures IsTargetReason(c) ==> !ShutFor(g, c)
  {
  }

  lemma IdentityReasons(r: ReportDoc, cluster: Cluster)
    ensures IdentityGate(r, cluster).Shut? ==> IsProvenanceReason(IdentityGate(r, cluster).reason)
  {
  }

  lemma FreshnessReasons(r: ReportDoc, at: Option<int>)
    ensures FreshnessGate(r, at).Shut? ==> IsProvenanceReason(FreshnessGate(r, at).reason)
  {
  }

  lemma TargetReasons(f: string, t: string)
    ensures TargetGate(f, t).Shut? ==> IsTargetReason(TargetGate(f, t).reason)
  {
  }
}
