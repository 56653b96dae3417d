/** The rollback assessment document and its validation (internal/rollback/model.go). */
module RollbackModel {
  import opened Findings

  const SCHEMA_VERSION := "kubepreflight.io/rollback-assessment/v1alpha1"

  datatype AssessmentMode = PreUpgradePosture | PostUpgradeReadiness | ModeOther(raw: string)
  datatype EligibilityStatus = Eligible | Unavailable | EligibilityUnknown | EligibilityOther(raw: string)
  datatype ReadinessStatus =
    ReadinessUnset | Ready | Blocked | HighRisk | InsufficientEvidence | ReadinessOther(raw: string)
  datatype Decision =
    | DecisionUnset | RollbackPreferred | FixForwardPreferred | OperatorDecisionRequired | DoNotProceed
    | DecisionOther(raw: string)
  datatype Confidence =
    ConfidenceUnset | ConfidenceHigh | ConfidenceMedium | ConfidenceLow | ConfidenceOther(raw: string)
  datatype CheckStatus = CheckPass | CheckWarning | CheckUnknown | CheckFail | CheckOther(raw: string)

  datatype ReasonCode =
    | UpgradeHistoryUnavailable
    | EKSUpgradeHistoryUnavailable
    | UpgradeWasNotInPlace
    | RollbackWindowExpired
    | RollbackWindowNearExpiry
    | PreviousVersionNotNMinusOne
    | ClusterNotActive
    | RollbackTargetUnsupported
    | RollbackTargetRequiresExtendedSupport
    | UpgradePolicyDisallowsRollbackTarget
    | EndOfExtendedSupportAutoUpgrade
    | EndOfExtendedSupportAutoUpgradeUnverified
    | EKSFeatureCompatibilityUnverified
    | EKSFeatureIncompatible
    | IncompatibleEKSFeatureEnabled
    | EKSInsightsUnavailable
    | EKSInsightsStale
    | EKSInsightsBlocking
    | ManagedNodegroupRollbackRequired
    | SelfManagedNodeEvidenceUnavailable
    | SelfManagedNodeRollbackRequired
    | WorkerNodesWouldRemainNewerThanControlPlane
    | AutoModeDisruptionRisk
    | FargateEvidenceUnavailable
    | FargatePodRecreationRisk
    | ManagedAddonRollbackRequired
    | ManagedAddonCompatibilityUnknown
    | SelfManagedAddonCompatibilityUnknown
    | NewVersionAPIAdoptionRisk
    | CRDWebhookControllerRisk
    | PDBDisruptionConstraints
    | UnhealthyWorkloadsPresent
    | ObservabilityEvidenceMissing
    | ApplicationHealthUnknown
    | ForceBypassNotRecommended
    | RollbackEvidenceTargetMismatch
    | RollbackEvidenceTargetUnknown
    | RollbackEvidenceClusterMismatch
    | RollbackEvidenceClusterUnknown
    | RollbackEvidenceStale
    | RollbackEvidenceTimestampUnknown
    | ReasonOther(raw: string)

  datatype Cluster = Cluster(name: string, region: string, currentVersion: string, rollbackTargetVersion: string)
  datatype Eligibility = Eligibility(status: EligibilityStatus, reasonCodes: seq<ReasonCode>)
  datatype Readiness = Readiness(status: ReadinessStatus, blockers: int, warnings: int, unknowns: int)
  datatype Recommendation = Recommendation(decision: Decision, confidence: Confidence, reasonCodes: seq<ReasonCode>)
  datatype CheckID =
    | ManagedNodegroups | SelfManagedNodeEvidence | FargateEvidence | ManagedAddons | SelfManagedAddons
    | WorkloadHealth | DisruptionReadiness | ReverseCompatibility | EvidenceCoverage | OperationalEvidence
    | CheckIDOther(raw: string)
  datatype Check = Check(id: CheckID, status: CheckStatus, reasonCodes: seq<ReasonCode>)

  /** `evidenceComplete` is the assessment's Evidence.Complete; `generatedAt` is in nanoseconds. */
  datatype Assessment = Assessment(
    schemaVersion: string, mode: AssessmentMode, cluster: Cluster, eligibility: Eligibility, readiness: Readiness,
    recommendation: Recommendation, evidenceComplete: bool, checks: seq<Check>, generatedAt: Option<int>)

  predicate ValidReasons(codes: seq<ReasonCode>) {
    forall c | c in codes :: !c.ReasonOther?
  }

  predicate ValidChecks(checks: seq<Check>) {
    forall c | c in checks :: !c.status.CheckOther? && ValidReasons(c.reasonCodes)
  }

  predicate ValidReadiness(s: ReadinessStatus) {
    s == Ready || s == Blocked || s == HighRisk || s == InsufficientEvidence
  }

  /** `Assessment.Validate` returns no error. */
  predicate Validates(a: Assessment) {
    && a.schemaVersion == SCHEMA_VERSION
    && !a.mode.ModeOther?
    && !a.eligibility.status.EligibilityOther?
    && ValidReadiness(a.readiness.status)
    && !(a.recommendation.decision.DecisionUnset? || a.recommendation.decision.DecisionOther?)
    && !(a.recommendation.confidence.ConfidenceUnset? || a.recommendation.confidence.ConfidenceOther?)
    && ValidReasons(a.eligibility.reasonCodes)
    && ValidReasons(a.recommendation.reasonCodes)
    && ValidChecks(a.checks)
    && (a.eligibility.status != Eligible ==> a.recommendation.decision != RollbackPreferred)
    && !(a.readiness.status == InsufficientEvidence && a.recommendation.confidence == ConfidenceHigh
         && a.recommendation.decision != DoNotProceed)
  }
}
