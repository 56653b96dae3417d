/** The findings report as a value (internal/findings/report.go), with the verdict every other part
    reads from it. */
module Reports {
  import opened Findings

  datatype CoverageStatus =
    CoverageUnset | CoverageComplete | CoveragePartial | CoverageSkipped | CoverageOther(raw: string)
  datatype ScanCoverage = ScanCoverage(kubernetes: CoverageStatus, aws: CoverageStatus, manifests: CoverageStatus) {
    predicate AnyPartial() {
      kubernetes == CoveragePartial || aws == CoveragePartial || manifests == CoveragePartial
    }
  }

  datatype Applicability = Applicable | NotApplicable | ApplicabilityOther(raw: string)
  datatype ExecutionState =
    | ExecutionEvaluated | ExecutionNotEvaluated | ExecutionInsufficientEvidence | ExecutionFailed
    | ExecutionOther(raw: string)
  datatype RuleExecutionRecord = RuleExecutionRecord(ruleID: string, applicability: Applicability,
                                                     state: ExecutionState)

  datatype Summary = Summary(blockers: nat, warnings: nat, infos: nat, operatorDecisions: nat)

  datatype CategoryStatus = CategoryPassed | CategoryWarning | CategoryFailed
  datatype CategoryName =
    | APICompatibility | ExtensionAPIs | AdmissionWebhooks | DisruptionSafety | DrainReadiness | NodeReadiness
    | Addons | CoreDNS | Workloads | EKSUpgradeInsights

  /** The display order, and the list of all categories. */
  const CATEGORY_ORDER: seq<CategoryName> :=
    [APICompatibility, ExtensionAPIs, AdmissionWebhooks, DisruptionSafety, DrainReadiness, NodeReadiness,
     Addons, CoreDNS, Workloads, EKSUpgradeInsights]

  datatype Category = Category(name: CategoryName, status: CategoryStatus, blockerCount: nat, warningCount: nat,
                               ruleIDs: seq<string>)
  datatype ReadinessSummary = ReadinessSummary(verdict: Verdict, upgradeContinue: bool, score: int,
                                               categories: seq<Category>)

  datatype APIStatus = APIPassed | APIWarning | APIFailed
  datatype APIItem = APIItem(apiVersion: string, kind: string, count: nat, resources: seq<string>)
  datatype APISummary = APISummary(
    status: APIStatus, upgradeContinue: bool, removedObjects: nat, deprecatedObjects: nat,
    removedFamilies: seq<APIItem>, deprecatedFamilies: seq<APIItem>, criticalImpact: bool, scoreImpact: int)

  datatype EKSCluster = EKSCluster(clusterName: string, region: string)
  datatype EKSAddon = EKSAddon(name: string, compatible: bool, verificationUnavailable: bool)
  datatype EKSNodegroup = EKSNodegroup(name: string, version: string, healthIssues: seq<string>)

  datatype Verdict = CLEAN | PASSED_WITH_WARNINGS | BLOCKED | INCOMPLETE

  /** A report document. Times are nanoseconds; None is the zero time. */
  datatype ReportDoc = ReportDoc(
    targetVersion: string, clusterContext: string, provider: string, upgradeContext: string, scannedAt: Option<int>,
    findings: seq<Finding>, summary: Summary, coverage: ScanCoverage,
    eksCluster: Option<EKSCluster>, eksAddons: seq<EKSAddon>, eksNodegroups: seq<EKSNodegroup>,
    upgradeReadiness: Option<ReadinessSummary>, apiCompatibility: Option<APISummary>, crossPlaneAssumption: bool,
    ruleExecutions: seq<RuleExecutionRecord>, ruleExecutionsNormalized: bool)
  {
    /** No plane came back partial and, unless the records were backfilled, every applicable rule
        was evaluated. */
    predicate IsComplete() {
      && !coverage.AnyPartial()
      && (ruleExecutionsNormalized ||
          forall rec | rec in ruleExecutions :: rec.applicability == Applicable ==> rec.state == ExecutionEvaluated)
    }

    function ResultAndExitCode(): (Verdict, int) {
      if !IsComplete() then (INCOMPLETE, 3)
      else if summary.blockers > 0 then (BLOCKED, 2)
      else if summary.warnings > 0 || summary.operatorDecisions > 0 then (PASSED_WITH_WARNINGS, 1)
      else (CLEAN, 0)
    }

    function Result(): Verdict {
      ResultAndExitCode().0
    }
  }
}
