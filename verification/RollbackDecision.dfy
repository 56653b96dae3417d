/** What the rollback pipeline guarantees from end to end: a decision table over the raw inputs,
    monotonicity in the findings, validity of the document, and the algebra of readiness. */
module RollbackDecision {
  import opened Text
  import opened Findings
  import opened Reports
  import opened RollbackModel
  import opened Rollback
  import opened RollbackSignals

  // ---- the raw conditions ----------------------------------------------------------------------------------

  predicate LiveRule(id: string) {
    id == "ADDON-001" || id == "ADDON-002" || id == "WORKLOAD-001" || id == "DRAIN-005" || id == "WH-002"
  }

  predicate APIRule(id: string) {
    id == "API-001" || id == "API-002"
  }

  /** A Blocker of this rule stops the rollback under these gates. Disruption rules never do: no
      operation evidence is collected that could confirm them. API findings do so even when the scan
      is stale or from another cluster: only their target matters. */
  predicate StopRule(g: Gates, id: string) {
    || (APIRule(id) && g.target.Open?)
    || (LiveRule(id) && g.Provenance())
    || (CRDWebhookRule(id) && g.Provenance() && g.target.Open?)
  }

  /** Some finding is a confirmed obstacle. */
  ghost predicate HardStop(g: Gates, r: ReportDoc) {
    exists f :: f in r.findings && f.severity == SeverityBlocker && StopRule(g, f.ruleID)
  }

  /** Some evidence is missing or cannot be trusted. */
  ghost predicate Doubt(g: Gates, r: ReportDoc) {
    || !g.Provenance()
    || r.coverage.kubernetes != CoverageComplete
    || (r.provider == "eks" && r.coverage.aws != CoverageComplete)
    || r.coverage.AnyPartial()
    || (exists ng :: ng in r.eksNodegroups && ng.version == "")
    || (exists addon :: addon in r.eksAddons && addon.verificationUnavailable)
    || (g.target.Shut? && exists f :: f in r.findings && (APIRule(f.ruleID) || CRDWebhookRule(f.ruleID)))
  }

  predicate RiskRule(id: string) {
    LiveRule(id) || APIRule(id) || CRDWebhookRule(id) || DisruptionRule(id)
  }

  /** Some finding or inventory entry speaks against the rollback. */
  ghost predicate Risk(r: ReportDoc, c: Cluster) {
    || (exists f :: f in r.findings && RiskRule(f.ruleID))
    || (r.provider == "eks" && exists f :: f in r.findings && HasPrefix(f.ruleID, "FARGATE-"))
    || (exists ng :: ng in r.eksNodegroups && NeedsNodegroupRollback(ng, c))
    || (exists addon :: addon in r.eksAddons && !addon.compatible)
  }

  // ---- from the checks to the conditions ----------------------------------------------------------------------

  lemma RuleMatchesLiterals(id: string)
    ensures RuleMatches(id, ["ADDON-001"]) <==> id == "ADDON-001"
    ensures RuleMatches(id, ["ADDON-002"]) <==> id == "ADDON-002"
    ensures RuleMatches(id, API_RULES) <==> APIRule(id)
    ensures RuleMatches(id, WORKLOAD_RULES) <==> id == "WORKLOAD-001" || id == "DRAIN-005"
    ensures RuleMatches(id, LIVE_WEBHOOK_RULES) <==> id == "WH-002"
    ensures RuleMatches(id, CRD_WEBHOOK_RULES) <==> HasPrefix(id, "CRD-") || HasPrefix(id, "WH-")
  {
    ExactRule("ADDON-001");
    ExactRule("ADDON-002");
    ExactRule("API-001");
    ExactRule("API-002");
    ExactRule("WORKLOAD-001");
    ExactRule("DRAIN-005");
    ExactRule("WH-002");
    assert "CRD-"[3..] == "-" && "WH-"[2..] == "-";
    assert "API-001" in API_RULES && "API-002" in API_RULES;
    assert "WORKLOAD-001" in WORKLOAD_RULES && "DRAIN-005" in WORKLOAD_RULES;
    assert "WH-002" in LIVE_WEBHOOK_RULES && "CRD-" in CRD_WEBHOOK_RULES && "WH-" in CRD_WEBHOOK_RULES;
    assert "ADDON-001" in ["ADDON-001"] && "ADDON-002" in ["ADDON-002"];
  }

  lemma ExactRule(rule: string)
    requires rule != [] && rule[|rule| - 1] != '-'
    ensures forall id :: MatchesOne(id, rule) <==> id == rule
  {
    assert rule[|rule| - 1..][0] == rule[|rule| - 1];
  }

  /** Some finding of a rule in the class, of blocker severity or not. */
  ghost predicate SomeFinding(fs: seq<Finding>, rule: string -> bool, blocker: bool) {
    exists f :: f in fs && rule(f.ruleID) && (f.severity == SeverityBlocker) == blocker
  }

  ghost function FindingProfile(fs: seq<Finding>, rule: string -> bool): Profile {
    Profile(SomeFinding(fs, rule, true), false, SomeFinding(fs, rule, false))
  }

  lemma ProfileOfRules(fs: seq<Finding>, prefixes: seq<string>, rule: string -> bool, reason: ReasonCode)
    requires forall id :: RuleMatches(id, prefixes) <==> rule(id)
    ensures Profiled(FindingSignals(fs, prefixes, reason), FindingProfile(fs, rule))
  {
    ProfileOfFindings(fs, prefixes, reason);
    assert FoundBlocker(fs, prefixes) <==> SomeFinding(fs, rule, true);
    assert FoundMilder(fs, prefixes) <==> SomeFinding(fs, rule, false);
  }

  function Is(id: string): string -> bool {
    (x: string) => x == id
  }

  function WorkloadRule(): string -> bool {
    (x: string) => x == "WORKLOAD-001" || x == "DRAIN-005"
  }

  ghost function AddonProfile(r: ReportDoc): Profile {
    Profile(false, exists addon :: addon in r.eksAddons && addon.verificationUnavailable,
            exists addon :: addon in r.eksAddons && !addon.verificationUnavailable && !addon.compatible)
  }

  ghost function AddonCheckProfile(r: ReportDoc): Profile {
    AddonProfile(r).Or(FindingProfile(r.findings, Is("ADDON-001"))).Or(FindingProfile(r.findings, Is("ADDON-002")))
  }

  lemma AddonFindingsAre(fs: seq<Finding>, id: string, reason: ReasonCode)
    requires id == "ADDON-001" || id == "ADDON-002"
    ensures Profiled(FindingSignals(fs, [id], reason), FindingProfile(fs, Is(id)))
  {
    forall x
      ensures RuleMatches(x, [id]) <==> Is(id)(x)
    {
      RuleMatchesLiterals(x);
    }
    ProfileOfRules(fs, [id], Is(id), reason);
  }

  lemma AddonCheckIs(g: Gates, r: ReportDoc)
    ensures Profiled(Gated(g, AddonSignals(r.eksAddons)
                              + FindingSignals(r.findings, ["ADDON-001"], ManagedAddonRollbackRequired)
                              + FindingSignals(r.findings, ["ADDON-002"], ManagedAddonCompatibilityUnknown)),
                     Live(g, AddonCheckProfile(r)))
  {
    var fs := r.findings;
    var s1, s2, s3 := AddonSignals(r.eksAddons), FindingSignals(fs, ["ADDON-001"], ManagedAddonRollbackRequired),
                      FindingSignals(fs, ["ADDON-002"], ManagedAddonCompatibilityUnknown);
    ProfileOfAddons(r.eksAddons);
    AddonFindingsAre(fs, "ADDON-001", ManagedAddonRollbackRequired);
    AddonFindingsAre(fs, "ADDON-002", ManagedAddonCompatibilityUnknown);
    ProfileOfConcat(s1, AddonProfile(r), s2, FindingProfile(fs, Is("ADDON-001")));
    ProfileOfConcat(s1 + s2, AddonProfile(r).Or(FindingProfile(fs, Is("ADDON-001"))), s3,
                    FindingProfile(fs, Is("ADDON-002")));
    ProfileOfGated(g, s1 + s2 + s3, AddonCheckProfile(r));
  }

  /** Findings whose target must match: nothing when there are none, doubt when it does not match. */
  ghost function TargetProfile(g: Gates, fs: seq<Finding>, rule: string -> bool): Profile {
    if !SomeFinding(fs, rule, true) && !SomeFinding(fs, rule, false) then QUIET
    else if g.target.Open? then FindingProfile(fs, rule)
    else DOUBTFUL
  }

  lemma APIPartIs(g: Gates, fs: seq<Finding>)
    ensures Profiled(TargetGatedSignals(g, Matching(fs, API_RULES), API_RULES, NewVersionAPIAdoptionRisk),
                     TargetProfile(g, fs, APIRule))
    ensures Matching(fs, API_RULES) == [] <==> !SomeFinding(fs, APIRule, true) && !SomeFinding(fs, APIRule, false)
  {
    var api := Matching(fs, API_RULES);
    MatchingAre(fs, API_RULES);
    forall id { RuleMatchesLiterals(id); }
    ProfileOfTargetGated(g, api, API_RULES, NewVersionAPIAdoptionRisk);
    assert FoundBlocker(api, API_RULES) <==> SomeFinding(fs, APIRule, true);
    assert FoundMilder(api, API_RULES) <==> SomeFinding(fs, APIRule, false);
    if api != [] { assert api[0] in api; }
  }

  lemma LiveWebhookPartIs(fs: seq<Finding>)
    ensures Profiled(FindingSignals(Matching(fs, LIVE_WEBHOOK_RULES), LIVE_WEBHOOK_RULES, CRDWebhookControllerRisk),
                     FindingProfile(fs, Is("WH-002")))
    ensures Matching(fs, LIVE_WEBHOOK_RULES) == [] <==>
              !SomeFinding(fs, Is("WH-002"), true) && !SomeFinding(fs, Is("WH-002"), false)
  {
    var live := Matching(fs, LIVE_WEBHOOK_RULES);
    MatchingAre(fs, LIVE_WEBHOOK_RULES);
    forall id { RuleMatchesLiterals(id); }
    ProfileOfRules(live, LIVE_WEBHOOK_RULES, Is("WH-002"), CRDWebhookControllerRisk);
    assert SomeFinding(live, Is("WH-002"), true) <==> SomeFinding(fs, Is("WH-002"), true);
    assert SomeFinding(live, Is("WH-002"), false) <==> SomeFinding(fs, Is("WH-002"), false);
    if live != [] { assert live[0] in live; }
  }

  lemma CRDWebhookPartIs(g: Gates, fs: seq<Finding>)
    ensures Profiled(TargetGatedSignals(g, TargetGated(fs), CRD_WEBHOOK_RULES, CRDWebhookControllerRisk),
                     TargetProfile(g, fs, CRDWebhookRule))
    ensures TargetGated(fs) == [] <==> !SomeFinding(fs, CRDWebhookRule, true) && !SomeFinding(fs, CRDWebhookRule, false)
  {
    var gated := TargetGated(fs);
    TargetGatedAre(fs);
    forall id { RuleMatchesLiterals(id); }
    ProfileOfTargetGated(g, gated, CRD_WEBHOOK_RULES, CRDWebhookControllerRisk);
    assert FoundBlocker(gated, CRD_WEBHOOK_RULES) <==> SomeFinding(fs, CRDWebhookRule, true);
    assert FoundMilder(gated, CRD_WEBHOOK_RULES) <==> SomeFinding(fs, CRDWebhookRule, false);
    if gated != [] { assert gated[0] in gated; }
  }

  ghost predicate AnyOf(fs: seq<Finding>, rule: string -> bool) {
    SomeFinding(fs, rule, true) || SomeFinding(fs, rule, false)
  }

  ghost function ReverseProfile(g: Gates, fs: seq<Finding>): Profile {
    TargetProfile(g, fs, APIRule)
    .Or(if AnyOf(fs, APIRule) && g.freshness.Shut? then DOUBTFUL else QUIET)
    .Or(if !AnyOf(fs, Is("WH-002")) && !AnyOf(fs, CRDWebhookRule) then QUIET
        else if g.Provenance() then FindingProfile(fs, Is("WH-002")).Or(TargetProfile(g, fs, CRDWebhookRule))
        else DOUBTFUL)
  }

  lemma ReverseCheckIs(g: Gates, fs: seq<Finding>)
    ensures Profiled(ReverseCompatibilitySignals(g, fs), ReverseProfile(g, fs))
  {
    APIPartIs(g, fs);
    LiveWebhookPartIs(fs);
    CRDWebhookPartIs(g, fs);
    ProfileOfGate(g.freshness);
    var api, live, gated := Matching(fs, API_RULES), Matching(fs, LIVE_WEBHOOK_RULES), TargetGated(fs);
    var s1 := TargetGatedSignals(g, api, API_RULES, NewVersionAPIAdoptionRisk);
    var s2 := if api != [] then GateSignals(g.freshness) else [];
    var p2 := if AnyOf(fs, APIRule) && g.freshness.Shut? then DOUBTFUL else QUIET;
    var l1 := FindingSignals(live, LIVE_WEBHOOK_RULES, CRDWebhookControllerRisk);
    var l2 := TargetGatedSignals(g, gated, CRD_WEBHOOK_RULES, CRDWebhookControllerRisk);
    ProfileOfConcat(l1, FindingProfile(fs, Is("WH-002")), l2, TargetProfile(g, fs, CRDWebhookRule));
    ProfileOfGated(g, l1 + l2, FindingProfile(fs, Is("WH-002")).Or(TargetProfile(g, fs, CRDWebhookRule)));
    var s3 := if live == [] && gated == [] then [] else Gated(g, l1 + l2);
    var p3 := if !AnyOf(fs, Is("WH-002")) && !AnyOf(fs, CRDWebhookRule) then QUIET
              else if g.Provenance() then FindingProfile(fs, Is("WH-002")).Or(TargetProfile(g, fs, CRDWebhookRule))
              else DOUBTFUL;
    assert Profiled(s2, p2) && Profiled(s3, p3);
    ProfileOfConcat(s1, TargetProfile(g, fs, APIRule), s2, p2);
    ProfileOfConcat(s1 + s2, TargetProfile(g, fs, APIRule).Or(p2), s3, p3);
  }

  ghost function NodegroupProfile(r: ReportDoc, c: Cluster): Profile {
    Profile(false, exists ng :: ng in r.eksNodegroups && ng.version == "",
            exists ng :: ng in r.eksNodegroups && ng.version != "" && NeedsNodegroupRollback(ng, c))
  }

  ghost function FargateProfile(r: ReportDoc): Profile {
    if r.provider != "eks" then QUIET
    else if r.coverage.aws != CoverageComplete then DOUBTFUL
    else Profile(false, false, exists f :: f in r.findings && HasPrefix(f.ruleID, "FARGATE-"))
  }

  ghost function DisruptionProfile(fs: seq<Finding>): Profile {
    Profile(false, false, exists f :: f in fs && DisruptionRule(f.ruleID))
  }

  ghost function Live(g: Gates, p: Profile): Profile {
    if g.Provenance() then p else DOUBTFUL
  }

  lemma NodegroupCheckIs(g: Gates, r: ReportDoc, c: Cluster)
    ensures Profiled(Gated(g, NodegroupSignals(r.eksNodegroups, c)), Live(g, NodegroupProfile(r, c)))
  {
    ProfileOfNodegroups(r.eksNodegroups, c);
    ProfileOfGated(g, NodegroupSignals(r.eksNodegroups, c), NodegroupProfile(r, c));
  }

  lemma FargateCheckIs(r: ReportDoc)
    ensures Profiled(FargateSignals(r), FargateProfile(r))
  {
    ProfileOfOne(Signal(CheckUnknown, FargateEvidenceUnavailable));
    ProfileOfOne(Signal(CheckWarning, FargatePodRecreationRisk));
  }

  lemma SelfManagedAddonCheckIs(g: Gates, fs: seq<Finding>)
    ensures Profiled(Gated(g, FindingSignals(fs, ["ADDON-002"], SelfManagedAddonCompatibilityUnknown)),
                     Live(g, FindingProfile(fs, Is("ADDON-002"))))
  {
    AddonFindingsAre(fs, "ADDON-002", SelfManagedAddonCompatibilityUnknown);
    ProfileOfGated(g, FindingSignals(fs, ["ADDON-002"], SelfManagedAddonCompatibilityUnknown),
                   FindingProfile(fs, Is("ADDON-002")));
  }

  lemma WorkloadCheckIs(g: Gates, fs: seq<Finding>)
    ensures Profiled(Gated(g, FindingSignals(fs, WORKLOAD_RULES, UnhealthyWorkloadsPresent)),
                     Live(g, FindingProfile(fs, WorkloadRule())))
  {
    forall id
      ensures RuleMatches(id, WORKLOAD_RULES) <==> WorkloadRule()(id)
    {
      RuleMatchesLiterals(id);
    }
    ProfileOfRules(fs, WORKLOAD_RULES, WorkloadRule(), UnhealthyWorkloadsPresent);
    ProfileOfGated(g, FindingSignals(fs, WORKLOAD_RULES, UnhealthyWorkloadsPresent),
                   FindingProfile(fs, WorkloadRule()));
  }

  lemma DisruptionCheckIs(g: Gates, fs: seq<Finding>)
    ensures Profiled(Gated(g, DisruptionSignals(fs, NO_OPERATION_EVIDENCE)), Live(g, DisruptionProfile(fs)))
  {
    ProfileOfDisruption(fs);
    ProfileOfGated(g, DisruptionSignals(fs, NO_OPERATION_EVIDENCE), DisruptionProfile(fs));
  }

  lemma CoverageCheckIs(doubtful: bool, reason: ReasonCode)
    ensures Profiled(UnknownIf(doubtful, reason), DoubtIf(doubtful))
  {
    ProfileOfOne(Signal(CheckUnknown, reason));
  }

  ghost function DoubtIf(doubtful: bool): Profile {
    if doubtful then DOUBTFUL else QUIET
  }

  /** The kinds of signal each of the nine checks receives. */
  datatype CheckProfiles = CheckProfiles(
    nodegroups: Profile, nodeEvidence: Profile, fargate: Profile, addons: Profile, selfManagedAddons: Profile,
    workloads: Profile, disruption: Profile, reverseCompatibility: Profile, coverage: Profile)
  {
    function Total(): Profile {
      nodegroups.Or(nodeEvidence).Or(fargate).Or(addons).Or(selfManagedAddons).Or(workloads).Or(disruption)
      .Or(reverseCompatibility).Or(coverage)
    }
  }

  ghost function ProfilesOf(g: Gates, r: ReportDoc, c: Cluster): CheckProfiles {
    CheckProfiles(
      Live(g, NodegroupProfile(r, c)),
      DoubtIf(r.coverage.kubernetes != CoverageComplete),
      FargateProfile(r),
      Live(g, AddonCheckProfile(r)),
      Live(g, FindingProfile(r.findings, Is("ADDON-002"))),
      Live(g, FindingProfile(r.findings, WorkloadRule())),
      Live(g, DisruptionProfile(r.findings)),
      ReverseProfile(g, r.findings),
      DoubtIf(r.coverage.AnyPartial()))
  }

  ghost predicate AllProfiled(s: CheckSignals, p: CheckProfiles) {
    && Profiled(s.nodegroups, p.nodegroups) && Profiled(s.nodeEvidence, p.nodeEvidence)
    && Profiled(s.fargate, p.fargate) && Profiled(s.addons, p.addons)
    && Profiled(s.selfManagedAddons, p.selfManagedAddons) && Profiled(s.workloads, p.workloads)
    && Profiled(s.disruption, p.disruption) && Profiled(s.reverseCompatibility, p.reverseCompatibility)
    && Profiled(s.coverage, p.coverage)
  }

  lemma ChecksAreProfiled(g: Gates, c: Cluster, r: ReportDoc)
    ensures AllProfiled(SignalsByCheck(g, c, r), ProfilesOf(g, r, c))
  {
    NodegroupCheckIs(g, r, c);
    CoverageCheckIs(r.coverage.kubernetes != CoverageComplete, SelfManagedNodeEvidenceUnavailable);
    FargateCheckIs(r);
    AddonCheckIs(g, r);
    SelfManagedAddonCheckIs(g, r.findings);
    WorkloadCheckIs(g, r.findings);
    DisruptionCheckIs(g, r.findings);
    ReverseCheckIs(g, r.findings);
    CoverageCheckIs(r.coverage.AnyPartial(), ObservabilityEvidenceMissing);
  }

  lemma SomeFindingSplits(g: Gates, r: ReportDoc)
    ensures HardStop(g, r) <==>
            || (g.target.Open? && SomeFinding(r.findings, APIRule, true))
            || (g.Provenance() && SomeFinding(r.findings, Is("ADDON-001"), true))
            || (g.Provenance() && SomeFinding(r.findings, Is("ADDON-002"), true))
            || (g.Provenance() && SomeFinding(r.findings, WorkloadRule(), true))
            || (g.Provenance() && SomeFinding(r.findings, Is("WH-002"), true))
            || (g.Provenance() && g.target.Open? && SomeFinding(r.findings, CRDWebhookRule, true))
  {
  }

  lemma FailIsHardStop(g: Gates, r: ReportDoc, c: Cluster)
    ensures ProfilesOf(g, r, c).Total().fail <==> HardStop(g, r)
  {
    SomeFindingSplits(g, r);
  }

  lemma UnknownIsDoubt(g: Gates, r: ReportDoc, c: Cluster)
    ensures ProfilesOf(g, r, c).Total().unknown <==> Doubt(g, r)
  {
    var fs := r.findings;
    assert AnyOf(fs, APIRule) <==> exists f :: f in fs && APIRule(f.ruleID);
    assert AnyOf(fs, CRDWebhookRule) <==> exists f :: f in fs && CRDWebhookRule(f.ruleID);
  }

  lemma AnyOfIs(fs: seq<Finding>, rule: string -> bool)
    ensures AnyOf(fs, rule) <==> exists f :: f in fs && rule(f.ruleID)
  {
  }

  /** With no obstacle and no doubt, a warning is a risk. */
  lemma WarningIsRisk(g: Gates, r: ReportDoc, c: Cluster)
    requires !HardStop(g, r) && !Doubt(g, r)
    ensures ProfilesOf(g, r, c).Total().warning <==> Risk(r, c)
  {
    var fs := r.findings;
    FailIsHardStop(g, r, c);
    AnyOfIs(fs, APIRule);
    AnyOfIs(fs, CRDWebhookRule);
    AnyOfIs(fs, Is("ADDON-001"));
    AnyOfIs(fs, Is("ADDON-002"));
    AnyOfIs(fs, WorkloadRule());
    AnyOfIs(fs, Is("WH-002"));
    assert ProfilesOf(g, r, c).Total().warning <==>
           || AnyOf(fs, APIRule) || AnyOf(fs, CRDWebhookRule) || AnyOf(fs, Is("ADDON-001"))
               || AnyOf(fs, Is("ADDON-002"))
           || AnyOf(fs, WorkloadRule()) || AnyOf(fs, Is("WH-002"))
           || DisruptionProfile(fs).warning || FargateProfile(r).warning
           || NodegroupProfile(r, c).warning || AddonProfile(r).warning;
    assert (exists f :: f in fs && LiveRule(f.ruleID)) <==>
           || AnyOf(fs, Is("ADDON-001")) || AnyOf(fs, Is("ADDON-002")) || AnyOf(fs, WorkloadRule())
               || AnyOf(fs, Is("WH-002"));
  }
}
