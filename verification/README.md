# KubePreflight decision engine: a Dafny model

KubePreflight scans a Kubernetes cluster before an upgrade and turns what it finds into decisions:
what to fix next, whether to roll back, what changed since the last scan, whether CI may pass. That
engine is logic over data in memory. This project models it and proves the claims its comments and
documentation make for all inputs.

`dafny verify dfyconfig.toml` checks everything.

## Layout

| files | what they are about |
|---|---|
| `Orders`, `Text` | what `sort.Slice` leaves behind and when sorted lists are unique; Go's string operations |
| `Findings` | the finding schema, resource identity, fingerprints |
| `UnionFind` | the mutable forest with path compression, as a class over its parent map |
| `Grouping`, `GroupOrder`, `NextActions`, `Urgency` | groups of linked findings, their order, the code that builds them, the documented order read off the lists |
| `RollbackModel`, `Rollback`, `RollbackSignals`, `RollbackDecision`, `RollbackTheorems`, `RollbackEvidence` | nine checks, gates, readiness, decision, and the decision in raw fields |
| `Reports`, `Scorecard`, `ApiCompatibility`, `ScanReport`, `Coverage` | the report object, its two summaries, two notions of completeness |
| `CompareOrder`, `Comparison`, `ComparisonTheorems`, `CompareMeaning`, `BucketMeaning` | the diff of two reports, and what it records and lists over their fields |
| `Gate`, `GateTheorems` | the CI decision |
| `ApiCatalog`, `ApiLookup`, `CatalogMeaning` | the versioned API catalog |
| `CompatVersions`, `CompatCatalog`, `AddonMeaning` | add-on versions and their catalog |
| `Versions` | major.minor versions, upgrade paths, hops |
| `ShellCommand` | the recommended command and a POSIX word reader for it |

Methods follow the loops and assignments of the source and are proved against specification
functions or predicates; the theorems are lemmas about those. Sorting is modelled by one method whose
contract says only that the result is a permutation with no inverted neighbour, so every claim of
determinism comes from the comparator.

## Where the code and its words differ

Each of these is a lemma with the exact condition under which the claim does hold, and one at an
input where it fails; for the disruption findings the lemma says why the described case cannot occur.

- The list of Next Actions does not depend on input order, but two findings of a group with the same
  severity rank and rule ID tie for primary, and the first one wins
  (`GroupOrder.PrimaryIgnoresOrderIff`, `GroupOrder.TiedPairDependsOnOrder`).
- The scorecard is meant never to disagree with the exit code (internal/findings/report.go:498). It
  says "continue" for a complete scan whose only blockers come from rules its category
  table does not file (`Scorecard.UpgradeContinueIff`, `Scorecard.UnfiledBlockerContinues`).
- A rule record with an applicability value outside the two known ones that was not evaluated makes
  coverage read partial while the report counts as complete, and the gate then follows policy
  (`Coverage.CompletenessNotionsAgreeIff`, `GateTheorems.PartialIsNeutralIff`).
- The report ignores blanks around a version. The planner does not read a version with a leading
  blank, nor one with a trailing blank unless a second dot stands before it; the route then shown and
  the route planned differ exactly for upgrades with such a version (`Versions.HopsFollowUpgradePath`,
  `Versions.BlankHidesUpgrade`).
- The API catalog's comparator tests the texts of the lower bounds for equality before it compares
  their values, so with spellings such as "1.9" and "1.09" ties are not transitive
  (`ApiCatalog.TiesAreTransitiveIff`, `ApiCatalog.MixedDocument`). A document without collisions never
  mixes spellings (`ApiCatalog.MixedSpellingsCollide`), so it is accepted all the same; that a document
  which does mix them is refused rests on the sort leaving no neighbour inverted.
- The comment on the comparison's sort order (internal/comparison/sort.go:18-29) puts priority and
  severity into the order of the changed bucket; the code leaves severity at zero there and uses the
  priority only when it changed (`CompareOrder.OrderAlikeIff`, `CompareOrder.ChangedOrderIsDocumented`,
  `CompareOrder.UnchangedPrioritiesAreIgnored`).
- Fingerprinted findings are compared by joined texts. Impact scopes or resources that hold one of the
  separators can differ unnoticed (`CompareMeaning.SeparatorsHideScopes`); all others cannot
  (`CompareMeaning.ScopesAreTold`, `CompareMeaning.ResourcesAreTold`).
- Disruption findings are described as blocking when a planned operation confirms them, but the
  function that would collect that operation evidence (internal/rollback/operational.go:214-216)
  returns none, so they are never more than a warning (`Rollback.DisruptionCheck`,
  `RollbackSignals.DisruptionFailsIff`).
- An earlier readiness outside the known values reaches the result when every new check passes, and
  the result then fails validation (`RollbackTheorems.ResultValidatesIff`,
  `RollbackTheorems.UnlistedReadinessSurvives`). With such a readiness a finding can also move the
  decision toward the rollback: it brings fixing forward where a quiet report keeps a more cautious
  earlier decision (`RollbackTheorems.FindingsOnlyDeterIff`, `RollbackTheorems.FindingCanHelp`).

## Model

| member | source | states |
|---|---|---|
| UnionFind.NewKeyKeepsRoots | internal/report/view.go:563-567 | A key seen for the first time becomes its own root and no other root changes. |
| UnionFind.CompressionKeepsRoots | internal/report/view.go:568-571 | Path compression changes no key's root. |
| UnionFind.LinkMergesRoots | internal/report/view.go:574-579 | Linking one root under another moves exactly the keys of the first class to the second root. |
| UnionFind.SameRootIffConnected | internal/report/view.go:555-585 | Two keys share a root exactly when a path of unioned pairs connects them. |
| UnionFind.ResourceUnionFind.constructor | internal/report/view.go:559-561 | A new forest is valid and holds no key and no recorded pair. |
| UnionFind.ResourceUnionFind.Find | internal/report/view.go:563-572 | Terminates on every valid forest, returns the root, keeps every root, and keeps the forest acyclic and the recorded pairs unchanged. |
| UnionFind.ResourceUnionFind.Union | internal/report/view.go:574-579 | Merges exactly the two classes, keeps the forest acyclic, and records the pair. |
| UnionFind.ResourceUnionFind.UnionAll | internal/report/view.go:581-585 | Puts all keys of a list in one class by recording the star of pairs around the first key, and merges nothing else. |
| Grouping.LinkedIffKeysConnected | internal/report/view.go:258-286 | Two findings with keys are linked by a chain of findings, each sharing a key with the next, exactly when their first keys are connected through the pairs the code unions. |
| Grouping.GroupsAreClasses | internal/report/view.go:275-286 | In any grouping, two findings stand in the same group exactly when a chain links them (or they are the same keyless group). |
| Grouping.RuleIDsAreConserved | internal/report/view.go:275-336 | The rule IDs of all groups together are the multiset of the input's rule IDs: nothing lost, nothing twice. |
| GroupOrder.EqualTextsShareKey | internal/report/view.go:535-548 | Two groups of keyed findings with the same sort text share a resource key. |
| GroupOrder.DistinctGroupsDiffer | internal/report/view.go:288-303 | When every finding has a key, distinct groups have distinct order keys, so the group comparator is strict and total. |
| GroupOrder.OrderKeyOfMembers | internal/report/view.go:355-403 | The order key of a group depends on its members only, not on their order. |
| GroupOrder.GroupSequenceIsCanonical | internal/report/view.go:288-303 | Two runs over the same findings, in any input order and with any roots, list the same groups in the same places, provided no two groups compare equal. |
| GroupOrder.KeyedGroupsAreDistinct | internal/report/view.go:275-303 | When every finding has a resource, as validated findings do, no two groups compare equal. |
| GroupOrder.ActionIsCanonical | internal/report/view.go:305-336 | Two actions built from the same group in different orders agree on rule IDs, severity rank and primary rule. |
| GroupOrder.LedActionIsCanonical | internal/report/view.go:305-336 | A group in which one finding outranks all others gives the same action in every order, label, severity and primary included, up to the order of its related findings. |
| GroupOrder.PrimaryIgnoresOrderIff | internal/report/view.go:477-488 | The primary finding is independent of input order exactly when one member outranks all others by severity or else rule ID. |
| GroupOrder.TiedPairDependsOnOrder | internal/report/view.go:477-488 | Two different findings of one rule and severity tie, and the first one speaks. |
| NextActions.SortedPositions | internal/report/view.go:40-52 | All positions, each once, sorted pairwise by the one display order. |
| NextActions.DisplayOrderIsWeak | internal/report/view.go:448-462 | The display comparator never contradicts itself and its ties carry across a third finding. |
| NextActions.FindingIndex | internal/report/view.go:39-67 | The three buckets hold exactly the positions their conditions select, each once and in display order; a finding that is neither warning nor info and whose gate neither blocks nor asks an operator, such as a Blocker let through, lands in none. |
| NextActions.UnionKeys | internal/report/view.go:258-263 | After the first pass two findings with keys share a root exactly when a chain links them. |
| NextActions.UnionCarriers | internal/report/view.go:264-273 | The first-carrier pass is redundant: it changes no root. |
| NextActions.CollectGroups | internal/report/view.go:275-286 | Files every finding under its root (or its own ID when it has no key), in input order, and lists every group once. |
| NextActions.LeastRank | internal/report/view.go:355-403 | The smallest rank in the group, capped. |
| NextActions.SortText | internal/report/view.go:535-548 | The sorted distinct keys of the group, joined. |
| NextActions.SortGroups | internal/report/view.go:288-303 | A permutation of the group IDs in which no neighbour is inverted by the order keys. |
| NextActions.PrimaryPosition | internal/report/view.go:477-488 | The first finding that no other outranks by severity, then rule ID. |
| NextActions.BuildAction | internal/report/view.go:305-336 | Sorted rule IDs of the whole group (as a multiset), the primary finding, and exactly the related findings the code keeps. |
| NextActions.GroupFindings | internal/report/view.go:253-303 | The ordered groups are the linked classes of the input, in order. |
| NextActions.BuildNextActions | internal/report/view.go:253-337 | One action per linked class, in group order. |
| NextActions.ActionsCoverInput | internal/report/view.go:305-336 | The rule IDs of all actions together are the multiset of the input's rule IDs. |
| NextActions.ActionListIsCanonical | internal/report/view.go:253-337 | When every finding has a key, two runs over permuted inputs list the same rule IDs, severity ranks and primary rules in the same places, and the same actions, up to the order of related findings, for groups with a leader. |
| Urgency.ActionSpeaksFor | internal/report/view.go:477-488 | An action is a Blocker exactly when its group holds one and a Warning exactly when it holds one and no Blocker; of the findings of that severity the one with the smallest rule ID speaks. |
| Urgency.RelatedMeans | internal/report/view.go:318-325 | An action carries along exactly the findings of its group whose rule and whose remediation both differ from its primary's. |
| Urgency.DisplayOrderMeans | internal/report/view.go:405-462 | Whatever stands first has no lower priority (P1, P2, P3, P4, anything else), at equal priority no lower severity (Blocker, Warning, the rest), then no lower confidence tier, then the smaller rule ID and label. |
| Urgency.DisplayedInOrder | internal/report/view.go:39-67 | A list of positions in display order, such as the index and each of its buckets, stands in that documented order throughout. |
| Urgency.BucketConditionsMean | internal/report/view.go:39-67 | Which findings the warning and the information bucket select, over gate, severity and the global-blocker mark. |
| Urgency.GroupOrderMeans | internal/report/view.go:355-403 | A group may stand before another when its best priority is no lower, at equal best priority its best severity, then its best confidence tier. |
| Urgency.GroupsByUrgency | internal/report/view.go:288-303 | In every action list a group with a P1 finding never stands after a group without one, likewise P2 and P3, and at equal best priority likewise Blockers and Warnings. |
| Findings.UniqueKeys | internal/report/view.go:630-646 | The distinct identity keys of a list of references, no more and no fewer, without duplicates. |
| Findings.FingerprintV2 | internal/findings/finding.go:296-313 | The digest of rule, target, discriminator and the sorted list of distinct resource keys. |
| Findings.KeyListsAgreeIffSubjectsDo | internal/findings/finding.go:296-313 | Two reference lists give the same sorted key list exactly when they are about the same set of subjects. |
| Findings.FingerprintIdentifiesSubjects | internal/findings/finding.go:296-313 | Two fingerprints are equal exactly when rule, target, discriminator and the set of subjects are equal: order, repetition and plane spelling do not matter. |
| Findings.CrossPlaneSubjects | internal/findings/finding.go:135-162 | A live object and a manifest are one subject exactly when both name a kind, a name and the namespace their scope needs, and all three agree. |
| Findings.CloudSubjects | internal/findings/finding.go:135-162 | Two references to the cloud provider are one subject exactly when they carry one provider ID and are two full upgrade insights of one category and version, two resources of one kind, or neither. |
| Findings.GateMeans | internal/findings/context.go:91-99 | What blocks, waits for an operator and is let through: an explicit gate as it is, otherwise a Blocker or a global blocker blocks. |
| Rollback.ApplyFindingSignals | internal/rollback/operational.go:809-825 | Raises the check by the signal of every matching finding, in order. |
| Rollback.NodegroupRollbackCheck | internal/rollback/operational.go:47-78 | The managed node group check is the pass check raised by the gates, then by each node group when the gates are open. |
| Rollback.SelfManagedNodeEvidenceCheck | internal/rollback/operational.go:80-94 | Unknown exactly when the Kubernetes plane is not complete. |
| Rollback.FargateEvidenceCheck | internal/rollback/operational.go:96-120 | Unknown for incomplete AWS evidence of an EKS scan, warning for FARGATE findings. |
| Rollback.ManagedAddonCheck | internal/rollback/operational.go:122-150 | Raised by the gates, the add-on inventory and the add-on findings. |
| Rollback.SelfManagedAddonCheck | internal/rollback/operational.go:152-166 | Raised by the gates and ADDON-002 findings. |
| Rollback.WorkloadHealthCheck | internal/rollback/operational.go:168-182 | Raised by the gates and workload findings. |
| Rollback.DisruptionCheck | internal/rollback/operational.go:184-233 | Raised by the gates and every routed PDB or DRAIN finding; without operation evidence it never fails. |
| Rollback.ReverseCompatibilityCheck | internal/rollback/operational.go:292-395 | API findings are gated by target and freshness, live webhook findings by provenance, CRD and webhook findings by both. |
| Rollback.CoverageCheck | internal/rollback/operational.go:786-807 | Unknown exactly when some plane is partial. |
| Rollback.ReadinessFromChecks | internal/rollback/operational.go:842-865 | The counts of failing, warning and unknown checks and the status they imply. |
| Rollback.HasUnknownCheck | internal/rollback/operational.go:920-927 | True exactly when some check is unknown. |
| Rollback.ApplyOperationalReadiness | internal/rollback/operational.go:11-45 | Appends the nine checks (or the one for a missing report), combines the readiness with the earlier one and keeps evidence complete only when nothing is unknown. |
| Rollback.RecommendationReasons | internal/rollback/recommendation.go:50-63 | The reasons of eligibility, earlier recommendation and checks, each once, in order. |
| Rollback.ApplyRecommendation | internal/rollback/recommendation.go:5-48 | A refusal decides alone and with high confidence; short of that a gap in the evidence calls the operator; short of both the risk decides. Exactly the reasons given so far are cited, each once, and nothing but the recommendation changes; an unlisted readiness leaves all as it was. |
| Rollback.RecommendationCites | internal/rollback/recommendation.go:50-63 | A reason is cited exactly when eligibility, the earlier recommendation or some check gives it. |
| Rollback.ReasonsAreDistinct | internal/rollback/recommendation.go:50-63 | No reason is cited twice. |
| RollbackSignals.StatusIsWorstSignal | internal/rollback/operational.go:891-909 | The status of a raised check is its worst signal, whatever the order: fail, then unknown, then warning. |
| RollbackSignals.DisruptionFailsIff | internal/rollback/operational.go:218-270 | With operation evidence a disruption finding is a fail exactly when it is a routed Blocker whose activation the evidence confirms; the evidence the code collects confirms none. |
| RollbackDecision.FailIsHardStop | internal/rollback/operational.go:11-45 | The nine checks together hold a fail signal exactly when some Blocker finding is of a rule that stops the rollback under the open gates. |
| RollbackDecision.UnknownIsDoubt | internal/rollback/operational.go:11-45 | They hold an unknown signal exactly when the scan is of another cluster or stale, some plane is incomplete, some inventory entry is unverified, or API, CRD or webhook findings are for another target. |
| RollbackDecision.WarningIsRisk | internal/rollback/operational.go:11-45 | Without a hard stop or doubt they hold a warning signal exactly when a listed finding or inventory entry is present. |
| RollbackTheorems.NewChecksSay | internal/rollback/operational.go:11-45 | Some new check fails exactly when there is a hard stop; short of that some check is unknown exactly when there is doubt (always without a report); short of both some check warns exactly when there is risk; all pass exactly when there is none of the three. |
| RollbackTheorems.ReadinessIsHomomorphism | internal/rollback/operational.go:842-889 | The readiness of two concatenated check lists is the combination of their readiness values, counts and status alike. |
| RollbackTheorems.CombiningIsAssociative | internal/rollback/operational.go:867-889 | Combining readiness values of check lists is associative, with the empty list as identity. |
| RollbackTheorems.DecisionTable | internal/rollback/recommendation.go:5-48 | For every assessment and every report the decision is read off the raw inputs: refusal, gap, risk, then the earlier decision for an unlisted readiness and the rollback otherwise. |
| RollbackTheorems.RollbackPreferredIff | internal/rollback/recommendation.go:8-45 | For every assessment: rollback is preferred exactly when eligibility is neither denied nor unknown, evidence was complete, a report exists, all nine checks pass, and the earlier readiness is absent or ready, or unlisted with the rollback preferred already. |
| RollbackTheorems.ValidGoIff | internal/rollback/model.go:210-265 | A document that passes validation prefers the rollback exactly when the cluster is eligible, readiness was absent or ready, evidence was complete, a report exists and all nine checks pass. |
| RollbackTheorems.FindingsOnlyDeterIff | internal/rollback/operational.go:11-45 | For every assessment: adding findings, on any report and anywhere in it, never moves the decision toward rollback exactly when the earlier readiness is listed, or eligibility or evidence decides before it, or the earlier decision is no more cautious than fixing forward. |
| RollbackTheorems.FindingCanHelp | internal/rollback/recommendation.go:8-45 | With an unlisted readiness and a more cautious earlier decision, a quiet report leaves that decision and one disruption warning turns it into fixing forward. |
| RollbackTheorems.DecisionIgnoresFindingOrder | internal/rollback/operational.go:11-45 | Permuting or repeating findings never changes the decision. |
| RollbackTheorems.ResultValidatesIff | internal/rollback/model.go:210-265 | The produced assessment passes validation exactly when its inputs are valid and an unrecognised prior readiness, if any, was overruled by a check that does not pass. |
| RollbackTheorems.UnlistedReadinessSurvives | internal/rollback/model.go:210-265 | Valid inputs with an unlisted earlier readiness and a report without anything to object to give a document that fails validation. |
| RollbackEvidence.IdentityGateMeans | internal/rollback/operational.go:567-613 | The identity gate is open exactly for a report of no cluster or of the same name and region, and which reason shuts it when. |
| RollbackEvidence.FreshnessGateMeans | internal/rollback/operational.go:703-759 | The freshness gate is open exactly for a report of no cluster or a scan at most 24 hours old and at most five minutes ahead of the assessment, in nanoseconds, and which reason shuts it when. |
| RollbackEvidence.TargetGateMeans | internal/rollback/operational.go:401-426 | The target gate is open exactly when both versions parse to the same major and minor, and which reason shuts it when. |
| RollbackEvidence.ProvenanceMeans | internal/rollback/operational.go:515-523 | Identity and freshness are both open exactly for a report of no cluster, or of the same cluster with a fresh scan. |
| RollbackEvidence.GoInRawFields | internal/rollback/operational.go:11-45 | The rollback is preferred exactly when the earlier assessment has nothing against it and the report is clear, in fields, names and nanoseconds, without mentioning a gate. |
| RollbackEvidence.RefusalInRawFields | internal/rollback/operational.go:11-45 | For every listed or missing earlier readiness: exactly when the rollback is refused and exactly when an operator must decide, over findings, names, times, versions and planes. |
| RollbackEvidence.DisruptionMeans | internal/rollback/operational.go:218-268 | Which disruption findings would fail the check under which operation evidence, by rule and impact scope, and which findings make it speak at all. |
| RollbackEvidence.ValidatesMeans | internal/rollback/model.go:210-302 | A valid document, value by value. |
| RollbackEvidence.GateReasonsCited | internal/rollback/operational.go:11-45 | When each of the six gate reasons is cited by the checks: exactly when its gate is shut for that reason and, for the target, the report holds findings that ask for it. |
| Scorecard.FillCategories | internal/findings/report.go:592-626 | Each category holds exactly the blockers, warnings and distinct rule IDs filed under it. |
| Scorecard.AnyOperatorDecision | internal/findings/report.go:650-661 | True exactly when some finding asks for an operator decision. |
| Scorecard.BuildSummary | internal/findings/report.go:592-648 | The categories in display order, the score and the continue flag, for any table of rule categories. |
| Scorecard.ScoreInRange | internal/findings/report.go:592-648 | The score stays within 0 and 100. |
| Scorecard.FindingsNeverRaiseScore | internal/findings/report.go:663-679 | A larger bag of findings never scores higher. |
| Scorecard.SummaryIgnoresOrder | internal/findings/report.go:592-648 | The whole scorecard is unchanged by permuting the findings. |
| Scorecard.CategoryBlockersSum | internal/findings/report.go:592-648 | When every rule is filed, the category blocker counts sum to the blockers of the report. |
| Scorecard.UpgradeContinueIff | internal/findings/report.go:640-688 | "Continue" is said exactly when it is true, except for a complete scan without operator decisions all of whose blockers come from unfiled rules. |
| Scorecard.UnfiledBlockerContinues | internal/findings/report.go:640-688 | One Blocker of an unfiled rule: the verdict is BLOCKED and the scorecard says continue. |
| Scorecard.CategoryMeans | internal/findings/report.go:592-638 | A category fails exactly when a finding filed under it blocks, and passes exactly when all of them neither block, wait for an operator nor warn. |
| Scorecard.OneCategoryScores | internal/findings/report.go:663-679 | The score when one category alone has something to say: 85 for one blocker, 3 less for each further one down to 75, 95 for one warning, 1 less for each further one down to 90. |
| Scorecard.PerfectScoreIff | internal/findings/report.go:592-679 | The score is 100 exactly when no finding of a filed rule blocks, waits for an operator or warns. |
| ApiCompatibility.AddFamily | internal/findings/report.go:417-432 | One more finding is counted in its family and its resources are listed once; every other family stays as it was. |
| ApiCompatibility.SortedFamilies | internal/findings/report.go:434-447 | Whatever order the map is walked in: every family once, sorted by API version and kind, with sorted resources. |
| ApiCompatibility.BuildAPISummary | internal/findings/report.go:359-401 | Objects counted by kind, status and continue flag by those counts, critical impact exactly when a removed object has it, the two family lists and the score impact. |
| ApiCompatibility.ImpactInRange | internal/findings/report.go:461-477 | The score impact stays within -60 and 0 and is 0 exactly when the status is passed. |
| ApiCompatibility.FamiliesConserveObjects | internal/findings/report.go:417-447 | The family counts add up to the objects. |
| ApiCompatibility.APISummaryIgnoresOrder | internal/findings/report.go:359-401 | The whole summary is a function of the findings as a bag. |
| ApiCompatibility.HasCrossPlaneMatch | internal/findings/report.go:832-850 | True exactly when a live object and a manifest among the references are about one concept. |
| ApiCompatibility.APIVersionMeans | internal/findings/report.go:403-415 | The version of a finding is what follows "apiVersion: " on the first line of evidence that has it, trimmed. |
| ApiCompatibility.ObjectMeans | internal/findings/report.go:367-391 | A finding is a removed object exactly when it is an API-001 Blocker, a deprecated one exactly when it is of API-002 or an API-001 Warning, provided it names a version or a kind. |
| ApiCompatibility.SummaryCounts | internal/findings/report.go:359-395 | The counts and the critical impact over rule IDs, severities and scopes of the findings. |
| ApiCompatibility.ImpactSteps | internal/findings/report.go:461-477 | The first removed family costs 25, each further one 10, critical impact 15, a deprecated family 5, and never more than 60 in all. |
| ApiCompatibility.LabelReadsBack | internal/findings/report.go:425-430 | A label splits back into kind, namespace and name. |
| ScanReport.PriorityKeepsGate | internal/findings/priority.go:191-219 | Assigning a priority keeps the effective gate, severity and fingerprint, is idempotent, and never lets an upgrade continue past a blocker. |
| ScanReport.AssignedPriorityMeans | internal/findings/priority.go:191-219 | When a finding gets which priority and scope: a global blocker P1, a recommended add-on upgrade P4, critical infrastructure at least P2 except for NODE-003, the default of the rule otherwise. |
| ScanReport.PrioritizeAll | internal/findings/report.go:280-306 | Every finding is prioritised in place. |
| ScanReport.Summarize | internal/findings/report.go:308-328 | The four counts, over the effective gate and the severity. |
| ScanReport.SummaryMeans | internal/findings/report.go:308-328 | The four counts over gates and severities: a Blocker that an explicit gate lets through counts as a warning, and a warning that blocks counts twice. |
| ScanReport.AnyCrossPlane | internal/findings/report.go:308-311 | True exactly when some finding was seen on two planes. |
| ScanReport.NormalizingIsIdempotent | internal/comparison/normalize.go:142-174 | Backfilling twice is backfilling once, and never changes the verdict. |
| ScanReport.SilenceIsNotEvaluated | internal/comparison/normalize.go:142-174 | One record per rule of the universe, evaluated exactly when the document holds a finding of that rule. |
| ScanReport.FillPriorities | internal/comparison/normalize.go:42-46 | Exactly the missing priorities are filled in. |
| ScanReport.Report.New | internal/findings/report.go:280-340 | A new report carries prioritised findings, their counts, the API summary, the cross-plane assumption exactly when some finding was seen on two planes, placeholder coverage and a scorecard consistent with its verdict. |
| ScanReport.Report.SetCoverage | internal/findings/report.go:354-357 | Replaces the coverage, rebuilds the scorecard for the new verdict, changes nothing else. |
| ScanReport.Report.NormalizeRuleExecutions | internal/comparison/normalize.go:142-174 | Backfills the records of a document that has none and leaves every other document alone. |
| ScanReport.Report.Normalize | internal/comparison/normalize.go:33-58 | Fills missing priorities, a missing API summary, a missing scorecard and missing records; what was there is kept. |
| ScanReport.ScorecardAgreesWithReport | internal/findings/report.go:354-357 | For a report with all rules filed the scorecard's blockers sum to the report's and "continue" holds exactly when the report is complete, without blockers and without operator decisions, under whatever coverage. |
| ScanReport.VerdictMeans | internal/findings/report.go:860-885 | The four verdicts and exit codes over the findings: CLEAN and 0 exactly for a complete report in which nothing blocks, waits for an operator or counts as a warning; and likewise for the other three. |
| ScanReport.CompleteMeans | internal/findings/report.go:887-901 | A report is complete exactly when no plane came back partial and, unless its records were backfilled, every applicable rule was evaluated. |
| Coverage.BuildEvaluationCoverage | internal/report/evaluation_coverage.go:202-257 | The five counts and the status, which backfilled data can never turn into complete. |
| Coverage.CountsCoverAllRules | internal/report/evaluation_coverage.go:212-231 | Every record falls under exactly one of the five counts. |
| Coverage.BuildOverallCoverage | internal/report/evaluation_coverage.go:317-349 | Rule coverage joined with the planes that came back partial, by the documented precedence. |
| Coverage.OverallStatusIs | internal/report/evaluation_coverage.go:317-349 | The combined status read off the report: unavailable, backfilled, partial when some plane or record has a gap, complete otherwise. |
| Coverage.DegradedMeans | internal/report/evaluation_coverage.go:330-341 | The partial planes by name, in the order Kubernetes, AWS, Manifests. |
| Coverage.CompletenessNotionsAgreeIff | internal/findings/report.go:887-901 | Overall coverage is complete exactly when the report is complete, native and has records, except for a report that calls itself complete while a record of unknown applicability was not evaluated. |
| Coverage.StrayGapDisagrees | internal/report/evaluation_coverage.go:212-231 | A concrete report on which the two notions differ. |
| CompareOrder.DiffFindingIs | internal/comparison/compare.go:165-199 | The recorded changes are exactly the tracked fields in which the two findings differ, with their values before and after. |
| CompareOrder.DiffIsUnique | internal/comparison/compare.go:165-199 | Nothing else meets that description. |
| CompareOrder.SortKeyLaws | internal/comparison/sort.go:98-115 | The bucket key order is strict, total and transitive. |
| CompareOrder.BucketOrdersAreTotal | internal/comparison/sort.go:30-45 | On findings told apart by fingerprint both bucket comparators are strict total orders. |
| CompareOrder.ChangedOrderIsTotal | internal/comparison/sort.go:72-85 | The comparator of the changed bucket is a strict total order on changes told apart by fingerprint. |
| CompareOrder.ChangedKeyIs | internal/comparison/sort.go:72-85 | A changed entry sorts like its current finding with severity left out and the priority shown only when it changed. |
| CompareOrder.OrderAlikeIff | internal/comparison/sort.go:98-115 | Two pairs of keys order all entries alike, whatever stands behind priority and severity, exactly when those heads are ordered alike: the same one first in both, or a tie in both. |
| CompareOrder.ChangedOrderIsDocumented | internal/comparison/sort.go:18-29 | Two changed entries stand in the documented order whenever their heads are ordered like the priorities shown. |
| CompareOrder.UnchangedPrioritiesAreIgnored | internal/comparison/sort.go:72-85 | Of two entries whose severities changed and priorities did not, a P4 one with the smaller rule ID comes before a P1 one; the documented order says the opposite. |
| CompareMeaning.ScopesAreTold | internal/comparison/compare.go:242-248 | The joined scopes tell scope lists apart, order and repetition included, when no scope holds a semicolon. |
| CompareMeaning.SeparatorsHideScopes | internal/comparison/compare.go:242-248 | With a semicolon inside a scope they do not: one scope "a;b" reads like two. |
| CompareMeaning.ResourcesAreTold | internal/comparison/compare.go:201-207 | The joined resources tell lists of plane, kind, namespace and name apart, when no part holds the separator after it. |
| CompareMeaning.RecordedChange | internal/comparison/compare.go:165-199 | Which tracked fields a comparison records for two findings, and with which values before and after. |
| CompareMeaning.UnchangedMeans | internal/comparison/compare.go:64-80 | A finding of both reports is unchanged exactly when severity, priority, confidence, continue flag, effective gate, impact scopes, affected scope, rule ID and objects are equal, and changed exactly when they are not. |
| BucketMeaning.ProofMeans | internal/comparison/compare.go:112-146 | A rule is proven evaluated exactly when its last record says applicable and evaluated. |
| BucketMeaning.BucketsMean | internal/comparison/compare.go:64-98 | Over the findings of the two reports: what is new, what is resolved and what was not re-evaluated. |
| BucketMeaning.EntryOrderMeans | internal/comparison/sort.go:60-115 | Entries stand by priority (a missing one as "P9"), severity, rule ID, namespace and name of the first resource, fingerprint: the first difference decides. |
| BucketMeaning.BucketsStandInOrder | internal/comparison/sort.go:30-58 | New, resolved and not re-evaluated findings stand with the blocking ones first, each half in that order; unchanged ones stand in that order. |
| BucketMeaning.ChangedOrderMeans | internal/comparison/sort.go:72-89 | Changed entries stand by the current priority when it changed and as if they had none when it did not, then by subject, never by severity. |
| BucketMeaning.WarningsAndScoreMean | internal/comparison/compare.go:53-62 | Which warnings a comparison carries, and its score change with and without the two scorecards. |
| CompareOrder.SortBucket | internal/comparison/sort.go:30-36 | A sorted bucket with the same members, each once. |
| CompareOrder.SortChanges | internal/comparison/sort.go:30-36 | The same for changed entries. |
| Comparison.IndexByFingerprint | internal/comparison/compare.go:148-160 | Succeeds exactly when every finding has a fingerprint and no two share one; otherwise names the first offender. |
| Comparison.IndexIgnoresOrder | internal/comparison/compare.go:148-160 | The index depends on the findings as a bag. |
| Comparison.IndexRuleExecutions | internal/comparison/compare.go:112-118 | The records by rule, a later record replacing an earlier one. |
| Comparison.CurrentBuckets | internal/comparison/compare.go:64-80 | Whatever order the map is walked in, the new, changed and unchanged buckets hold exactly their entries, each once. |
| Comparison.BaselineBuckets | internal/comparison/compare.go:85-95 | Resolved holds exactly the gone findings whose rule is proven evaluated, not re-evaluated the others. |
| Comparison.SortBuckets | internal/comparison/sort.go:30-36 | Sorting keeps the content of every bucket. |
| Comparison.BucketsAreUnique | internal/comparison/sort.go:18-29 | Two sorted sets of buckets for the same inputs are identical. |
| Comparison.BuildComparisonSummary | internal/comparison/compare.go:209-240 | Verdicts, scores, counts and blocker counts of the buckets. |
| Comparison.Compare | internal/comparison/compare.go:27-99 | Fails exactly on unidentifiable findings; otherwise warnings, sorted buckets and summary are the ones the two reports determine. |
| ComparisonTheorems.CompareIsDeterministic | internal/comparison/compare.go:64-99 | Permuting either input list, and any map iteration order, gives the identical comparison. |
| ComparisonTheorems.BucketsPartition | internal/comparison/compare.go:64-95 | New, changed and unchanged partition the current fingerprints; resolved, not re-evaluated, changed and unchanged partition the baseline's. |
| ComparisonTheorems.SummaryConservesFindings | internal/comparison/compare.go:209-220 | The counts of a comparison add up to the findings of either report. |
| ComparisonTheorems.SwapMirrors | internal/comparison/compare.go:64-95 | Swapping the inputs exchanges new with resolved and not re-evaluated, keeps unchanged, and reads every change backwards. |
| ComparisonTheorems.SwapKeepsCounts | internal/comparison/compare.go:209-220 | And keeps the counts accordingly. |
| ComparisonTheorems.SelfComparison | internal/comparison/compare.go:64-99 | A report compared with itself is unchanged throughout, without warnings. |
| ComparisonTheorems.LookupIsLastRecord | internal/comparison/compare.go:112-118 | The lookup returns the last record of a rule, and nothing for a rule without one. |
| ComparisonTheorems.LegacyResolvedIff | internal/comparison/compare.go:140-146 | Against a backfilled report a missing finding is resolved exactly when its rule is in the universe and the report still holds a finding of that rule. |
| Gate.CountSeverity | internal/gate/evaluate.go:88-96 | The number of entries of one severity. |
| Gate.BuildEvaluationPresentation | internal/gate/evaluate.go:117-140 | The combined status, rule counts, degraded planes and the advisories, each shown exactly when it applies. |
| Gate.CollectReasons | internal/gate/evaluate.go:58-77 | Every objection of the policy, once, in the fixed order. |
| Gate.Evaluate | internal/gate/evaluate.go:29-86 | Neutral exactly when evidence is lacking; otherwise fails exactly when the policy objects and cites every objection. |
| GateTheorems.NewWarningsAreCounted | internal/gate/evaluate.go:62-70 | New warnings never exceed the warnings the current report counts. |
| GateTheorems.StricterPoliciesFailMore | internal/gate/evaluate.go:58-85 | Whatever a policy fails, every stricter policy fails; in particular fail_on_new implies fail_on_any. |
| GateTheorems.FindingIsAccountedFor | internal/comparison/compare.go:64-80 | Every current finding is new, recorded as changed in gate or severity, or matched in both by the baseline. |
| GateTheorems.RegressionHasWitness | internal/gate/evaluate.go:71-100 | Whenever the exit code of a complete report rises, a new finding or a recorded severity or gate change is the witness; when BLOCKED, a new blocker or a gate change. |
| GateTheorems.DefaultPassIff | internal/gate/evaluate.go:52-85 | The default policy passes exactly when both scans are complete and comparable, every blocking finding was in the baseline, a BLOCKED verdict was BLOCKED and a CLEAN baseline is still CLEAN, and the score did not fall. |
| GateTheorems.RegressionIsExitCodeRise | internal/gate/evaluate.go:71-74 | For two complete reports a policy that fails on verdict regression objects exactly when the exit code rises. |
| GateTheorems.ReasonsAre | internal/gate/evaluate.go:58-85 | For every policy and two complete, comparable scans: exactly which reasons are cited, in which order, over findings, exit codes and scores; the gate fails exactly when there is one. |
| GateTheorems.NewBlockersIff | internal/comparison/compare.go:230-234 | No new blocker is counted exactly when every blocking finding was already in the baseline. |
| GateTheorems.SelfComparisonPasses | internal/gate/evaluate.go:52-85 | A complete report compared with itself passes the default policy, and exactly which other policies. |
| GateTheorems.PartialIsNeutralIff | internal/gate/evaluate.go:43-56 | A result whose coverage reads partial is neutral under every policy unless its only gaps are records of unknown applicability. |
| GateTheorems.StrayGapPasses | internal/gate/evaluate.go:117-140 | Such a report does read partial and pass. |
| ApiCatalog.ValidVersionParses | internal/apicatalog/versioned_catalog.go:370-384 | A version the pattern accepts parses to its digits and panics exactly when they exceed 64 bits. |
| ApiCatalog.OverlapIff | internal/apicatalog/versioned_catalog.go:344-350 | Two usable ranges overlap exactly when some version lies in both. |
| ApiCatalog.EntryBeforeIsPartialOrder | internal/apicatalog/versioned_catalog.go:222-236 | The comparator is irreflexive, asymmetric and transitive for all spellings. |
| ApiCatalog.TiesAreTransitiveIff | internal/apicatalog/versioned_catalog.go:222-236 | Ties of the comparator are transitive exactly when no API spells one lower bound in two ways and gives one spelling two upper bounds. |
| ApiCatalog.MixedSpellingsBreakTheOrder | internal/apicatalog/versioned_catalog.go:222-236 | Valid entries on which ties are not transitive. |
| ApiCatalog.MixedDocument | internal/apicatalog/versioned_catalog.go:222-236 | A literal document of three valid entries that does so. |
| ApiCatalog.MixedSpellingsCollide | internal/apicatalog/versioned_catalog.go:222-249 | Entries that mix spellings always collide, so a list without collisions never mixes them. |
| ApiCatalog.UnmixedOrderIsWeak | internal/apicatalog/versioned_catalog.go:222-236 | On entries that do not mix spellings the comparator is the weak order a sort asks for. |
| ApiCatalog.NineHasTwoSpellings | internal/apicatalog/versioned_catalog.go:340-384 | "1.9" and "1.09" are valid, different texts of one number, so such entries exist. |
| ApiCatalog.NeighbourCheckSuffices | internal/apicatalog/versioned_catalog.go:238-249 | On a sorted list no neighbours collide exactly when no two entries collide anywhere. |
| ApiCatalog.CatalogOrderIsTotal | internal/apicatalog/versioned_catalog.go:222-236 | On the entries of a catalog the comparator is a strict total order. |
| CatalogMeaning.VersionMeans | internal/apicatalog/versioned_catalog.go:340-384 | The pattern accepts exactly "1." and a numeral, and reads it as that number unless it exceeds 64 bits. |
| CatalogMeaning.APIVersionMeans | internal/apicatalog/versioned_catalog.go:71 | An API version is "v", a numeral, and possibly "alpha" or "beta" with a numeral. |
| CatalogMeaning.NamedProblemIsReal | internal/apicatalog/versioned_catalog.go:253-309 | The problem an entry is refused for is one it has. |
| CatalogMeaning.AcceptedIff | internal/apicatalog/versioned_catalog.go:253-309 | An entry is accepted exactly when none of the fourteen problems, stated over its texts and numbers, is present. |
| CatalogMeaning.RangeMeans | internal/apicatalog/versioned_catalog.go:344-350 | A target lies in a range exactly when its minor lies between the two numbers. |
| CatalogMeaning.CatalogReadsUpward | internal/apicatalog/versioned_catalog.go:222-249 | In a catalog entries stand by group, version and kind, and of one API each range ends before the next one starts. |
| ApiLookup.NormalizeAll | internal/apicatalog/versioned_catalog.go:213-221 | Succeeds exactly when every entry is valid; otherwise the first bad entry is named. |
| ApiLookup.FindsOverlap | internal/apicatalog/versioned_catalog.go:238-249 | The scan finds an overlap exactly when neighbours collide. |
| ApiLookup.SortAndCheck | internal/apicatalog/versioned_catalog.go:222-250 | Accepts exactly the lists without two colliding entries, and returns them sorted. |
| ApiLookup.NewCatalog | internal/apicatalog/versioned_catalog.go:96-109 | Accepts a document exactly when schema, every entry, the whole list and the build range are valid; the errors come in the order of the checks. |
| ApiLookup.New | internal/apicatalog/versioned_catalog.go:96-109 | The same for the catalog's own normalisation. |
| ApiLookup.NormalizingSettles | internal/apicatalog/versioned_catalog.go:253-309 | Normalised entries have usable ranges and are unchanged by normalising again. |
| ApiLookup.CatalogIgnoresOrder | internal/apicatalog/versioned_catalog.go:213-251 | The order of a document's entries affects neither acceptance nor the catalog. |
| ApiLookup.ReloadIsIdentity | internal/apicatalog/versioned_catalog.go:96-109 | Loading an accepted catalog again gives the same catalog. |
| ApiLookup.AtMostOneServes | internal/apicatalog/versioned_catalog.go:203-210 | At most one entry matches an API and a target. |
| ApiLookup.Lookup | internal/apicatalog/versioned_catalog.go:191-211 | Returns an entry exactly when it is the one that serves the API at the target; panics exactly for a target beyond 64 bits of a known API. |
| ApiLookup.EntryFor | internal/apicatalog/versioned_catalog.go:176-189 | Finds an entry exactly when the API is known, and then the one whose range starts first. |
| ApiLookup.SupportIsAnInterval | internal/apicatalog/versioned_catalog.go:129-138 | Every readable target between two supported ones is supported. |
| ApiLookup.BoundsAreSupported | internal/apicatalog/versioned_catalog.go:129-138 | The bounds of the build range are themselves supported. |
| ApiLookup.PatchIsIgnored | internal/apicatalog/versioned_catalog.go:327-338 | A patch release is looked up like its minor, whatever the patch text. |
| CatalogMeaning.TargetMeans | internal/apicatalog/versioned_catalog.go:327-338 | A target is read as a minor exactly when its trimmed text is that minor or continues it with a dot. |
| CatalogMeaning.KeyMeans | internal/apicatalog/versioned_catalog.go:311-325 | An API is asked for without regard to outer blanks, and to case in group and version but not in the kind. |
| CatalogMeaning.EntriesAreServed | internal/apicatalog/versioned_catalog.go:191-211 | Every entry of an accepted document is what a lookup returns for its own spelling at every minor of its range. |
| CompatVersions.VersionTokens | internal/compatcatalog/catalog.go:502-513 | The tokens of the normalised text, numbers padded, over-long digit runs kept as words. |
| CompatVersions.EqualLengthOrder | internal/compatcatalog/catalog.go:506-507 | Digit strings of one length sort like their values. |
| CompatVersions.PaddingKeepsOrder | internal/compatcatalog/catalog.go:506-507 | Padding to twenty digits makes string order numeric order for every number that fits 64 bits. |
| CompatVersions.TokensOrderLikeParts | internal/compatcatalog/catalog.go:471-485 | One round of the loop orders words before numbers, words by text, numbers by value. |
| CompatVersions.CompareVersions | internal/compatcatalog/catalog.go:457-488 | The lexicographic order on the parts of the two versions, a proper prefix first. |
| CompatVersions.VersionOrderIsTotalPreorder | internal/compatcatalog/catalog.go:457-488 | A total preorder: sign flips when the arguments swap, transitive, zero exactly for equal parts. |
| CompatVersions.FirstDifferenceMeans | internal/compatcatalog/catalog.go:457-488 | Two versions whose parts first differ in a word and a number, two numbers or two words are ordered word before number, by value and by text. |
| CompatVersions.CandidateStandsBetween | internal/compatcatalog/catalog.go:457-488 | For every lower-case version, letter run and number that fits 64 bits: the version, the version with "-" and the letters, and the version with "." and the number stand in that order. |
| CompatVersions.ComparedAsWritten | internal/compatcatalog/catalog.go:502-513 | A lower-case version without outer blanks is compared by the tokens of its own text. |
| CompatVersions.ExtensionIsNewer | internal/compatcatalog/catalog.go:457-488 | A part list that extends another counts as newer. |
| CompatVersions.MatchesAcrossSeam | internal/compatcatalog/catalog.go:502-513 | Where no token runs across the seam, the tokens of a text are those of its halves. |
| CompatVersions.SuffixIsNewer | internal/compatcatalog/catalog.go:457-488 | A version followed by a suffix that starts a new token has the parts of both, never counts as older, and counts as newer exactly when the suffix holds a token. |
| CompatCatalog.InstalledStatus | internal/compatcatalog/catalog.go:292-303 | Unknown exactly without a version; incompatible exactly below the minimum; and, for an entry whose minimum is not above its recommended version, compatible exactly from the recommended version on. |
| CompatCatalog.StatusIs | internal/compatcatalog/catalog.go:292-303 | For a validated entry the judgements divide the version line at the minimum and the recommended version. |
| CompatCatalog.StatusIsMonotone | internal/compatcatalog/catalog.go:292-303 | Upgrading an add-on never makes an entry judge it worse. |
| CompatCatalog.NormalizeImpacts | internal/compatcatalog/catalog.go:395-409 | The trimmed, lower-cased impacts in sorted order, "unknown" for a missing list or a blank item. |
| CompatCatalog.ValidateImpacts | internal/compatcatalog/catalog.go:411-429 | The first problem of an impact list, if any. |
| CompatCatalog.ImpactsAreFineIff | internal/compatcatalog/catalog.go:395-429 | Impacts are accepted exactly when each is supported, none is repeated and "unknown" stands alone, whatever their order and spelling. |
| CompatCatalog.NormalizeAll | internal/compatcatalog/catalog.go:314-328 | Succeeds exactly when every entry is valid and no two share a key; otherwise the first offender is named. |
| CompatCatalog.SortEntries | internal/compatcatalog/catalog.go:329-338 | The same entries sorted by key. |
| CompatCatalog.NewCatalog | internal/compatcatalog/catalog.go:155-168 | Accepts a document exactly when the schema is known, every entry is valid and no two share a key; index and list hold the same entries. |
| CompatCatalog.New | internal/compatcatalog/catalog.go:155-168 | The same for the catalog's own normalisation. |
| CompatCatalog.LookupIff | internal/compatcatalog/catalog.go:179-185 | A lookup returns an entry exactly when the catalog lists it under that key. |
| CompatCatalog.AcceptedEntriesAreFound | internal/compatcatalog/catalog.go:342-393 | Every entry of an accepted document is found under its own spelling, in normal form, with minimum not above recommended. |
| CompatCatalog.CatalogIgnoresOrder | internal/compatcatalog/catalog.go:314-340 | The order of a document's entries does not matter. |
| AddonMeaning.LooksLikeVersionMeans | internal/compatcatalog/catalog.go:449-455 | A text looks like a version exactly when it holds a digit and no image digest marker; the test for "latest" adds nothing. |
| AddonMeaning.NamedProblemIsReal | internal/compatcatalog/catalog.go:342-393 | The problem an entry is refused for is one it has. |
| AddonMeaning.AcceptedIff | internal/compatcatalog/catalog.go:342-393 | An entry is accepted exactly when none of the fifteen problems, stated over its texts, is present. |
| AddonMeaning.MinorMeans | internal/compatcatalog/catalog.go:439-447 | A Kubernetes version is filed under a minor exactly when its trimmed text is that minor or continues it with a dot. |
| AddonMeaning.KeyMeans | internal/compatcatalog/catalog.go:431-447 | An add-on is asked for without regard to case, outer blanks, a leading "v" or a patch. |
| AddonMeaning.ImpactMeans | internal/compatcatalog/catalog.go:395-409 | An impact is read without case and outer blanks, and a blank one as "unknown". |
| Versions.AtoiReadsItoa | internal/plan/version.go:25-40 | Printing a 64-bit number and parsing it back is the identity. |
| Versions.ItoaIsCanonical | internal/findings/report.go:694-704 | A printed number is digits without a leading zero, behind a sign for a negative one. |
| Versions.ParseReadsPrint | internal/plan/version.go:25-40 | Printing major.minor and parsing it back is the identity. |
| Versions.LeadingVIsRead | internal/plan/version.go:25-45 | One leading "v" makes no difference. |
| Versions.NormalizedTextIsFaithful | internal/findings/report.go:694-700 | Two versions normalise to the same text exactly when they parse to the same numbers. |
| Versions.UpgradePath | internal/findings/report.go:808-830 | Succeeds exactly for an upgrade or the same minor, and lists every minor from current to target. |
| Versions.GenerateHops | internal/plan/version.go:82-110 | Every error case in order; otherwise hops numbered from one, contiguous, one minor each. |
| Versions.HopRisesOneMinor | internal/plan/version.go:99-108 | Hop k starts k minors above the start and rises by one when read back. |
| Versions.PlannerReadsIff | internal/plan/version.go:25-40 | The planner reads a version as the report does or not at all, and reads one the report reads exactly when it has no leading blank and a trailing one only behind a second dot. |
| Versions.HopsFollowUpgradePath | internal/plan/version.go:82-110 | Hops exist exactly when the report calls the target an upgrade and the planner reads both versions; so the two agree exactly when no upgrade has a version the planner cannot read. The stops are the report's upgrade path. |
| Versions.PlannerRejectsLeadingSpace | internal/plan/version.go:25-40 | The planner rejects every version with a leading blank; the report reads it as if the blank were not there. |
| Versions.BlankHidesUpgrade | internal/plan/version.go:82-90 | One blank before the start of a one-minor upgrade: the report calls it an upgrade, the planner refuses it. |
| Versions.MinorPathIsUnique | internal/findings/report.go:808-830 | A path is determined by its ends. |
| ShellCommand.EscapedReads | internal/cli/plan.go:662-664 | An escaped value, read inside single quotes, is the value. |
| ShellCommand.QuotedReadsAsValue | internal/cli/plan.go:662-664 | A quoted value is read back whole, whatever quotes, blanks or nothing it holds. |
| ShellCommand.JoinedReads | internal/cli/plan.go:659-659 | Parts joined by blanks are read as their words. |
| ShellCommand.CommandReadsBack | internal/cli/plan.go:635-660 | The command splits back into exactly the intended flags and values, for all NUL-free values. |
| ShellCommand.BuildRecommendedScanCommand | internal/cli/plan.go:635-660 | The printed command, and what the shell reads from it. |
| ShellCommand.CommandRestoresInputs | internal/cli/plan.go:632-660 | Reading words, then flags, restores the settings of the plan. |
| ShellCommand.NamespacesReadBack | internal/cli/plan.go:656-658 | The comma list reads back as the namespaces, none of which holds a comma, quote or line end, exactly when they are not one empty name. |
| ShellCommand.ContextReadsBack | internal/findings/context.go:19-36 | Every known upgrade context survives the trip through its flag spelling. |

## Left out

- JSON encoding and SHA-256 inside the resource keys are one injective function to fixed-length digests; the 64-character hex form is used where the sort text needs it.
- GroupOrder.GroupSequenceIsCanonical: says nothing about groups that compare equal, which need findings without resources; the code calls those unreachable. Their places would follow input order and the sort, which is not stable.
- Orders.SortSlice: `sort.Slice` promises a result only for comparators whose ties are transitive. The API catalog is the one caller whose comparator can break that, on documents that mix spellings of a version; that those are refused relies on no neighbour being inverted.
- NextActions.GroupOrderKey: the order key of each group is computed once before sorting instead of inside the comparator.
- Clocks and time formatting: times are nanosecond integers, an absent one is the zero time; the freshness thresholds of 24 hours and 5 minutes are kept.
- `time.Parse` is an arbitrary predicate on texts, the rule universe, the priority and category tables and the known add-on providers are parameters: the theorems hold for all of them.
- Evidence, messages, advisory and error texts; error values carry their kind and position, not their wording.
- Text is ASCII where it is trimmed, lower-cased or split into version tokens; Unicode case folding (for "latest" too) is not modelled.
- Go integer overflow, except where `strconv.Atoi` rejects it or the API catalog panics on it. `Versions.UpgradePath` with a target at the largest 64-bit minor would not terminate in Go.
- ApiCompatibility.AddFamily: families are pairs of API version and kind; the code joins the two with a NUL character, which makes a difference only for texts that hold one.
- `TargetVersions`, `MissingRequiredEntries`, `StaleEntries` and the queries of operational impacts: reports over the catalogs that no decision reads.
- Resource labels are opaque texts of a finding; the wording of the label is presentation.
- The shell reader refuses everything a shell would interpret (expansions, operators, comments, backslashes), so it reads fewer commands than a shell does; it is exact on the ones it reads.
- ShellCommand.NamespacesReadBack: the flag library reads comma lists as CSV; its quoting and line rules are not modelled, so names with a quote or a line end, which are no DNS labels, are not covered.
- Finding validation, exemptions, redaction, rendering, file and network access, collectors, the action-plan checklist and the HTTP server.
