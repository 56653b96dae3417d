/** What the signals behind the nine checks are, without loops: which findings and inventory entries
    raise which kind of signal, and how the kinds add up. */
module RollbackSignals {
  import opened Findings
  import opened Reports
  import opened RollbackModel
  import opened Rollback

  // ---- signals decide statuses -----------------------------------------------------------------------

  ghost predicate HasSignal(signals: seq<Signal>, s: CheckStatus) {
    exists x :: x in signals && x.status == s
  }

  /** The worst of the signals. */
  ghost function Worst(signals: seq<Signal>): CheckStatus {
    if HasSignal(signals, CheckFail) then CheckFail
    else if HasSignal(signals, CheckUnknown) then CheckUnknown
    else if HasSignal(signals, CheckWarning) then CheckWarning
    else CheckPass
  }

  ghost predicate Graded(signals: seq<Signal>) {
    forall x | x in signals :: x.status in {CheckFail, CheckUnknown, CheckWarning}
  }

  lemma WorstOfConcat(a: seq<Signal>, b: seq<Signal>, s: CheckStatus)
    ensures HasSignal(a + b, s) <==> HasSignal(a, s) || HasSignal(b, s)
  {
    if HasSignal(a, s) { var x :| x in a && x.status == s; assert x in a + b; }
    if HasSignal(b, s) { var x :| x in b && x.status == s; assert x in a + b; }
  }

  lemma WorstGrows(front: seq<Signal>, last: Signal)
    requires last.status in {CheckFail, CheckUnknown, CheckWarning}
    ensures Worst(front + [last]) == MaxCheckStatus(Worst(front), last.status)
  {
    assert last in [last];
    WorstOfConcat(front, [last], CheckFail);
    WorstOfConcat(front, [last], CheckUnknown);
    WorstOfConcat(front, [last], CheckWarning);
  }

  /** A check that starts out passing ends with the status of its worst signal: the order in which
      findings arrive and the order of the loops do not matter. */
  lemma {:induction false} StatusIsWorstSignal(id: CheckID, signals: seq<Signal>)
    requires Graded(signals)
    ensures RaiseAll(Passing(id), signals).status == Worst(signals)
  {
    if signals != [] {
      var front, last := signals[..|signals| - 1], signals[|signals| - 1];
      assert signals == front + [last];
      StatusIsWorstSignal(id, front);
      WorstGrows(front, last);
    }
  }

  // ---- signals from findings, without the loops ---------------------------------------------------------

  ghost predicate Found(fs: seq<Finding>, prefixes: seq<string>) {
    exists f :: f in fs && RuleMatches(f.ruleID, prefixes)
  }

  ghost predicate FoundBlocker(fs: seq<Finding>, prefixes: seq<string>) {
    exists f :: f in fs && RuleMatches(f.ruleID, prefixes) && f.severity == SeverityBlocker
  }

  ghost predicate FoundMilder(fs: seq<Finding>, prefixes: seq<string>) {
    exists f :: f in fs && RuleMatches(f.ruleID, prefixes) && f.severity != SeverityBlocker
  }

  lemma {:induction false} FindingSignalsAre(fs: seq<Finding>, prefixes: seq<string>, reason: ReasonCode)
    ensures forall x :: x in FindingSignals(fs, prefixes, reason) <==>
              exists f :: f in fs && RuleMatches(f.ruleID, prefixes) && x == FindingSignal(f, reason)
  {
    if fs != [] {
      FindingSignalsAre(fs[..|fs| - 1], prefixes, reason);
      assert fs == fs[..|fs| - 1] + [fs[|fs| - 1]];
    }
  }

  lemma FindingSignalStatuses(fs: seq<Finding>, prefixes: seq<string>, reason: ReasonCode)
    ensures Graded(FindingSignals(fs, prefixes, reason))
    ensures HasSignal(FindingSignals(fs, prefixes, reason), CheckFail) <==> FoundBlocker(fs, prefixes)
    ensures HasSignal(FindingSignals(fs, prefixes, reason), CheckWarning) <==> FoundMilder(fs, prefixes)
    ensures !HasSignal(FindingSignals(fs, prefixes, reason), CheckUnknown)
  {
    var signals := FindingSignals(fs, prefixes, reason);
    FindingSignalsAre(fs, prefixes, reason);
    if FoundBlocker(fs, prefixes) {
      var f :| f in fs && RuleMatches(f.ruleID, prefixes) && f.severity == SeverityBlocker;
      assert FindingSignal(f, reason) in signals;
    }
    if FoundMilder(fs, prefixes) {
      var f :| f in fs && RuleMatches(f.ruleID, prefixes) && f.severity != SeverityBlocker;
      assert FindingSignal(f, reason) in signals;
    }
  }

  lemma {:induction false} MatchingAre(fs: seq<Finding>, prefixes: seq<string>)
    ensures forall f :: f in Matching(fs, prefixes) <==> f in fs && RuleMatches(f.ruleID, prefixes)
  {
    if fs != [] {
      MatchingAre(fs[..|fs| - 1], prefixes);
      assert fs == fs[..|fs| - 1] + [fs[|fs| - 1]];
    }
  }

  lemma {:induction false} TargetGatedAre(fs: seq<Finding>)
    ensures forall f :: f in TargetGated(fs) <==> f in fs && CRDWebhookRule(f.ruleID)
  {
    if fs != [] {
      TargetGatedAre(fs[..|fs| - 1]);
      assert fs == fs[..|fs| - 1] + [fs[|fs| - 1]];
    }
  }

  lemma {:induction false} DisruptionSignalsAre(fs: seq<Finding>)
    ensures forall x :: x in DisruptionSignals(fs, NO_OPERATION_EVIDENCE) <==>
              x == Signal(CheckWarning, PDBDisruptionConstraints) && exists f :: f in fs && DisruptionRule(f.ruleID)
  {
    if fs != [] {
      DisruptionSignalsAre(fs[..|fs| - 1]);
      assert fs == fs[..|fs| - 1] + [fs[|fs| - 1]];
    }
  }

  /** With operation evidence at hand a disruption finding fails the check exactly when it is a Blocker
      whose activation the evidence confirms; the evidence the code collects confirms none. */
  lemma {:induction false} DisruptionFailsIff(fs: seq<Finding>, e: OperationEvidence)
    ensures HasSignal(DisruptionSignals(fs, e), CheckFail) <==>
              exists f :: && f in fs && DisruptionRule(f.ruleID)
                          && f.severity == SeverityBlocker && ActivationConfirmed(f, e)
    ensures e == NO_OPERATION_EVIDENCE ==> !HasSignal(DisruptionSignals(fs, e), CheckFail)
  {
    if fs != [] {
      DisruptionFailsIff(fs[..|fs| - 1], e);
      var front, f := fs[..|fs| - 1], fs[|fs| - 1];
      assert fs == front + [f];
      if DisruptionRule(f.ruleID) {
        var signals := DisruptionSignals(fs, e);
        assert signals[|signals| - 1] == DisruptionSignal(f, e);
      }
    }
  }

  ghost predicate NodegroupRaises(ng: EKSNodegroup, c: Cluster, x: Signal) {
    if ng.version == "" then x == Signal(CheckUnknown, SelfManagedNodeEvidenceUnavailable)
    else NeedsNodegroupRollback(ng, c) && x == Signal(CheckWarning, ManagedNodegroupRollbackRequired)
  }

  lemma {:induction false} NodegroupSignalsAre(ngs: seq<EKSNodegroup>, c: Cluster, x: Signal)
    ensures x in NodegroupSignals(ngs, c) <==> exists ng :: ng in ngs && NodegroupRaises(ng, c, x)
  {
    if ngs != [] {
      var front, last := ngs[..|ngs| - 1], ngs[|ngs| - 1];
      NodegroupSignalsAre(front, c, x);
      assert ngs == front + [last];
      assert (exists ng :: ng in ngs && NodegroupRaises(ng, c, x))
        <==> NodegroupRaises(last, c, x) || exists ng :: ng in front && NodegroupRaises(ng, c, x);
    }
  }

  ghost predicate AddonRaises(addon: EKSAddon, x: Signal) {
    if addon.verificationUnavailable then x == Signal(CheckUnknown, ManagedAddonCompatibilityUnknown)
    else !addon.compatible && x == Signal(CheckWarning, ManagedAddonRollbackRequired)
  }

  lemma {:induction false} AddonSignalsAre(addons: seq<EKSAddon>, x: Signal)
    ensures x in AddonSignals(addons) <==> exists addon :: addon in addons && AddonRaises(addon, x)
  {
    if addons != [] {
      var front, last := addons[..|addons| - 1], addons[|addons| - 1];
      AddonSignalsAre(front, x);
      assert addons == front + [last];
      assert (exists addon :: addon in addons && AddonRaises(addon, x))
        <==> AddonRaises(last, x) || exists addon :: addon in front && AddonRaises(addon, x);
    }
  }

  // ---- which kinds of signal a list holds -----------------------------------------------------------------

  datatype Profile = Profile(fail: bool, unknown: bool, warning: bool) {
    function Or(p: Profile): Profile {
      Profile(fail || p.fail, unknown || p.unknown, warning || p.warning)
    }
  }

  const QUIET := Profile(false, false, false)
  const DOUBTFUL := Profile(false, true, false)

  /** The list holds signals of exactly these kinds. */
  ghost predicate Profiled(signals: seq<Signal>, p: Profile) {
    && Graded(signals)
    && p == Profile(HasSignal(signals, CheckFail), HasSignal(signals, CheckUnknown), HasSignal(signals, CheckWarning))
  }

  lemma ProfileOfConcat(a: seq<Signal>, p: Profile, b: seq<Signal>, q: Profile)
    requires Profiled(a, p) && Profiled(b, q)
    ensures Profiled(a + b, p.Or(q))
  {
    WorstOfConcat(a, b, CheckFail);
    WorstOfConcat(a, b, CheckUnknown);
    WorstOfConcat(a, b, CheckWarning);
  }

  lemma ProfileOfGate(g: Gate)
    ensures Profiled(GateSignals(g), if g.Open? then QUIET else DOUBTFUL)
  {
    if g.Shut? {
      assert Signal(CheckUnknown, g.reason) in GateSignals(g);
    }
  }

  lemma ProfileOfGated(g: Gates, signals: seq<Signal>, p: Profile)
    requires Profiled(signals, p)
    ensures Profiled(Gated(g, signals), if g.Provenance() then p else DOUBTFUL)
  {
    ProfileOfGate(g.identity);
    ProfileOfGate(g.freshness);
    ProfileOfConcat(GateSignals(g.identity), if g.identity.Open? then QUIET else DOUBTFUL,
                    GateSignals(g.freshness), if g.freshness.Open? then QUIET else DOUBTFUL);
  }

  lemma ProfileOfOne(s: Signal)
    requires s.status in {CheckFail, CheckUnknown, CheckWarning}
    ensures Profiled([s], Profile(s.status == CheckFail, s.status == CheckUnknown, s.status == CheckWarning))
  {
    assert s in [s];
  }

  lemma ProfileOfFindings(fs: seq<Finding>, prefixes: seq<string>, reason: ReasonCode)
    ensures Profiled(FindingSignals(fs, prefixes, reason),
                     Profile(FoundBlocker(fs, prefixes), false, FoundMilder(fs, prefixes)))
  {
    FindingSignalStatuses(fs, prefixes, reason);
  }

  lemma ProfileOfTargetGated(g: Gates, fs: seq<Finding>, prefixes: seq<string>, reason: ReasonCode)
    ensures Profiled(TargetGatedSignals(g, fs, prefixes, reason),
              if fs == [] then QUIET
              else if g.target.Open? then Profile(FoundBlocker(fs, prefixes), false, FoundMilder(fs, prefixes))
              else DOUBTFUL)
  {
    ProfileOfFindings(fs, prefixes, reason);
    ProfileOfGate(g.target);
  }

  lemma ProfileOfNodegroups(ngs: seq<EKSNodegroup>, c: Cluster)
    ensures Profiled(NodegroupSignals(ngs, c), Profile(false,
              exists ng :: ng in ngs && ng.version == "",
              exists ng :: ng in ngs && ng.version != "" && NeedsNodegroupRollback(ng, c)))
  {
    var signals := NodegroupSignals(ngs, c);
    forall x | x in signals
      ensures x.status == CheckUnknown || x.status == CheckWarning
    {
      NodegroupSignalsAre(ngs, c, x);
    }
    var unknown := Signal(CheckUnknown, SelfManagedNodeEvidenceUnavailable);
    var warning := Signal(CheckWarning, ManagedNodegroupRollbackRequired);
    NodegroupSignalsAre(ngs, c, unknown);
    NodegroupSignalsAre(ngs, c, warning);
    if x :| x in signals && x.status == CheckUnknown { NodegroupSignalsAre(ngs, c, x); }
    if x :| x in signals && x.status == CheckWarning { NodegroupSignalsAre(ngs, c, x); }
    if ng :| ng in ngs && ng.version == "" { assert NodegroupRaises(ng, c, unknown); }
    if ng :| ng in ngs && ng.version != "" && NeedsNodegroupRollback(ng, c) { assert NodegroupRaises(ng, c, warning); }
  }

  lemma ProfileOfAddons(addons: seq<EKSAddon>)
    ensures Profiled(AddonSignals(addons), Profile(false,
              exists addon :: addon in addons && addon.verificationUnavailable,
              exists addon :: addon in addons && !addon.verificationUnavailable && !addon.compatible))
  {
    var signals := AddonSignals(addons);
    forall x | x in signals
      ensures x.status == CheckUnknown || x.status == CheckWarning
    {
      AddonSignalsAre(addons, x);
    }
    var unknown := Signal(CheckUnknown, ManagedAddonCompatibilityUnknown);
    var warning := Signal(CheckWarning, ManagedAddonRollbackRequired);
    AddonSignalsAre(addons, unknown);
    AddonSignalsAre(addons, warning);
    if x :| x in signals && x.status == CheckUnknown { AddonSignalsAre(addons, x); }
    if x :| x in signals && x.status == CheckWarning { AddonSignalsAre(addons, x); }
    if addon :| addon in addons && addon.verificationUnavailable { assert AddonRaises(addon, unknown); }
    if addon :| addon in addons && !addon.verificationUnavailable && !addon.compatible {
      assert AddonRaises(addon, warning);
    }
  }

  lemma ProfileOfDisruption(fs: seq<Finding>)
    ensures Profiled(DisruptionSignals(fs, NO_OPERATION_EVIDENCE),
              Profile(false, false, exists f :: f in fs && DisruptionRule(f.ruleID)))
  {
    DisruptionSignalsAre(fs);
    if f :| f in fs && DisruptionRule(f.ruleID) {
      assert Signal(CheckWarning, PDBDisruptionConstraints) in DisruptionSignals(fs, NO_OPERATION_EVIDENCE);
    }
  }
}
