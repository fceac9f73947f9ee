/**
 The decision on one window: quality gate, rules and model signal, suppressions, fusion, and
 the status stored with the evaluation.
 */
module Decision {
  import opened Sequences
  import opened Tables
  import opened Rules
  import opened Fusion

  datatype Mode = Hybrid | RulesOnly | ModelOnly

  datatype Policy = Policy(
    id: string, version: string, hash: string, mode: Mode, findingThreshold: int, thresholds: RiskThresholds,
    rules: seq<Rule>, qualityGate: seq<QualityStatus>)

  datatype WindowInput = WindowInput(
    datasetKind: DatasetKind, profileKey: string, quality: QualityStatus, features: Features)

  /** The model behind a signal; without one the engine uses a fixed sentinel. */
  datatype ModelSignal = ModelSignal(signal: Signal, namespace: string)

  const NO_MODEL := "__rules_only__"

  datatype Scope = FindingFingerprint | SignalForProfile | SignalForDatasetKind

  /** An active, unexpired suppression. */
  datatype Suppression = Suppression(
    scope: Scope, profileKey: string, datasetKind: DatasetKind, signalId: string, fingerprint: Option<Fingerprint>)

  /** What the fingerprint hash is taken of. */
  datatype Fingerprint = Fingerprint(
    datasetKind: DatasetKind, profileKey: string, primary: Option<string>, matchedRuleIds: seq<string>,
    policyId: string, policyVersion: string, policyHash: string, modelNamespace: string)

  datatype Status = FindingStatus | NoFindingStatus | SkippedStatus | SuppressedStatus

  datatype Decided = Decided(fused: Fused, finding: bool, suppression: Option<Suppression>, status: Status,
                             fingerprint: Option<Fingerprint>)

  function NotModelId(): string -> bool { (id: string) => !("model-" <= id) }

  function FingerprintOf(input: WindowInput, policy: Policy, fused: Fused, model: Option<ModelSignal>): Fingerprint {
    Fingerprint(input.datasetKind, input.profileKey, fused.primary,
                SortBy(Filter(fused.matchedIds, NotModelId()), TextLeq),
                policy.id, policy.version, policy.hash, if model.Some? then model.value.namespace else NO_MODEL)
  }

  function SignalsOf(input: WindowInput, policy: Policy, model: Option<ModelSignal>): seq<Signal> {
    (if policy.mode == ModelOnly then [] else EvaluateRules(input.features, policy.rules))
    + (if policy.mode != RulesOnly && model.Some? then [model.value.signal] else [])
  }

  /** A signal suppression covers a matched signal of its profile or dataset kind, a fingerprint
      suppression the fingerprint of a finding. */
  predicate Covers(s: Suppression, input: WindowInput, signals: seq<Signal>, fingerprint: Option<Fingerprint>) {
    match s.scope
    case SignalForProfile => s.profileKey == input.profileKey && HasMatched(signals, s.signalId)
    case SignalForDatasetKind => s.datasetKind == input.datasetKind && HasMatched(signals, s.signalId)
    case FindingFingerprint => fingerprint.Some? && s.fingerprint == fingerprint
  }

  predicate HasMatched(signals: seq<Signal>, id: string) {
    exists signal :: signal in signals && signal.matched && signal.id == id
  }

  function SuppressionFor(active: seq<Suppression>, input: WindowInput, signals: seq<Signal>,
                          fingerprint: Option<Fingerprint>): Option<Suppression> {
    if active == [] then None
    else if Covers(active[0], input, signals, fingerprint) then Some(active[0])
    else SuppressionFor(active[1..], input, signals, fingerprint)
  }

  function DecideWindow(input: WindowInput, policy: Policy, model: Option<ModelSignal>, active: seq<Suppression>)
    : Decided {
    if input.quality !in policy.qualityGate then
      Decided(Fused(0, NoRisk, [], None, 0, false), false, None, SkippedStatus, None)
    else
      var signals := SignalsOf(input, policy, model);
      var bySignal := SuppressionFor(active, input, signals, None);
      var fused := FuseSignals(signals, policy.thresholds, policy.findingThreshold, bySignal.Some?);
      var fingerprint := FingerprintOf(input, policy, fused, model);
      var byFingerprint := if fused.finding then SuppressionFor(active, input, signals, Some(fingerprint)) else None;
      var suppression := if bySignal.Some? then bySignal else byFingerprint;
      var finding := fused.finding && suppression.None?;
      var status := if suppression.Some? && fused.matchedIds != [] then SuppressedStatus
                    else if finding then FindingStatus else NoFindingStatus;
      Decided(fused, finding, suppression, status, if finding then Some(fingerprint) else None)
  }

  // --- What a decision means ---------------------------------------------------------------

  /** The suppression at i covers the window and none before it does. */
  ghost predicate FirstCovering(active: seq<Suppression>, i: nat, input: WindowInput, signals: seq<Signal>,
                                fingerprint: Option<Fingerprint>) {
    && i < |active| && Covers(active[i], input, signals, fingerprint)
    && forall j :: 0 <= j < i ==> !Covers(active[j], input, signals, fingerprint)
  }

  lemma FirstCoveringLater(active: seq<Suppression>, i: nat, input: WindowInput, signals: seq<Signal>,
                           fingerprint: Option<Fingerprint>)
    requires active != [] && !Covers(active[0], input, signals, fingerprint)
    requires FirstCovering(active[1..], i, input, signals, fingerprint)
    ensures FirstCovering(active, i + 1, input, signals, fingerprint) && active[i + 1] == active[1..][i]
  {
  }

  /** The suppression that applies is the first one in the list that covers the window, if any does. */
  lemma {:induction false} SuppressionForFirst(active: seq<Suppression>, input: WindowInput, signals: seq<Signal>,
                                               fingerprint: Option<Fingerprint>)
    ensures SuppressionFor(active, input, signals, fingerprint).Some?
            <==> exists s :: s in active && Covers(s, input, signals, fingerprint)
    ensures SuppressionFor(active, input, signals, fingerprint).Some? ==>
              exists i: nat :: FirstCovering(active, i, input, signals, fingerprint)
                               && SuppressionFor(active, input, signals, fingerprint) == Some(active[i])
  {
    if active != [] {
      assert active == [active[0]] + active[1..];
      SuppressionForFirst(active[1..], input, signals, fingerprint);
      if Covers(active[0], input, signals, fingerprint) {
        assert FirstCovering(active, 0, input, signals, fingerprint);
      } else if SuppressionFor(active[1..], input, signals, fingerprint).Some? {
        var i: nat :| FirstCovering(active[1..], i, input, signals, fingerprint)
                      && SuppressionFor(active[1..], input, signals, fingerprint) == Some(active[1..][i]);
        FirstCoveringLater(active, i, input, signals, fingerprint);
      }
    }
  }

  ghost predicate SignalsInBounds(input: WindowInput, policy: Policy, model: Option<ModelSignal>) {
    InBounds(SignalsOf(input, policy, model))
  }

  lemma {:induction false} MatchedWhenCounted(signals: seq<Signal>)
    ensures MatchedCount(signals) > 0 <==> exists s :: s in signals && s.matched
  {
    if signals != [] {
      MatchedWhenCounted(signals[..|signals| - 1]);
      assert signals == signals[..|signals| - 1] + [signals[|signals| - 1]];
    }
  }

  /** A window becomes a finding exactly when its quality passes the gate, some signal matched, the
      score reaches the threshold and no active suppression covers it, by signal or by fingerprint. */
  lemma FindingExactly(input: WindowInput, policy: Policy, model: Option<ModelSignal>, active: seq<Suppression>)
    requires SignalsInBounds(input, policy, model)
    ensures var signals := SignalsOf(input, policy, model);
            var unsuppressed := FuseSignals(signals, policy.thresholds, policy.findingThreshold, false);
            var fingerprint := FingerprintOf(input, policy, unsuppressed, model);
            DecideWindow(input, policy, model, active).finding <==>
            && input.quality in policy.qualityGate
            && (exists s :: s in signals && s.matched)
            && ReferenceScore(signals) >= policy.findingThreshold
            && !exists s :: s in active && Covers(s, input, signals, Some(fingerprint))
  {
    var signals := SignalsOf(input, policy, model);
    var unsuppressed := FuseSignals(signals, policy.thresholds, policy.findingThreshold, false);
    var fingerprint := FingerprintOf(input, policy, unsuppressed, model);
    FuseIsReference(signals, policy.thresholds, policy.findingThreshold, false);
    FusedRisk(signals, policy.thresholds, policy.findingThreshold, false);
    MatchedWhenCounted(signals);
    SuppressionForFirst(active, input, signals, None);
    SuppressionForFirst(active, input, signals, Some(fingerprint));
    forall s | s in active && Covers(s, input, signals, None) ensures Covers(s, input, signals, Some(fingerprint)) { }
  }

  /** The stored status tells findings apart: it is "finding" exactly for a finding, "suppressed"
      exactly when a suppression covered the window, and "skipped" exactly outside the quality gate. */
  lemma StatusExactly(input: WindowInput, policy: Policy, model: Option<ModelSignal>, active: seq<Suppression>)
    requires SignalsInBounds(input, policy, model)
    ensures var d := DecideWindow(input, policy, model, active);
            && (d.status == FindingStatus <==> d.finding)
            && (d.status == SuppressedStatus <==> d.suppression.Some?)
            && (d.status == SkippedStatus <==> input.quality !in policy.qualityGate)
            && (d.status == SkippedStatus ==> d.fused.score == 0 && d.fused.risk == NoRisk && d.fused.matchedIds == [])
            && (d.finding <==> d.fingerprint.Some?)
            && (d.finding ==> d.fused.risk == RiskForScore(d.fused.score, policy.thresholds)
                              && d.fingerprint.value.policyHash == policy.hash
                              && d.fingerprint.value.profileKey == input.profileKey)
  {
    var signals := SignalsOf(input, policy, model);
    var bySignal := SuppressionFor(active, input, signals, None);
    SuppressionForFirst(active, input, signals, None);
    MatchedWhenCounted(signals);
    FusedRisk(signals, policy.thresholds, policy.findingThreshold, bySignal.Some?);
  }

  /** The suppression that a decision names: the first one that covers the window by signal, and only without any
      the first one that covers what would be a finding by its fingerprint. */
  lemma SuppressionApplied(input: WindowInput, policy: Policy, model: Option<ModelSignal>, active: seq<Suppression>)
    requires input.quality in policy.qualityGate
    ensures var d, signals := DecideWindow(input, policy, model, active), SignalsOf(input, policy, model);
            && ((exists s :: s in active && Covers(s, input, signals, None)) ==>
                  && d.suppression.Some?
                  && exists i: nat :: FirstCovering(active, i, input, signals, None) && d.suppression == Some(active[i]))
            && ((!exists s :: s in active && Covers(s, input, signals, None)) && d.suppression.Some? ==>
                  && d.fused.finding
                  && exists i: nat :: FirstCovering(active, i, input, signals,
                                                    Some(FingerprintOf(input, policy, d.fused, model)))
                                      && d.suppression == Some(active[i]))
  {
    var signals, fused := SignalsOf(input, policy, model), DecideWindow(input, policy, model, active).fused;
    SuppressionForFirst(active, input, signals, None);
    SuppressionForFirst(active, input, signals, Some(FingerprintOf(input, policy, fused, model)));
  }

  // --- Fingerprints and the reach of suppressions ------------------------------------------

  lemma TextOrder()
    ensures TotalOrder(TextLeq) && Antisymmetric(TextLeq)
  {
    forall a, b | TextLeq(a, b) && TextLeq(b, a) ensures a == b { TextLeqAntisymmetric(a, b); }
    forall a: string, b: string ensures TextLeq(a, b) || TextLeq(b, a) { TextLeqTotal(a, b); }
    forall a, b, c | TextLeq(a, b) && TextLeq(b, c) ensures TextLeq(a, c) { TextLeqTransitive(a, b, c); }
  }

  function IsRuleId(): string -> bool { (id: string) => |id| < 6 || id[..6] != "model-" }

  /** The matched ids of rules: those that do not start as a model's id does. */
  function RuleIds(fused: Fused): multiset<string> { multiset(Filter(fused.matchedIds, IsRuleId())) }

  /** Two decisions have the same fingerprint exactly when they agree on dataset kind, profile, primary signal,
      matched rules, policy and the model's namespace, none of them standing for no model. */
  lemma SameFingerprint(a: WindowInput, p: Policy, f: Fused, m: Option<ModelSignal>,
                        b: WindowInput, q: Policy, g: Fused, n: Option<ModelSignal>)
    ensures FingerprintOf(a, p, f, m) == FingerprintOf(b, q, g, n) <==>
            && a.datasetKind == b.datasetKind && a.profileKey == b.profileKey
            && f.primary == g.primary && RuleIds(f) == RuleIds(g)
            && p.id == q.id && p.version == q.version && p.hash == q.hash
            && (if m.Some? then m.value.namespace else NO_MODEL) == (if n.Some? then n.value.namespace else NO_MODEL)
  {
    var x, y := Filter(f.matchedIds, NotModelId()), Filter(g.matchedIds, NotModelId());
    FilterAgree(f.matchedIds, NotModelId(), IsRuleId());
    FilterAgree(g.matchedIds, NotModelId(), IsRuleId());
    TextOrder();
    SortBySorted(x, TextLeq);
    SortBySorted(y, TextLeq);
    SortByPermutes(x, TextLeq);
    SortByPermutes(y, TextLeq);
    if multiset(x) == multiset(y) {
      SortedSame(SortBy(x, TextLeq), SortBy(y, TextLeq), TextLeq);
    }
  }

  /** The window is a finding but for suppressions. */
  ghost predicate WouldFind(input: WindowInput, policy: Policy, model: Option<ModelSignal>) {
    DecideWindow(input, policy, model, []).finding
  }

  /** What a suppression reaches: by signal, windows of its own profile or dataset kind in which that signal
      matched; by fingerprint, windows that would be findings with that fingerprint. */
  lemma SuppressionReaches(s: Suppression, input: WindowInput, policy: Policy, model: Option<ModelSignal>)
    requires SignalsInBounds(input, policy, model)
    ensures DecideWindow(input, policy, model, [s]).status == SuppressedStatus <==>
            && input.quality in policy.qualityGate
            && match s.scope
               case SignalForProfile =>
                 s.profileKey == input.profileKey
                 && exists signal :: signal in SignalsOf(input, policy, model) && signal.matched && signal.id == s.signalId
               case SignalForDatasetKind =>
                 s.datasetKind == input.datasetKind
                 && exists signal :: signal in SignalsOf(input, policy, model) && signal.matched && signal.id == s.signalId
               case FindingFingerprint =>
                 WouldFind(input, policy, model) && s.fingerprint == DecideWindow(input, policy, model, []).fingerprint
  {
    var signals := SignalsOf(input, policy, model);
    StatusExactly(input, policy, model, [s]);
    assert SuppressionFor([], input, signals, None) == None;
    OneSuppression(s, input, signals, None);
    FusedRisk(signals, policy.thresholds, policy.findingThreshold, false);
    if input.quality in policy.qualityGate {
      var fingerprint := FingerprintOf(input, policy, FuseSignals(signals, policy.thresholds, policy.findingThreshold, false),
                                       model);
      OneSuppression(s, input, signals, Some(fingerprint));
    }
  }

  lemma OneSuppression(s: Suppression, input: WindowInput, signals: seq<Signal>, fingerprint: Option<Fingerprint>)
    ensures SuppressionFor([s], input, signals, fingerprint)
         == if Covers(s, input, signals, fingerprint) then Some(s) else None
  {
    assert [s][1..] == [];
  }

  /** The signals of a window: those of the rules unless only the model counts, and the model's unless only
      the rules count. */
  lemma SignalsByMode(input: WindowInput, policy: Policy, model: Option<ModelSignal>, signal: Signal)
    ensures signal in SignalsOf(input, policy, model) <==>
            || (policy.mode != ModelOnly && exists rule :: rule in policy.rules && signal == EvaluateRule(input.features, rule))
            || (policy.mode != RulesOnly && model.Some? && signal == model.value.signal)
  {
    RuleSignals(input.features, policy.rules, signal);
  }

  lemma {:induction false} RuleSignals(x: Features, rules: seq<Rule>, signal: Signal)
    ensures signal in EvaluateRules(x, rules) <==> exists rule :: rule in rules && signal == EvaluateRule(x, rule)
  {
    if rules != [] {
      var init, last := rules[..|rules| - 1], rules[|rules| - 1];
      RuleSignals(x, init, signal);
      assert rules == init + [last];
    }
  }
}
