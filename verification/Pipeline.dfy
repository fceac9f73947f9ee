/**
 From a window to stored findings: what a policy's engine hands to the store satisfies what the
 store's invariants ask for, so every detection run keeps them.
 */
module Pipeline {
  import opened Sequences
  import opened Tables
  import opened Rules
  import opened Fusion
  import opened Decision
  import opened Findings
  import opened FindingInvariants
  import opened Sessions
  import opened Drain
  import Windows
  import Materialization

  /** The bounds that policy validation puts on rules, and those of a model's strength. */
  ghost predicate ValidPolicy(policy: Policy) {
    forall rule :: rule in policy.rules ==> ValidRule(rule)
  }

  ghost predicate ModelInBounds(model: Option<ModelSignal>) {
    model.Some? ==> 0 <= model.value.signal.strength <= 100
  }

  lemma Unraised(x: Features)
    ensures Raised(x, x)
  {
  }

  lemma PolicySignalsInBounds(input: WindowInput, policy: Policy, model: Option<ModelSignal>)
    requires ValidPolicy(policy) && ModelInBounds(model)
    ensures SignalsInBounds(input, policy, model)
  {
    var signals := EvaluateRules(input.features, policy.rules);
    Unraised(input.features);
    RulesMonotone(input.features, input.features, policy.rules);
    forall s | s in signals ensures 0 <= s.strength <= 100 {
      var i :| 0 <= i < |signals| && signals[i] == s;
      assert Dominated(signals[i], signals[i]);
    }
  }

  // --- From a stored window to its signals -------------------------------------------------

  /** The detector reads a stored window's features as numbers. */
  function FeaturesOf(v: Windows.FeatureValues): Features {
    Features(v.processCount as real, v.newProcessCount as real, v.networkConnectionCount as real, v.newRemoteCount as real,
             v.avgCpuPercent, v.maxCpuPercent, v.avgRamPercent, v.maxRamPercent,
             v.authSuccessCount as real, v.authFailureCount as real, v.hourOfDay as real, v.activityDensity)
  }

  /** What the engine is given of a stored window; the profile's key is a hash of the profile. */
  function InputOf(kind: DatasetKind, profileKey: string, w: Materialization.Window): WindowInput {
    WindowInput(kind, profileKey, w.quality.status, FeaturesOf(w.features))
  }

  ghost predicate OutsideWindow(events: seq<Windows.Event>, k: Windows.WindowKey, w: int)
    requires w > 0
  {
    forall e :: e in events ==> !Windows.InWindow(k, w)(e)
  }

  /** What the engine reads of the window that a rebuild of a store keeps at k. */
  function RebuiltInput(s: Materialization.Store, kind: DatasetKind, profileKey: string, k: Windows.WindowKey, w: int)
    : WindowInput
    requires w > 0
  {
    InputOf(kind, profileKey,
            Materialization.WindowAt(kind, Materialization.EventsOf(s, kind), Materialization.ObservationsFor(s, kind), k, w,
                                     Windows.NothingSeen))
  }

  lemma SameAfterMore<T(!new)>(s: seq<T>, more: seq<T>, leq: (T, T) -> bool, p: T -> bool)
    requires TotalOrder(leq) && forall x :: x in more ==> !p(x)
    ensures Filter(SortBy(s + more, leq), p) == Filter(SortBy(s, leq), p)
  {
    FilterSortBy(s + more, leq, p);
    FilterSortBy(s, leq, p);
    FilterConcat(s, more, p);
    FilterNone(more, p);
    assert Filter(s, p) + [] == Filter(s, p);
  }

  lemma MoreIsKnown(events: seq<Windows.Event>, more: seq<Windows.Event>, p: Windows.Event -> bool)
    ensures var few := Windows.NoveltyOf(Filter(SortBy(events, Windows.EventLeq), p));
            var many := Windows.NoveltyOf(Filter(SortBy(events + more, Windows.EventLeq), p));
            few.processes <= many.processes && few.remotes <= many.remotes
  {
    FilterMembers(SortBy(events, Windows.EventLeq), p);
    FilterMembers(SortBy(events + more, Windows.EventLeq), p);
    SortByPermutes(events, Windows.EventLeq);
    SortByPermutes(events + more, Windows.EventLeq);
  }

  lemma FewerLeft<T>(here: set<T>, few: set<T>, many: set<T>)
    requires few <= many
    ensures |here - many| <= |here - few|
  {
    assert here - few == (here - many) + (here * (many - few));
  }

  /** Knowing more of a profile only lowers what is new in a window. */
  lemma KnownLowers(group: seq<Windows.Event>, start: int, w: int, few: Windows.Novelty, many: Windows.Novelty)
    requires w > 0 && few.processes <= many.processes && few.remotes <= many.remotes
    ensures Raised(FeaturesOf(Windows.FeatureValuesForGroup(group, start, w, many)),
                   FeaturesOf(Windows.FeatureValuesForGroup(group, start, w, few)))
  {
    FewerLeft(Windows.NoveltyOf(group).processes, few.processes, many.processes);
    FewerLeft(Windows.NoveltyOf(group).remotes, few.remotes, many.remotes);
  }

  /** Events of other windows only ever lower what is new in this one. */
  lemma OtherEventsLower(s: Materialization.Store, more: seq<Windows.Event>, kind: DatasetKind, profileKey: string,
                         k: Windows.WindowKey, w: int)
    requires w > 0 && OutsideWindow(more, k, w)
    ensures Raised(RebuiltInput(s.(events := s.events + more), kind, profileKey, k, w).features,
                   RebuiltInput(s, kind, profileKey, k, w).features)
  {
    var stored, added := Filter(s.events, Materialization.OfKind(kind)), Filter(more, Materialization.OfKind(kind));
    FilterConcat(s.events, more, Materialization.OfKind(kind));
    FilterMembers(more, Materialization.OfKind(kind));
    Windows.EventOrder();
    SameAfterMore(stored, added, Windows.EventLeq, Windows.InWindow(k, w));
    MoreIsKnown(stored, added, Windows.EarlierThan(k, w));
    var few, many := SortBy(stored, Windows.EventLeq), SortBy(stored + added, Windows.EventLeq);
    KnownLowers(Filter(few, Windows.InWindow(k, w)), k.start, w,
                Windows.NothingSeen.Union(Windows.NoveltyOf(Filter(few, Windows.EarlierThan(k, w)))),
                Windows.NothingSeen.Union(Windows.NoveltyOf(Filter(many, Windows.EarlierThan(k, w)))));
  }

  /** From the event table to the risk: events that arrive for other windows, however late, never
      raise the score or the risk of this window in a rebuild, and never make it a finding. */
  lemma OtherEventsNeverRaiseRisk(s: Materialization.Store, more: seq<Windows.Event>, kind: DatasetKind, profileKey: string,
                                  k: Windows.WindowKey, w: int, policy: Policy, suppressed: bool)
    requires w > 0 && OutsideWindow(more, k, w) && ValidPolicy(policy) && ValidThresholds(policy.thresholds)
    ensures var late := RebuiltInput(s.(events := s.events + more), kind, profileKey, k, w);
            var before := RebuiltInput(s, kind, profileKey, k, w);
            var x := FuseSignals(EvaluateRules(late.features, policy.rules), policy.thresholds, policy.findingThreshold,
                                 suppressed);
            var y := FuseSignals(EvaluateRules(before.features, policy.rules), policy.thresholds, policy.findingThreshold,
                                 suppressed);
            x.score <= y.score && RiskRank(x.risk) <= RiskRank(y.risk) && (x.finding ==> y.finding)
  {
    OtherEventsLower(s, more, kind, profileKey, k, w);
    RaisingFeaturesNeverLowersRisk(RebuiltInput(s.(events := s.events + more), kind, profileKey, k, w).features,
                                   RebuiltInput(s, kind, profileKey, k, w).features,
                                   policy.rules, policy.thresholds, policy.findingThreshold, suppressed);
  }

  // --- Detection runs ----------------------------------------------------------------------

  /** What evaluating a window reads: its features and, with a model, the model's signal. */
  datatype Reading = Reading(input: WindowInput, model: Option<ModelSignal>)

  function VerdictOf(d: Decided): Verdict { Verdict(d.status, d.fused.score, d.fused.risk, d.fingerprint) }

  /** The engine of a policy; reading a window may raise. */
  function EngineOf(policy: Policy, active: seq<Suppression>, read: WindowRow -> Option<Reading>): Engine {
    (w: WindowRow) =>
      if read(w).None? then None
      else Some(VerdictOf(DecideWindow(read(w).value.input, policy, read(w).value.model, active)))
  }

  ghost predicate ReadsInBounds(read: WindowRow -> Option<Reading>) {
    forall w :: read(w).Some? ==> ModelInBounds(read(w).value.model)
  }

  /** Whatever a valid policy decides is consistent: a fingerprint exactly with a finding, and the
      risk that the policy gives to the score. */
  lemma DecisionConsistent(job: Job, w: WindowRow, input: WindowInput, policy: Policy, model: Option<ModelSignal>,
                           active: seq<Suppression>, policies: Policies)
    requires ValidPolicy(policy) && ModelInBounds(model) && policies(policy.hash) == policy.thresholds
    ensures Consistent(AttemptFor(job, w, VerdictOf(DecideWindow(input, policy, model, active))), policies)
  {
    PolicySignalsInBounds(input, policy, model);
    StatusExactly(input, policy, model, active);
  }

  ghost predicate AllConsistent(attempts: seq<Attempt>, run: nat, policies: Policies) {
    forall a :: a in attempts ==> a.run == run && Consistent(a, policies)
  }

  lemma {:induction false} AttemptsConsistent(rows: seq<WindowRow>, job: Job, policy: Policy, active: seq<Suppression>,
                                              read: WindowRow -> Option<Reading>, policies: Policies)
    requires ValidPolicy(policy) && ReadsInBounds(read) && policies(policy.hash) == policy.thresholds
    requires job.decide == EngineOf(policy, active, read)
    ensures AllConsistent(AttemptsOf(rows, job), job.run, policies)
  {
    if rows != [] {
      var w := rows[|rows| - 1];
      AttemptsConsistent(rows[..|rows| - 1], job, policy, active, read, policies);
      if read(w).Some? {
        DecisionConsistent(job, w, read(w).value.input, policy, read(w).value.model, active, policies);
      }
    }
  }

  lemma {:induction false} PersistAllSound(s: Store, attempts: seq<Attempt>, run: nat, policies: Policies)
    requires Sound(s, policies) && run < |s.runs| && AllConsistent(attempts, run, policies)
    ensures Sound(PersistAll(s, attempts), policies) && |PersistAll(s, attempts).runs| == |s.runs|
  {
    if attempts != [] {
      var init, a := attempts[..|attempts| - 1], attempts[|attempts| - 1];
      PersistAllSound(s, init, run, policies);
      assert a in attempts;
      PersistSound(PersistAll(s, init), a, policies);
    }
  }

  lemma PersistSound(s: Store, a: Attempt, policies: Policies)
    requires Sound(s, policies) && a.run < |s.runs| && Consistent(a, policies)
    ensures Sound(Persisted(s, a), policies) && |Persisted(s, a).runs| == |s.runs|
  {
    StepSound(s, Persist(a), policies);
  }

  /** Every detection run of a valid policy, whatever its windows and whatever raises, keeps the
      aggregates, lifecycle walks and counts of all stored findings. */
  lemma RunKeepsFindingsSound(s: Store, rows: seq<WindowRow>, job: Job, policy: Policy, active: seq<Suppression>,
                              read: WindowRow -> Option<Reading>, policies: Policies)
    requires Sound(s, policies) && job.run == |s.runs|
    requires ValidPolicy(policy) && ReadsInBounds(read) && policies(policy.hash) == policy.thresholds
    requires job.decide == EngineOf(policy, active, read)
    ensures Sound(EvaluateAll(Started(s), rows, job), policies)
  {
    StepSound(s, StartRun, policies);
    AttemptsConsistent(rows, job, policy, active, read, policies);
    PersistAllSound(Started(s), AttemptsOf(rows, job), job.run, policies);
  }
}
