/**
 What every serial history of registry calls keeps: one champion per namespace, verified models
 of successful runs only, and a promotion log that can be replayed.
 */
module RegistryInvariants {
  import opened Sequences
  import opened ModelRegistry

  // --- The invariant -----------------------------------------------------------------------

  /** The champion a namespace's log entries lead to. */
  function Replay(log: seq<Promotion>, ns: Namespace): Option<string> {
    if log == [] then None
    else if log[|log| - 1].ns == ns then log[|log| - 1].next
    else Replay(log[..|log| - 1], ns)
  }

  /** Each entry starts from where the entry before it in its namespace led. */
  ghost predicate Chained(log: seq<Promotion>) {
    forall i :: 0 <= i < |log| ==> log[i].previous == Replay(log[..i], log[i].ns)
  }

  /** A namespace's champion is exactly the model its log leads to. */
  ghost predicate Linked(r: Registry) {
    forall id, ns :: IsChampion(r, id, ns) <==> Replay(r.log, ns) == Some(id)
  }

  ghost predicate ModelSound(r: Registry, m: Model) {
    && m.run in r.runs
    && (m.verified ==> r.runs[m.run].status == RunSuccess && Matches(m, r.runs[m.run]))
    && (m.lifecycle != Candidate ==> m.verified)
  }

  ghost predicate ModelsSound(r: Registry) {
    forall id :: id in r.models ==> ModelSound(r, r.models[id])
  }

  predicate BothRunning(a: TrainingRun, b: TrainingRun) {
    a.ns == b.ns && a.status == RunRunning && b.status == RunRunning
  }

  ghost predicate OneRunning(r: Registry) {
    forall a, b :: a in r.runs && b in r.runs && BothRunning(r.runs[a], r.runs[b]) ==> a == b
  }

  ghost predicate Sound(r: Registry) {
    ModelsSound(r) && Linked(r) && Chained(r.log) && OneRunning(r)
  }

  /** The champion is the one the log leads to, so there is at most one. */
  lemma ChampionIsReplay(r: Registry, ns: Namespace)
    requires Linked(r)
    ensures ChampionOf(r, ns) == Replay(r.log, ns)
    ensures forall a, b :: IsChampion(r, a, ns) && IsChampion(r, b, ns) ==> a == b
  {
    if Replay(r.log, ns).Some? {
      assert IsChampion(r, Replay(r.log, ns).value, ns);
    }
  }

  // --- The promotion log -------------------------------------------------------------------

  lemma ReplayAppend(log: seq<Promotion>, p: Promotion, ns: Namespace)
    ensures Replay(log + [p], ns) == if p.ns == ns then p.next else Replay(log, ns)
  {
    assert (log + [p])[..|log|] == log;
  }

  lemma ChainAppend(log: seq<Promotion>, p: Promotion)
    requires Chained(log) && p.previous == Replay(log, p.ns)
    ensures Chained(log + [p])
  {
    forall i | 0 <= i < |log + [p]| ensures (log + [p])[i].previous == Replay((log + [p])[..i], (log + [p])[i].ns) {
      assert (log + [p])[..i] == log[..i];
      assert i < |log| ==> log[i].previous == Replay(log[..i], log[i].ns);
      assert i == |log| ==> log[..i] == log;
    }
  }

  /** Changing champions within one namespace. */
  lemma LinkedAfter(r: Registry, after: Registry, p: Promotion)
    requires Linked(r) && after.log == r.log + [p]
    requires forall id, ns :: IsChampion(after, id, ns) <==> if ns == p.ns then p.next == Some(id) else IsChampion(r, id, ns)
    ensures Linked(after)
  {
    forall id, ns ensures IsChampion(after, id, ns) <==> Replay(after.log, ns) == Some(id) {
      ReplayAppend(r.log, p, ns);
    }
  }

  lemma PromotedChampions(r: Registry, id: string, action: Action)
    requires Linked(r) && id in r.models && ChampionOf(r, r.models[id].ns) != Some(id)
    ensures var after, ns := Promoted(r, id, action), r.models[id].ns;
            forall j, n :: IsChampion(after, j, n) <==> if n == ns then j == id else IsChampion(r, j, n)
  {
    var ns, after := r.models[id].ns, Promoted(r, id, action);
    var previous := ChampionOf(r, ns);
    ChampionIsReplay(r, ns);
    assert previous.Some? ==> IsChampion(r, previous.value, ns);
    forall j, n ensures IsChampion(after, j, n) <==> if n == ns then j == id else IsChampion(r, j, n) {
      assert IsChampion(r, j, n) && n == ns ==> previous == Some(j);
    }
  }

  lemma PromotedModels(r: Registry, id: string, action: Action)
    requires ModelsSound(r) && Linked(r) && id in r.models && r.models[id].verified
    ensures ModelsSound(Promoted(r, id, action))
  {
    var ns, after := r.models[id].ns, Promoted(r, id, action);
    var previous := ChampionOf(r, ns);
    ChampionIsReplay(r, ns);
    assert previous.Some? ==> IsChampion(r, previous.value, ns) && ModelSound(r, r.models[previous.value]);
    forall j | j in after.models ensures ModelSound(after, after.models[j]) {
      assert ModelSound(r, r.models[j]);
    }
  }

  lemma PromotedSound(r: Registry, id: string, action: Action)
    requires Sound(r) && id in r.models && r.models[id].verified
    ensures Sound(Promoted(r, id, action)) && IsChampion(Promoted(r, id, action), id, r.models[id].ns)
  {
    var ns := r.models[id].ns;
    var previous, after := ChampionOf(r, ns), Promoted(r, id, action);
    ChampionIsReplay(r, ns);
    PromotedModels(r, id, action);
    if previous != Some(id) {
      PromotedChampions(r, id, action);
      LinkedAfter(r, after, Promotion(ns, previous, Some(id), action));
      ChainAppend(r.log, Promotion(ns, previous, Some(id), action));
    }
  }

  lemma RetiredSound(r: Registry, id: string)
    requires Sound(r) && id in r.models && r.models[id].lifecycle == Champion
    ensures Sound(RetiredModel(r, id)) && ChampionOf(RetiredModel(r, id), r.models[id].ns) == None
  {
    var ns, after := r.models[id].ns, RetiredModel(r, id);
    var p := Promotion(ns, Some(id), None, Retire);
    assert IsChampion(r, id, ns);
    ChampionIsReplay(r, ns);
    LinkedAfter(r, after, p);
    ChainAppend(r.log, p);
    ChampionIsReplay(after, ns);
    ReplayAppend(r.log, p, ns);
    forall j | j in after.models ensures ModelSound(after, after.models[j]) {
      assert ModelSound(r, r.models[j]);
    }
  }

  /** Rolling back to the champion that a promotion retired makes it champion again. */
  lemma RollbackUndoes(r: Registry, a: string, b: string, filesOk: bool)
    requires Sound(r) && b in r.models && a != b && IsChampion(r, a, r.models[b].ns)
    requires PromoteCheck(r, b, Promote, true, filesOk).None? && r.models[a].evaluated
    ensures var after := PromoteChecked(r, b, Promote, true, filesOk);
            && IsChampion(after, b, r.models[b].ns)
            && PromoteCheck(after, a, Rollback, true, filesOk).None?
            && var back := PromoteChecked(after, a, Rollback, true, filesOk);
               IsChampion(back, a, r.models[b].ns) && back.models[b].lifecycle == Retired
  {
    var ns, after := r.models[b].ns, Promoted(r, b, Promote);
    ChampionIsReplay(r, ns);
    PromotedSound(r, b, Promote);
    ChampionIsReplay(after, ns);
    assert ModelSound(r, r.models[a]);
    PromotedSound(after, a, Rollback);
  }

  // --- Steps that leave champions alone ----------------------------------------------------

  ghost predicate SameChampions(r: Registry, after: Registry) {
    after.log == r.log && forall id, ns :: IsChampion(after, id, ns) <==> IsChampion(r, id, ns)
  }

  /** Recommending a verified model keeps the invariant exactly when it is not champion. */
  lemma RecommendedExactly(r: Registry, id: string)
    requires Sound(r) && id in r.models && r.models[id].verified
    ensures Sound(RecommendedModel(r, id)) <==> r.models[id].lifecycle != Champion
  {
    var after := RecommendedModel(r, id);
    if r.models[id].lifecycle == Champion {
      assert IsChampion(r, id, r.models[id].ns);
      assert !IsChampion(after, id, r.models[id].ns);
    } else {
      assert SameChampions(r, after);
      forall j | j in after.models ensures ModelSound(after, after.models[j]) {
        assert ModelSound(r, r.models[j]);
      }
    }
  }

  ghost predicate NoChampionIn(r: Registry, run: string) {
    forall id :: id in r.models && r.models[id].run == run ==> r.models[id].lifecycle != Champion
  }

  /** Giving a run up keeps the invariant exactly when none of its models has become champion:
      deleting a champion would leave the log leading to a model that is gone. */
  lemma GivenUpExactly(r: Registry, run: string)
    requires Sound(r) && run in r.runs
    ensures Sound(RunGivenUp(r, run)) <==> NoChampionIn(r, run)
  {
    var after := RunGivenUp(r, run);
    if NoChampionIn(r, run) {
      assert SameChampions(r, after);
      forall j | j in after.models ensures ModelSound(after, after.models[j]) {
        assert ModelSound(r, r.models[j]);
      }
    } else {
      var id :| id in r.models && r.models[id].run == run && r.models[id].lifecycle == Champion;
      assert IsChampion(r, id, r.models[id].ns);
      assert !IsChampion(after, id, r.models[id].ns);
    }
  }

  // --- A training call ---------------------------------------------------------------------

  /** While a run trains, its models are unverified candidates. */
  ghost predicate Building(r: Registry, t: TrainCall) {
    && t.run in r.runs && r.runs[t.run] == TrainingRun(t.ns, t.dataset, t.datasetHash, t.split, RunRunning)
    && forall id :: id in r.models && r.models[id].run == t.run ==>
         r.models[id].lifecycle == Candidate && !r.models[id].verified
  }

  ghost predicate OwnCandidates(r: Registry, run: string) {
    forall id :: id in r.models && r.models[id].run == run ==> r.models[id].lifecycle == Candidate
  }

  lemma StartedSound(r: Registry, t: TrainCall)
    requires Sound(r) && !Refuses(r, t)
    ensures Sound(RunStarted(r, t)) && OwnCandidates(RunStarted(r, t), t.run)
    ensures Sound(SplitUpdated(RunStarted(r, t), t.run, t.split))
    ensures Building(SplitUpdated(RunStarted(r, t), t.run, t.split), t)
  {
    forall id | id in r.models ensures r.models[id].run != t.run {
      assert ModelSound(r, r.models[id]);
    }
    UntouchedSound(r, RunStarted(r, t), t.run);
    UntouchedSound(r, SplitUpdated(RunStarted(r, t), t.run, t.split), t.run);
  }

  /** Changing one run that has no models. */
  lemma UntouchedSound(r: Registry, after: Registry, run: string)
    requires Sound(r) && after.models == r.models && after.log == r.log && run in after.runs
    requires after.runs == r.runs[run := after.runs[run]]
    requires forall id :: id in r.models ==> r.models[id].run != run
    requires OneRunning(after)
    ensures Sound(after)
  {
    assert SameChampions(r, after);
    forall id | id in after.models ensures ModelSound(after, after.models[id]) {
      assert ModelSound(r, r.models[id]);
    }
  }

  lemma TrialSound(r: Registry, t: TrainCall, trial: Trial)
    requires Sound(r) && Building(r, t)
    ensures Sound(OneTrial(r, t, trial).registry) && Building(OneTrial(r, t, trial).registry, t)
  {
    var after := OneTrial(r, t, trial).registry;
    assert SameChampions(r, after);
    forall id | id in after.models ensures ModelSound(after, after.models[id]) {
      assert id != trial.id ==> ModelSound(r, r.models[id]);
      assert id in r.models ==> ModelSound(r, r.models[id]);
    }
  }

  lemma {:induction false} TrialsSound(r: Registry, t: TrainCall, trials: seq<Trial>)
    requires Sound(r) && Building(r, t)
    ensures Sound(AllTrials(r, t, trials).registry) && Building(AllTrials(r, t, trials).registry, t)
  {
    if trials != [] {
      TrialsSound(r, t, trials[..|trials| - 1]);
      TrialSound(AllTrials(r, t, trials[..|trials| - 1]).registry, t, trials[|trials| - 1]);
    }
  }

  lemma FinalizedSound(r: Registry, t: TrainCall, ids: seq<string>)
    requires Sound(r) && Building(r, t) && Finalizable(r, t.run, ids)
    ensures Sound(Finalized(r, t.run, ids)) && OwnCandidates(Finalized(r, t.run, ids), t.run)
    ensures forall id :: id in ids ==> id in Finalized(r, t.run, ids).models && Finalized(r, t.run, ids).models[id].verified
  {
    var after := Finalized(r, t.run, ids);
    assert SameChampions(r, after);
    forall id | id in after.models ensures ModelSound(after, after.models[id]) {
      assert ModelSound(r, r.models[id]);
    }
  }

  lemma {:induction false} IdAmong(trials: seq<Trial>, i: nat)
    requires i < |trials|
    ensures IdsOf(trials)[i] == trials[i].id
  {
    if i < |trials| - 1 {
      IdAmong(trials[..|trials| - 1], i);
    }
  }

  lemma AutoRecommendedSound(r: Registry, t: TrainCall)
    requires Sound(r) && OwnCandidates(r, t.run)
    requires forall id :: id in IdsOf(t.trials) ==> id in r.models && r.models[id].verified && r.models[id].run == t.run
    ensures Sound(AutoRecommended(r, t))
  {
    if Picked(t).Some? {
      var id := Picked(t).value;
      IdAmong(t.trials, t.pick.value);
      assert id in IdsOf(t.trials);
      RecommendedExactly(r, id);
      if t.gate && PromoteCheck(RecommendedModel(r, id), id, Promote, true, t.filesOk).None? {
        PromotedSound(RecommendedModel(r, id), id, Promote);
      }
    }
  }

  /** A training call keeps the invariant wherever it fails: until it ends, none of its models
      can be champion. */
  lemma TrainedSound(r: Registry, t: TrainCall)
    requires Sound(r)
    ensures Sound(Trained(r, t))
  {
    if !Refuses(r, t) {
      StartedSound(r, t);
      if t.splits {
        var ready := SplitUpdated(RunStarted(r, t), t.run, t.split);
        TrialsSound(ready, t, t.trials);
        AfterTrialsSound(AllTrials(ready, t, t.trials), t);
      } else {
        GivenUpExactly(RunStarted(r, t), t.run);
      }
    }
  }

  lemma AfterTrialsSound(built: Progress, t: TrainCall)
    requires Sound(built.registry) && Building(built.registry, t)
    ensures Sound(AfterTrials(built, t))
  {
    var r, ids := built.registry, IdsOf(t.trials);
    GivenUpExactly(r, t.run);
    if Finalizable(r, t.run, ids) {
      FinalizedSound(r, t, ids);
      GivenUpExactly(Finalized(r, t.run, ids), t.run);
      AutoRecommendedSound(Finalized(r, t.run, ids), t);
    }
  }

  // --- A promotion in the middle of a training call -----------------------------------------

  /** Families that were trained so far are registered as unverified candidates with an evaluation. */
  lemma {:induction false} TrialsRegistered(r: Registry, t: TrainCall, trials: seq<Trial>, i: nat)
    requires AllTrials(r, t, trials).ok && i < |trials|
    ensures var after := AllTrials(r, t, trials).registry;
            && trials[i].id in after.models
            && after.models[trials[i].id] == Model(t.run, t.ns, t.dataset, t.datasetHash, t.split, Candidate, false, true)
  {
    var n := |trials| - 1;
    if i < n {
      TrialsRegistered(r, t, trials[..n], i);
    }
  }

  lemma TrialsFinalizable(r: Registry, t: TrainCall)
    requires Building(r, t) && AllTrials(r, t, t.trials).ok && t.trials != []
    ensures Finalizable(AllTrials(r, t, t.trials).registry, t.run, IdsOf(t.trials))
  {
    forall id | id in IdsOf(t.trials)
      ensures id in AllTrials(r, t, t.trials).registry.models
              && AllTrials(r, t, t.trials).registry.models[id]
              == Model(t.run, t.ns, t.dataset, t.datasetHash, t.split, Candidate, false, true)
    {
      var i :| 0 <= i < |t.trials| && IdsOf(t.trials)[i] == id;
      IdAmong(t.trials, i);
      TrialsRegistered(r, t, t.trials, i);
    }
  }

  /** A training call between its finalization and its second verification. */
  function MidTraining(r: Registry, t: TrainCall): Registry {
    Finalized(AllTrials(SplitUpdated(RunStarted(r, t), t.run, t.split), t, t.trials).registry, t.run, IdsOf(t.trials))
  }

  lemma MidTrainingCandidate(r: Registry, t: TrainCall, i: nat)
    requires Sound(r) && !Refuses(r, t) && t.splits && i < |t.trials|
    requires AllTrials(SplitUpdated(RunStarted(r, t), t.run, t.split), t, t.trials).ok
    ensures var mid, id := MidTraining(r, t), t.trials[i].id;
            && Sound(mid) && t.run in mid.runs && id in mid.models && mid.models[id].run == t.run
            && mid.models[id].verified && PromoteCheck(mid, id, Promote, true, true).None?
  {
    var ready := SplitUpdated(RunStarted(r, t), t.run, t.split);
    StartedSound(r, t);
    TrialsSound(ready, t, t.trials);
    TrialsFinalizable(ready, t);
    TrialsRegistered(ready, t, t.trials, i);
    IdAmong(t.trials, i);
    assert t.trials[i].id in IdsOf(t.trials);
    FinalizedSound(AllTrials(ready, t, t.trials).registry, t, IdsOf(t.trials));
  }

  /** The calls are not one transaction: once a training call has finalized its run, another caller may
      promote any of its candidates. If the call then fails, giving the run up deletes a champion; if it
      succeeds, recommending that candidate takes the title away. Either way the log is left leading to a
      model that is not champion. */
  lemma PromotedMidTraining(r: Registry, t: TrainCall, i: nat)
    requires Sound(r) && !Refuses(r, t) && t.splits && i < |t.trials|
    requires AllTrials(SplitUpdated(RunStarted(r, t), t.run, t.split), t, t.trials).ok
    ensures var id := t.trials[i].id;
            && id in MidTraining(r, t).models
            && var promoted := PromoteChecked(MidTraining(r, t), id, Promote, true, true);
               && Sound(promoted) && t.run in promoted.runs && id in promoted.models
               && !Sound(RunGivenUp(promoted, t.run)) && !Sound(RecommendedModel(promoted, id))
  {
    var mid, id := MidTraining(r, t), t.trials[i].id;
    MidTrainingCandidate(r, t, i);
    PromotedSound(mid, id, Promote);
    var promoted := Promoted(mid, id, Promote);
    assert promoted.models[id].run == t.run && promoted.models[id].verified && promoted.models[id].lifecycle == Champion;
    GivenUpExactly(promoted, t.run);
    RecommendedExactly(promoted, id);
  }

  // --- What the service calls ask for and do -----------------------------------------------

  /** A finalized model of a successful run of its own profile, dataset and split. */
  ghost predicate InOrder(r: Registry, m: Model) {
    && m.verified && m.run in r.runs && r.runs[m.run].status == RunSuccess
    && m.ns == r.runs[m.run].ns && m.dataset == r.runs[m.run].dataset
    && m.datasetHash == r.runs[m.run].datasetHash && m.split == r.runs[m.run].split
  }

  /** What each call on a model asks for: it is confirmed, the model is registered, its files and rows are in
      order, and it is in the right place of its life; all but retirement ask for an evaluation too. */
  lemma ChecksExactly(r: Registry, id: string, confirm: bool, filesOk: bool)
    ensures PromoteCheck(r, id, Promote, confirm, filesOk).None? <==>
            && confirm && id in r.models && filesOk && InOrder(r, r.models[id]) && r.models[id].evaluated
            && (r.models[id].lifecycle == Candidate || r.models[id].lifecycle == Recommended)
    ensures PromoteCheck(r, id, Rollback, confirm, filesOk).None? <==>
            && confirm && id in r.models && filesOk && InOrder(r, r.models[id]) && r.models[id].evaluated
            && r.models[id].lifecycle == Retired
    ensures RecommendCheck(r, id, confirm, filesOk).None? <==>
            && confirm && id in r.models && filesOk && InOrder(r, r.models[id]) && r.models[id].evaluated
            && r.models[id].lifecycle == Candidate
    ensures RetireCheck(r, id, confirm, filesOk).None? <==>
            && confirm && id in r.models && filesOk && InOrder(r, r.models[id])
            && r.models[id].lifecycle == Champion
  {
  }

  /** A model whose files do not verify is refused every call, and nothing changes. */
  lemma BadFilesRefused(r: Registry, call: Call)
    requires !call.Train? && !call.filesOk
    ensures Perform(r, call) == r
  {
    ChecksExactly(r, call.id, call.confirm, false);
  }

  /** Models other than these are as before. */
  ghost predicate OthersKept(r: Registry, after: Registry, changed: set<string>) {
    && after.models.Keys == r.models.Keys && after.runs == r.runs
    && forall id :: id in r.models && id !in changed ==> after.models[id] == r.models[id]
  }

  /** A promotion or rollback makes the model champion, retires the one that was, and logs the change. */
  lemma PromotionExactly(r: Registry, id: string, action: Action, filesOk: bool)
    requires Sound(r) && action != Retire && PromoteCheck(r, id, action, true, filesOk).None?
    ensures var after, ns := PromoteChecked(r, id, action, true, filesOk), r.models[id].ns;
            var previous := ChampionOf(r, ns);
            && OthersKept(r, after, {id} + if previous.Some? then {previous.value} else {})
            && after.models[id] == r.models[id].(lifecycle := Champion)
            && (previous.Some? ==> previous.value != id
                                   && after.models[previous.value] == r.models[previous.value].(lifecycle := Retired))
            && after.log == r.log + [Promotion(ns, previous, Some(id), action)]
  {
    ChampionIsReplay(r, r.models[id].ns);
  }

  /** A retirement leaves its model retired and logs that nobody follows. */
  lemma RetirementExactly(r: Registry, id: string, confirm: bool, filesOk: bool)
    requires RetireCheck(r, id, confirm, filesOk).None?
    ensures var after := Perform(r, RetireModel(id, confirm, filesOk));
            && OthersKept(r, after, {id}) && after.models[id] == r.models[id].(lifecycle := Retired)
            && after.log == r.log + [Promotion(r.models[id].ns, Some(id), None, Retire)]
  {
  }

  lemma RecommendationExactly(r: Registry, id: string, confirm: bool, filesOk: bool)
    requires RecommendCheck(r, id, confirm, filesOk).None?
    ensures var after := Perform(r, RecommendModel(id, confirm, filesOk));
            && OthersKept(r, after, {id}) && after.models[id] == r.models[id].(lifecycle := Recommended)
            && after.log == r.log
  {
  }

  // --- How a training call ends ------------------------------------------------------------

  /** Every family builds a bundle that checks, under an id of its own. */
  ghost predicate AllBuild(r: Registry, trials: seq<Trial>) {
    && (forall i :: 0 <= i < |trials| ==> trials[i].builds && trials[i].checks && trials[i].id !in r.models)
    && (forall i, j :: 0 <= i < j < |trials| ==> trials[i].id != trials[j].id)
  }

  ghost predicate TrialOf(trials: seq<Trial>, id: string) { exists i :: 0 <= i < |trials| && trials[i].id == id }

  lemma TrialAppend(init: seq<Trial>, last: Trial, id: string)
    ensures TrialOf(init + [last], id) <==> TrialOf(init, id) || id == last.id
  {
    var trials := init + [last];
    assert trials[|init|] == last;
    if TrialOf(init, id) {
      var i :| 0 <= i < |init| && init[i].id == id;
      assert trials[i].id == id;
    }
  }

  lemma AllBuildAppend(r: Registry, init: seq<Trial>, last: Trial)
    ensures AllBuild(r, init + [last]) <==>
            AllBuild(r, init) && last.builds && last.checks && last.id !in r.models && !TrialOf(init, last.id)
  {
    var trials := init + [last];
    assert trials[|init|] == last;
    assert forall i :: 0 <= i < |init| ==> trials[i] == init[i];
  }

  /** The models that families leave behind: the old ones, and an evaluated candidate for each family. */
  ghost predicate Registers(r: Registry, after: Registry, t: TrainCall, trials: seq<Trial>) {
    && (forall id :: id in after.models <==> id in r.models || TrialOf(trials, id))
    && (forall id :: id in r.models ==> id in after.models && after.models[id] == r.models[id])
    && (forall id :: TrialOf(trials, id) ==>
          && id in after.models
          && after.models[id] == Model(t.run, t.ns, t.dataset, t.datasetHash, t.split, Candidate, false, true))
  }

  lemma RegistersAppend(r: Registry, mid: Registry, t: TrainCall, init: seq<Trial>, last: Trial)
    requires Registers(r, mid, t, init)
    ensures OneTrial(mid, t, last).ok <==> last.builds && last.checks && last.id !in r.models && !TrialOf(init, last.id)
    ensures OneTrial(mid, t, last).ok ==> Registers(r, OneTrial(mid, t, last).registry, t, init + [last])
  {
    forall id ensures TrialOf(init + [last], id) <==> TrialOf(init, id) || id == last.id { TrialAppend(init, last, id); }
  }

  lemma {:induction false} TrialsExactly(r: Registry, t: TrainCall, trials: seq<Trial>)
    ensures AllTrials(r, t, trials).ok <==> AllBuild(r, trials)
    ensures AllTrials(r, t, trials).ok ==> Registers(r, AllTrials(r, t, trials).registry, t, trials)
  {
    if trials != [] {
      var init, last := trials[..|trials| - 1], trials[|trials| - 1];
      assert trials == init + [last];
      TrialsExactly(r, t, init);
      AllBuildAppend(r, init, last);
      if AllTrials(r, t, init).ok {
        RegistersAppend(r, AllTrials(r, t, init).registry, t, init, last);
      }
    }
  }

  /** What has to go well for a training call to succeed. */
  ghost predicate AllWell(r: Registry, t: TrainCall) {
    t.splits && t.trials != [] && AllBuild(r, t.trials) && t.verifiesAgain
  }

  lemma {:induction false} IdsAreTrials(trials: seq<Trial>, id: string)
    ensures id in IdsOf(trials) <==> TrialOf(trials, id)
  {
    if trials != [] {
      var init, last := trials[..|trials| - 1], trials[|trials| - 1];
      assert trials == init + [last];
      IdsAreTrials(init, id);
      TrialAppend(init, last, id);
    }
  }

  /** Once all families are registered the run can be finalized, and the bundles verify again if their files do. */
  lemma BuiltExactly(r: Registry, after: Registry, t: TrainCall)
    requires Registers(r, after, t, t.trials) && t.trials != []
    requires t.run in after.runs && after.runs[t.run] == TrainingRun(t.ns, t.dataset, t.datasetHash, t.split, RunRunning)
    ensures Finalizable(after, t.run, IdsOf(t.trials))
    ensures AllVerify(Finalized(after, t.run, IdsOf(t.trials)), IdsOf(t.trials), t.verifiesAgain) <==> t.verifiesAgain
  {
    forall id ensures id in IdsOf(t.trials) <==> TrialOf(t.trials, id) { IdsAreTrials(t.trials, id); }
    assert IdsOf(t.trials)[0] in IdsOf(t.trials);
  }

  lemma AutoRecommendedRuns(r: Registry, t: TrainCall)
    ensures AutoRecommended(r, t).runs == r.runs
  {
  }

  /** A training call that is not refused succeeds exactly when its split is found, there is a family, all
      families build under new ids, and the finished bundles verify again; otherwise its run has failed and
      no model of it is left. */
  lemma TrainingExactly(r: Registry, t: TrainCall)
    requires !Refuses(r, t)
    ensures var after := Trained(r, t);
            && (forall run :: run in after.runs <==> run in r.runs || run == t.run)
            && (forall run :: run in r.runs ==> after.runs[run] == r.runs[run])
            && after.runs[t.run] == TrainingRun(t.ns, t.dataset, t.datasetHash, if t.splits then t.split else "pending",
                                                if AllWell(r, t) then RunSuccess else RunFailed)
            && (!AllWell(r, t) ==> forall id :: id in after.models ==> after.models[id].run != t.run)
  {
    if t.splits {
      var ready := SplitUpdated(RunStarted(r, t), t.run, t.split);
      var built := AllTrials(ready, t, t.trials);
      TrialsExactly(ready, t, t.trials);
      assert AllBuild(ready, t.trials) <==> AllBuild(r, t.trials);
      if built.ok && t.trials != [] {
        BuiltExactly(ready, built.registry, t);
        AutoRecommendedRuns(Finalized(built.registry, t.run, IdsOf(t.trials)), t);
      } else {
        NothingFinalizable(built, t);
      }
    }
  }

  lemma NothingFinalizable(built: Progress, t: TrainCall)
    requires t.run in built.registry.runs && (!built.ok || t.trials == [])
    ensures AfterTrials(built, t) == RunGivenUp(built.registry, t.run)
  {
  }

  /** The evaluated models of a run that was finalized, none of which has been recommended yet. */
  ghost predicate Fresh(r: Registry, t: TrainCall) {
    && t.run in r.runs && r.runs[t.run] == TrainingRun(t.ns, t.dataset, t.datasetHash, t.split, RunSuccess)
    && forall id :: TrialOf(t.trials, id) ==>
         id in r.models && r.models[id] == Model(t.run, t.ns, t.dataset, t.datasetHash, t.split, Candidate, true, true)
  }

  lemma FinalizedFresh(r: Registry, after: Registry, t: TrainCall)
    requires Registers(r, after, t, t.trials)
    requires t.run in after.runs && after.runs[t.run] == TrainingRun(t.ns, t.dataset, t.datasetHash, t.split, RunRunning)
    ensures Fresh(Finalized(after, t.run, IdsOf(t.trials)), t)
  {
    forall id ensures id in IdsOf(t.trials) <==> TrialOf(t.trials, id) { IdsAreTrials(t.trials, id); }
  }

  ghost function LifecycleAfter(t: TrainCall, id: string): Lifecycle {
    if t.pick.Some? && t.pick.value < |t.trials| && t.trials[t.pick.value].id == id
    then if t.gate && t.filesOk then Champion else Recommended
    else Candidate
  }

  lemma PickExactly(r: Registry, t: TrainCall, id: string)
    requires Fresh(r, t) && TrialOf(t.trials, id)
    ensures var after := AutoRecommended(r, t);
            && id in after.models
            && after.models[id]
               == Model(t.run, t.ns, t.dataset, t.datasetHash, t.split, LifecycleAfter(t, id), true, true)
  {
    if Picked(t).Some? {
      var picked := Picked(t).value;
      assert TrialOf(t.trials, picked);
      ChecksExactly(RecommendedModel(r, picked), picked, true, t.filesOk);
    }
  }

  /** A training call that succeeds leaves a verified and evaluated model of its run for each family: the picked
      one champion if it passes the gate and its files verify, else recommended, the others candidates. */
  lemma SuccessExactly(r: Registry, t: TrainCall, id: string)
    requires !Refuses(r, t) && AllWell(r, t) && TrialOf(t.trials, id)
    ensures var after := Trained(r, t);
            && id in after.models
            && after.models[id]
               == Model(t.run, t.ns, t.dataset, t.datasetHash, t.split, LifecycleAfter(t, id), true, true)
  {
    var ready := SplitUpdated(RunStarted(r, t), t.run, t.split);
    var built := AllTrials(ready, t, t.trials);
    assert AllBuild(ready, t.trials);
    TrialsExactly(ready, t, t.trials);
    BuiltExactly(ready, built.registry, t);
    FinalizedFresh(ready, built.registry, t);
    PickExactly(Finalized(built.registry, t.run, IdsOf(t.trials)), t, id);
  }

  // --- Every serial history ----------------------------------------------------------------

  lemma PerformSound(r: Registry, call: Call)
    requires Sound(r)
    ensures Sound(Perform(r, call))
  {
    match call
    case Train(t) => TrainedSound(r, t);
    case RecommendModel(id, confirm, filesOk) =>
      if RecommendCheck(r, id, confirm, filesOk).None? { RecommendedExactly(r, id); }
    case PromoteModel(id, confirm, filesOk) =>
      if PromoteCheck(r, id, Promote, confirm, filesOk).None? { PromotedSound(r, id, Promote); }
    case RollbackModel(id, confirm, filesOk) =>
      if PromoteCheck(r, id, Rollback, confirm, filesOk).None? { PromotedSound(r, id, Rollback); }
    case RetireModel(id, confirm, filesOk) =>
      if RetireCheck(r, id, confirm, filesOk).None? { RetiredSound(r, id); }
  }

  lemma {:induction false} PerformAllSound(r: Registry, calls: seq<Call>)
    requires Sound(r)
    ensures Sound(PerformAll(r, calls))
  {
    if calls != [] {
      PerformAllSound(r, calls[..|calls| - 1]);
      PerformSound(PerformAll(r, calls[..|calls| - 1]), calls[|calls| - 1]);
    }
  }

  /** After every serial history: one champion at most in each namespace, the one its log replays
      to; every champion is a verified model of a successful run; the log is a chain. */
  lemma RegistryInvariant(calls: seq<Call>, ns: Namespace)
    ensures var r := PerformAll(EmptyRegistry, calls);
            && ChampionOf(r, ns) == Replay(r.log, ns)
            && (forall a, b :: IsChampion(r, a, ns) && IsChampion(r, b, ns) ==> a == b)
            && (forall id :: IsChampion(r, id, ns) ==> r.models[id].verified)
            && (forall id :: id in r.models && r.models[id].verified ==>
                  r.models[id].run in r.runs && r.runs[r.models[id].run].status == RunSuccess)
            && Chained(r.log) && OneRunning(r)
  {
    var r := PerformAll(EmptyRegistry, calls);
    PerformAllSound(EmptyRegistry, calls);
    ChampionIsReplay(r, ns);
    forall id | id in r.models ensures ModelSound(r, r.models[id]) { }
  }
}
