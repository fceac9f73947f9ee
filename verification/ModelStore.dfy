/**
 The registry tables and the service calls that change them.
 */
module ModelStores {
  import opened Sequences
  import opened ModelRegistry
  import opened RegistryInvariants

  class ModelStore {
    var runs: map<string, TrainingRun>
    var models: map<string, Model>
    var log: seq<Promotion>

    ghost function Snapshot(): Registry
      reads this
    {
      Registry(runs, models, log)
    }

    constructor ()
      ensures Snapshot() == EmptyRegistry && Sound(Snapshot())
    {
      runs, models, log := map[], map[], [];
    }

    // --- Transactions ----------------------------------------------------------------------

    method CreateTrainingRunIfNoRunning(t: TrainCall) returns (created: bool)
      modifies `runs
      ensures created <==> !Refuses(old(Snapshot()), t)
      ensures Snapshot() == if created then RunStarted(old(Snapshot()), t) else old(Snapshot())
    {
      var running := exists run :: run in runs && runs[run].ns == t.ns && runs[run].status == RunRunning;
      if running || t.run in runs {
        return false;
      }
      runs := runs[t.run := TrainingRun(t.ns, t.dataset, t.datasetHash, "pending", RunRunning)];
      return true;
    }

    method UpdateTrainingRunSplit(run: string, split: string)
      requires run in runs
      modifies `runs
      ensures Snapshot() == SplitUpdated(old(Snapshot()), run, split)
    {
      runs := runs[run := runs[run].(split := split)];
    }

    method RegisterModelVersion(id: string, t: TrainCall) returns (inserted: bool)
      modifies `models
      ensures inserted <==> id !in old(models)
      ensures Snapshot() == if inserted then Registered(old(Snapshot()), id, t) else old(Snapshot())
    {
      if id in models {
        return false;
      }
      models := models[id := Model(t.run, t.ns, t.dataset, t.datasetHash, t.split, Candidate, false, false)];
      return true;
    }

    /** Checks every candidate before it writes anything. */
    method FinalizeTrainingRunSuccess(run: string, ids: seq<string>) returns (finalized: bool)
      modifies `runs, `models
      ensures finalized <==> Finalizable(old(Snapshot()), run, ids)
      ensures Snapshot() == if finalized then Finalized(old(Snapshot()), run, ids) else old(Snapshot())
    {
      if ids == [] || run !in runs || runs[run].status != RunRunning {
        return false;
      }
      for n := 0 to |ids|
        invariant forall id :: id in ids[..n] ==>
                    id in models && models[id].run == run && !models[id].verified && Matches(models[id], runs[run])
      {
        assert ids[..n + 1] == ids[..n] + [ids[n]];
        if ids[n] !in models || models[ids[n]].run != run || models[ids[n]].verified || !Matches(models[ids[n]], runs[run]) {
          assert ids[n] in ids;
          return false;
        }
      }
      assert ids[..|ids|] == ids;
      runs := runs[run := runs[run].(status := RunSuccess)];
      models := map id | id in models :: if id in ids then models[id].(verified := true) else models[id];
      return true;
    }

    method DeleteModelsForTrainingRun(run: string)
      modifies `models
      ensures models == WithoutRun(old(models), run)
    {
      models := map id | id in models && models[id].run != run :: models[id];
    }

    method CompleteTrainingRun(run: string, status: RunStatus)
      requires run in runs
      modifies `runs
      ensures runs == old(runs)[run := old(runs)[run].(status := status)]
    {
      runs := runs[run := runs[run].(status := status)];
    }

    method ChampionModel(ns: Namespace) returns (champion: Option<string>)
      requires Sound(Snapshot())
      ensures champion == ChampionOf(Snapshot(), ns)
    {
      ChampionIsReplay(Snapshot(), ns);
      champion := None;
      if exists id :: id in models && models[id].ns == ns && models[id].lifecycle == Champion {
        var id :| id in models && models[id].ns == ns && models[id].lifecycle == Champion;
        assert IsChampion(Snapshot(), id, ns);
        champion := Some(id);
      }
    }

    /** Promoting the champion again is a no-op. */
    method PromoteModel(id: string, action: Action) returns (previous: Option<string>)
      requires Sound(Snapshot()) && id in models
      modifies `models, `log
      ensures Snapshot() == Promoted(old(Snapshot()), id, action)
      ensures previous == ChampionOf(old(Snapshot()), old(models[id].ns))
    {
      var ns := models[id].ns;
      previous := ChampionModel(ns);
      if previous == Some(id) {
        return;
      }
      ChampionIsReplay(Snapshot(), ns);
      assert previous.Some? ==> IsChampion(Snapshot(), previous.value, ns);
      if previous.Some? {
        models := models[previous.value := models[previous.value].(lifecycle := Retired)];
      }
      models := models[id := models[id].(lifecycle := Champion)];
      log := log + [Promotion(ns, previous, Some(id), action)];
    }

    // --- Service calls ---------------------------------------------------------------------

    method PromoteIfAllowed(id: string, action: Action, confirm: bool, filesOk: bool) returns (refusal: Option<Refusal>)
      requires Sound(Snapshot())
      modifies `models, `log
      ensures refusal == PromoteCheck(old(Snapshot()), id, action, confirm, filesOk)
      ensures Snapshot() == PromoteChecked(old(Snapshot()), id, action, confirm, filesOk) && Sound(Snapshot())
    {
      refusal := PromoteCheck(Registry(runs, models, log), id, action, confirm, filesOk);
      if refusal.None? {
        PromotedSound(Snapshot(), id, action);
        var previous := PromoteModel(id, action);
      }
    }

    method RecommendModel(id: string, confirm: bool, filesOk: bool) returns (refusal: Option<Refusal>)
      requires Sound(Snapshot())
      modifies `models
      ensures refusal == RecommendCheck(old(Snapshot()), id, confirm, filesOk)
      ensures Snapshot() == Perform(old(Snapshot()), Call.RecommendModel(id, confirm, filesOk)) && Sound(Snapshot())
    {
      PerformSound(Snapshot(), Call.RecommendModel(id, confirm, filesOk));
      refusal := RecommendCheck(Registry(runs, models, log), id, confirm, filesOk);
      if refusal.None? {
        models := models[id := models[id].(lifecycle := Recommended)];
      }
    }

    method RetireModel(id: string, confirm: bool, filesOk: bool) returns (refusal: Option<Refusal>)
      requires Sound(Snapshot())
      modifies `models, `log
      ensures refusal == RetireCheck(old(Snapshot()), id, confirm, filesOk)
      ensures Snapshot() == Perform(old(Snapshot()), Call.RetireModel(id, confirm, filesOk)) && Sound(Snapshot())
    {
      PerformSound(Snapshot(), Call.RetireModel(id, confirm, filesOk));
      refusal := RetireCheck(Registry(runs, models, log), id, confirm, filesOk);
      if refusal.None? {
        var ns := models[id].ns;
        models := models[id := models[id].(lifecycle := Retired)];
        log := log + [Promotion(ns, Some(id), None, Retire)];
      }
    }

    // --- Training --------------------------------------------------------------------------

    /** Trains family after family; the first failure ends the loop. */
    method TrainFamilies(t: TrainCall) returns (ok: bool, ids: seq<string>)
      modifies `models
      ensures Progress(Snapshot(), ok) == AllTrials(old(Snapshot()), t, t.trials)
      ensures ok ==> ids == IdsOf(t.trials)
    {
      ok, ids := true, [];
      var n := 0;
      while ok && n < |t.trials|
        invariant 0 <= n <= |t.trials|
        invariant Progress(Snapshot(), ok) == AllTrials(old(Snapshot()), t, t.trials[..n])
        invariant ok ==> ids == IdsOf(t.trials[..n])
      {
        var trial := t.trials[n];
        assert t.trials[..n + 1][..n] == t.trials[..n];
        ok := trial.builds;
        if ok {
          ok := RegisterModelVersion(trial.id, t);
        }
        if ok {
          ok := trial.checks;
        }
        if ok {
          models := models[trial.id := models[trial.id].(evaluated := true)];
          ids := ids + [trial.id];
        }
        n := n + 1;
      }
      StopsAtFailure(old(Snapshot()), t, t.trials, n);
      assert t.trials[..|t.trials|] == t.trials;
    }

    method GiveUp(run: string)
      requires run in runs
      modifies `runs, `models
      ensures Snapshot() == RunGivenUp(old(Snapshot()), run)
    {
      DeleteModelsForTrainingRun(run);
      CompleteTrainingRun(run, RunFailed);
    }

    /** The lifecycle part of a successful training call; it never undoes the training. */
    method AutoRecommend(t: TrainCall) returns (recommended: Option<string>)
      requires Sound(Snapshot()) && Sound(AutoRecommended(Snapshot(), t))
      requires Picked(t).Some? && Picked(t).value in models ==>
                 models[Picked(t).value].verified && models[Picked(t).value].lifecycle != Champion
      modifies `models, `log
      ensures Snapshot() == AutoRecommended(old(Snapshot()), t)
    {
      recommended := Picked(t);
      if recommended.None? || recommended.value !in models {
        return None;
      }
      RecommendedExactly(Snapshot(), recommended.value);
      models := models[recommended.value := models[recommended.value].(lifecycle := Recommended)];
      if t.gate {
        var refusal := PromoteIfAllowed(recommended.value, Promote, true, t.filesOk);
      }
    }

    method Train(t: TrainCall) returns (trained: bool)
      requires Sound(Snapshot())
      modifies this
      ensures Snapshot() == Trained(old(Snapshot()), t) && Sound(Snapshot())
      ensures trained <==> t.run !in old(runs) && t.run in runs && runs[t.run].status == RunSuccess
    {
      TrainedSound(Snapshot(), t);
      var created := CreateTrainingRunIfNoRunning(t);
      if !created {
        return false;
      }
      if !t.splits {
        GiveUp(t.run);
        return false;
      }
      StartedSound(old(Snapshot()), t);
      UpdateTrainingRunSplit(t.run, t.split);
      TrialsSound(Snapshot(), t, t.trials);
      var ok, ids := TrainFamilies(t);
      ghost var built := Snapshot();
      if ok {
        ok := FinalizeTrainingRunSuccess(t.run, ids);
      }
      if !ok {
        GiveUp(t.run);
        return false;
      }
      FinalizedSound(built, t, ids);
      if !AllVerify(Registry(runs, models, log), ids, t.verifiesAgain) {
        GiveUp(t.run);
        return false;
      }
      AutoRecommendedSound(Snapshot(), t);
      PickedVerified(Snapshot(), t);
      var recommended := AutoRecommend(t);
      return true;
    }
  }

  /** Families after a failed one are never reached. */
  lemma StopsAtFailure(r: Registry, t: TrainCall, trials: seq<Trial>, n: nat)
    requires n <= |trials| && (AllTrials(r, t, trials[..n]).ok ==> n == |trials|)
    ensures AllTrials(r, t, trials) == AllTrials(r, t, trials[..n])
  {
    if n < |trials| {
      var m := |trials| - 1;
      assert trials[..m][..n] == trials[..n];
      StopsEarly(r, t, trials[..m], n);
    } else {
      assert trials[..n] == trials;
    }
  }

  lemma {:induction false} StopsEarly(r: Registry, t: TrainCall, trials: seq<Trial>, n: nat)
    requires n <= |trials| && !AllTrials(r, t, trials[..n]).ok
    ensures AllTrials(r, t, trials) == AllTrials(r, t, trials[..n])
  {
    if n < |trials| {
      assert trials[..|trials| - 1][..n] == trials[..n];
      StopsEarly(r, t, trials[..|trials| - 1], n);
    } else {
      assert trials[..n] == trials;
    }
  }

  lemma PickedVerified(r: Registry, t: TrainCall)
    requires OwnCandidates(r, t.run)
    requires forall id :: id in IdsOf(t.trials) ==> id in r.models && r.models[id].verified && r.models[id].run == t.run
    ensures Picked(t).Some? ==>
              && Picked(t).value in r.models && r.models[Picked(t).value].verified
              && r.models[Picked(t).value].lifecycle != Champion
  {
    if Picked(t).Some? {
      IdAmong(t.trials, t.pick.value);
      assert Picked(t).value in IdsOf(t.trials);
    }
  }
}
