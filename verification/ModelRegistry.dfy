/**
 The model registry: training runs, the models they leave behind, and the promotion log. Every
 service call is specified as a function on the three tables.
 */
module ModelRegistry {
  import opened Sequences
  import opened Tables

  datatype Namespace = Namespace(datasetKind: DatasetKind, profile: string)

  datatype RunStatus = RunRunning | RunSuccess | RunFailed

  datatype TrainingRun = TrainingRun(ns: Namespace, dataset: string, datasetHash: string, split: string, status: RunStatus)

  datatype Lifecycle = Candidate | Recommended | Champion | Retired

  datatype Model = Model(
    run: string, ns: Namespace, dataset: string, datasetHash: string, split: string, lifecycle: Lifecycle,
    verified: bool, evaluated: bool)

  datatype Action = Promote | Rollback | Retire

  datatype Promotion = Promotion(ns: Namespace, previous: Option<string>, next: Option<string>, action: Action)

  datatype Registry = Registry(runs: map<string, TrainingRun>, models: map<string, Model>, log: seq<Promotion>)

  const EmptyRegistry := Registry(map[], map[], [])

  // --- Training runs -----------------------------------------------------------------------

  predicate RunningIn(r: Registry, ns: Namespace) {
    exists run :: run in r.runs && r.runs[run].ns == ns && r.runs[run].status == RunRunning
  }

  /** A started run; its split is not known yet. */
  function RunStarted(r: Registry, t: TrainCall): Registry {
    r.(runs := r.runs[t.run := TrainingRun(t.ns, t.dataset, t.datasetHash, "pending", RunRunning)])
  }

  function SplitUpdated(r: Registry, run: string, split: string): Registry
    requires run in r.runs
  {
    r.(runs := r.runs[run := r.runs[run].(split := split)])
  }

  function Registered(r: Registry, id: string, t: TrainCall): Registry {
    r.(models := r.models[id := Model(t.run, t.ns, t.dataset, t.datasetHash, t.split, Candidate, false, false)])
  }

  function EvaluationRecorded(r: Registry, id: string): Registry
    requires id in r.models
  {
    r.(models := r.models[id := r.models[id].(evaluated := true)])
  }

  predicate Matches(m: Model, run: TrainingRun) {
    m.ns == run.ns && m.dataset == run.dataset && m.datasetHash == run.datasetHash && m.split == run.split
  }

  /** What finalization asks for: a running run and candidates of that run, none final yet, that
      agree with it on dataset, profile and split. */
  predicate Finalizable(r: Registry, run: string, ids: seq<string>) {
    && ids != []
    && run in r.runs && r.runs[run].status == RunRunning
    && forall id :: id in ids ==>
         id in r.models && r.models[id].run == run && !r.models[id].verified && Matches(r.models[id], r.runs[run])
  }

  function Finalized(r: Registry, run: string, ids: seq<string>): Registry
    requires run in r.runs
  {
    r.(runs := r.runs[run := r.runs[run].(status := RunSuccess)],
       models := map id | id in r.models :: if id in ids then r.models[id].(verified := true) else r.models[id])
  }

  function WithoutRun(models: map<string, Model>, run: string): map<string, Model> {
    map id | id in models && models[id].run != run :: models[id]
  }

  /** A failed run keeps none of its models. */
  function RunGivenUp(r: Registry, run: string): Registry
    requires run in r.runs
  {
    r.(runs := r.runs[run := r.runs[run].(status := RunFailed)], models := WithoutRun(r.models, run))
  }

  // --- Champions ---------------------------------------------------------------------------

  predicate IsChampion(r: Registry, id: string, ns: Namespace) {
    id in r.models && r.models[id].ns == ns && r.models[id].lifecycle == Champion
  }

  ghost function ChampionOf(r: Registry, ns: Namespace): Option<string> {
    if exists id :: IsChampion(r, id, ns) then
      var id :| IsChampion(r, id, ns);
      Some(id)
    else None
  }

  function WithLifecycle(models: map<string, Model>, id: string, status: Lifecycle): map<string, Model>
    requires id in models
  {
    models[id := models[id].(lifecycle := status)]
  }

  /** The previous champion retires, the model becomes champion, and the change is logged. */
  ghost function Promoted(r: Registry, id: string, action: Action): Registry
    requires id in r.models
  {
    var ns := r.models[id].ns;
    var previous := ChampionOf(r, ns);
    if previous == Some(id) then r
    else
      var others := if previous.Some? then WithLifecycle(r.models, previous.value, Retired) else r.models;
      r.(models := WithLifecycle(others, id, Champion), log := r.log + [Promotion(ns, previous, Some(id), action)])
  }

  function RetiredModel(r: Registry, id: string): Registry
    requires id in r.models
  {
    r.(models := WithLifecycle(r.models, id, Retired), log := r.log + [Promotion(r.models[id].ns, Some(id), None, Retire)])
  }

  function RecommendedModel(r: Registry, id: string): Registry
    requires id in r.models
  {
    r.(models := WithLifecycle(r.models, id, Recommended))
  }

  // --- Service checks ----------------------------------------------------------------------

  datatype Refusal = NotConfirmed | NotRegistered | WrongStatus | NotVerified | NoEvaluation

  /** Public verification: a finalized model of a successful run whose files are in order. */
  predicate Verifies(r: Registry, id: string, filesOk: bool)
    requires id in r.models
  {
    var m := r.models[id];
    filesOk && m.verified && m.run in r.runs && r.runs[m.run].status == RunSuccess && Matches(m, r.runs[m.run])
  }

  function PromoteCheck(r: Registry, id: string, action: Action, confirm: bool, filesOk: bool): Option<Refusal> {
    if !confirm then Some(NotConfirmed)
    else if id !in r.models then Some(NotRegistered)
    else if action == Rollback && r.models[id].lifecycle != Retired then Some(WrongStatus)
    else if action != Rollback && r.models[id].lifecycle != Candidate && r.models[id].lifecycle != Recommended
    then Some(WrongStatus)
    else if !Verifies(r, id, filesOk) then Some(NotVerified)
    else if !r.models[id].evaluated then Some(NoEvaluation)
    else None
  }

  ghost function PromoteChecked(r: Registry, id: string, action: Action, confirm: bool, filesOk: bool): Registry {
    if PromoteCheck(r, id, action, confirm, filesOk).Some? then r else Promoted(r, id, action)
  }

  function RecommendCheck(r: Registry, id: string, confirm: bool, filesOk: bool): Option<Refusal> {
    if !confirm then Some(NotConfirmed)
    else if id !in r.models then Some(NotRegistered)
    else if !Verifies(r, id, filesOk) then Some(NotVerified)
    else if r.models[id].lifecycle != Candidate then Some(WrongStatus)
    else if !r.models[id].evaluated then Some(NoEvaluation)
    else None
  }

  function RetireCheck(r: Registry, id: string, confirm: bool, filesOk: bool): Option<Refusal> {
    if !confirm then Some(NotConfirmed)
    else if id !in r.models then Some(NotRegistered)
    else if r.models[id].lifecycle != Champion then Some(WrongStatus)
    else if !Verifies(r, id, filesOk) then Some(NotVerified)
    else None
  }

  // --- Training ----------------------------------------------------------------------------

  /** One model family: whether fitting and bundling succeed, and the check of the new bundle. */
  datatype Trial = Trial(id: string, builds: bool, checks: bool)

  /** A training call, with the outcome of everything outside the registry: whether a split was
      found, how each family went, whether the finished bundles verify again, which candidate is
      picked for recommendation, and whether it passes the synthetic promotion gate. */
  datatype TrainCall = TrainCall(
    run: string, ns: Namespace, dataset: string, datasetHash: string, splits: bool, split: string, trials: seq<Trial>,
    verifiesAgain: bool, pick: Option<nat>, gate: bool, filesOk: bool)

  datatype Progress = Progress(registry: Registry, ok: bool)

  function OneTrial(r: Registry, t: TrainCall, trial: Trial): (p: Progress)
    ensures p.registry.runs == r.runs && p.registry.log == r.log
  {
    if !trial.builds || trial.id in r.models then Progress(r, false)
    else if !trial.checks then Progress(Registered(r, trial.id, t), false)
    else Progress(EvaluationRecorded(Registered(r, trial.id, t), trial.id), true)
  }

  /** Families are trained in order up to the first failure. */
  function AllTrials(r: Registry, t: TrainCall, trials: seq<Trial>): (p: Progress)
    ensures p.registry.runs == r.runs && p.registry.log == r.log
  {
    if trials == [] then Progress(r, true)
    else
      var before := AllTrials(r, t, trials[..|trials| - 1]);
      if before.ok then OneTrial(before.registry, t, trials[|trials| - 1]) else before
  }

  function IdsOf(trials: seq<Trial>): (ids: seq<string>)
    ensures |ids| == |trials|
  {
    if trials == [] then [] else IdsOf(trials[..|trials| - 1]) + [trials[|trials| - 1].id]
  }

  predicate AllVerify(r: Registry, ids: seq<string>, filesOk: bool) {
    forall id :: id in ids ==> id in r.models && Verifies(r, id, filesOk)
  }

  function Picked(t: TrainCall): Option<string> {
    if t.pick.Some? && t.pick.value < |t.trials| then Some(t.trials[t.pick.value].id) else None
  }

  /** A successful run recommends the picked candidate and may promote it. */
  ghost function AutoRecommended(r: Registry, t: TrainCall): Registry {
    if Picked(t).None? || Picked(t).value !in r.models then r
    else
      var next := RecommendedModel(r, Picked(t).value);
      if t.gate then PromoteChecked(next, Picked(t).value, Promote, true, t.filesOk) else next
  }

  predicate Refuses(r: Registry, t: TrainCall) { RunningIn(r, t.ns) || t.run in r.runs }

  /** A whole training call: any failure up to the last verification gives the run up. */
  ghost function Trained(r: Registry, t: TrainCall): Registry {
    if Refuses(r, t) then r
    else if !t.splits then RunGivenUp(RunStarted(r, t), t.run)
    else
      var built := AllTrials(SplitUpdated(RunStarted(r, t), t.run, t.split), t, t.trials);
      AfterTrials(built, t)
  }

  ghost function AfterTrials(built: Progress, t: TrainCall): Registry
    requires t.run in built.registry.runs
  {
    var r, ids := built.registry, IdsOf(t.trials);
    if !built.ok || !Finalizable(r, t.run, ids) then RunGivenUp(r, t.run)
    else if !AllVerify(Finalized(r, t.run, ids), ids, t.verifiesAgain) then RunGivenUp(Finalized(r, t.run, ids), t.run)
    else AutoRecommended(Finalized(r, t.run, ids), t)
  }

  datatype Call =
    | Train(training: TrainCall)
    | RecommendModel(id: string, confirm: bool, filesOk: bool)
    | PromoteModel(id: string, confirm: bool, filesOk: bool)
    | RollbackModel(id: string, confirm: bool, filesOk: bool)
    | RetireModel(id: string, confirm: bool, filesOk: bool)

  ghost function Perform(r: Registry, call: Call): Registry {
    match call
    case Train(t) => Trained(r, t)
    case RecommendModel(id, confirm, filesOk) =>
      if RecommendCheck(r, id, confirm, filesOk).Some? then r else RecommendedModel(r, id)
    case PromoteModel(id, confirm, filesOk) => PromoteChecked(r, id, Promote, confirm, filesOk)
    case RollbackModel(id, confirm, filesOk) => PromoteChecked(r, id, Rollback, confirm, filesOk)
    case RetireModel(id, confirm, filesOk) =>
      if RetireCheck(r, id, confirm, filesOk).Some? then r else RetiredModel(r, id)
  }

  ghost function PerformAll(r: Registry, calls: seq<Call>): Registry {
    if calls == [] then r else Perform(PerformAll(r, calls[..|calls| - 1]), calls[|calls| - 1])
  }
}
