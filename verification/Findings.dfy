/**
 Stored detection results: evaluations, findings with their occurrences and history, and the
 counters of each run. The specification of persisting one evaluation and of one lifecycle change.

 A row's id is its position in its table, which stands for a fresh random id.
 */
module Findings {
  import opened Sequences
  import opened Tables
  import opened Fusion
  import opened Decision

  // --- Tables ------------------------------------------------------------------------------

  datatype State = Open | Acknowledged | Investigating | Muted | Resolved | FalsePositive

  datatype Finding = Finding(
    fingerprint: Fingerprint, state: State, score: int, risk: RiskLevel, firstSeen: int, lastSeen: int,
    occurrenceCount: nat, related: Option<nat>)

  datatype Occurrence = Occurrence(finding: nat, evaluation: nat, start: int, score: int, risk: RiskLevel)

  datatype EvaluationKey = EvaluationKey(windowId: string, inputHash: string, policyHash: string, modelId: string)

  datatype Evaluation = Evaluation(run: nat, key: EvaluationKey, start: int, status: Status, score: int, finding: Option<nat>)

  datatype Change = Change(finding: nat, from: Option<State>, to: State)

  datatype RunCounts = RunCounts(
    examined: nat, evaluated: nat, skipped: nat, findings: nat, occurrences: nat, newFindings: nat, updatedFindings: nat)

  const NoCounts := RunCounts(0, 0, 0, 0, 0, 0, 0)

  datatype Store = Store(
    evaluations: seq<Evaluation>, findings: seq<Finding>, occurrences: seq<Occurrence>, history: seq<Change>,
    runs: seq<RunCounts>)

  const EmptyStore := Store([], [], [], [], [])

  /** The evaluation of one window, ready to be stored; a finding carries its fingerprint. */
  datatype Attempt = Attempt(
    run: nat, key: EvaluationKey, start: int, status: Status, score: int, risk: RiskLevel, fingerprint: Option<Fingerprint>)

  // --- Queries -----------------------------------------------------------------------------

  predicate Ended(state: State) { state == Resolved || state == FalsePositive }

  /** An active finding of the fingerprint whose span comes within an hour of the time. */
  predicate Correlates(f: Finding, fingerprint: Fingerprint, t: int) {
    f.fingerprint == fingerprint && !Ended(f.state) && f.firstSeen <= t + HOUR && f.lastSeen >= t - HOUR
  }

  predicate EndedOf(f: Finding, fingerprint: Fingerprint) { f.fingerprint == fingerprint && Ended(f.state) }

  function LatestOf(findings: seq<Finding>, best: Option<nat>, i: nat): Option<nat>
    requires i < |findings| && (best.Some? ==> best.value < |findings|)
  {
    if best.None? || findings[i].lastSeen > findings[best.value].lastSeen then Some(i) else best
  }

  /** The correlated finding seen last. */
  function LatestMatch(findings: seq<Finding>, fingerprint: Fingerprint, t: int): (r: Option<nat>)
    ensures r.Some? ==> r.value < |findings| && Correlates(findings[r.value], fingerprint, t)
  {
    if findings == [] then None
    else
      var n := |findings| - 1;
      var best := LatestMatch(findings[..n], fingerprint, t);
      if Correlates(findings[n], fingerprint, t) then LatestOf(findings, best, n) else best
  }

  /** The ended finding of the fingerprint seen last. */
  function LatestEnded(findings: seq<Finding>, fingerprint: Fingerprint): (r: Option<nat>)
    ensures r.Some? ==> r.value < |findings| && EndedOf(findings[r.value], fingerprint)
  {
    if findings == [] then None
    else
      var n := |findings| - 1;
      var best := LatestEnded(findings[..n], fingerprint);
      if EndedOf(findings[n], fingerprint) then LatestOf(findings, best, n) else best
  }

  predicate Evaluated(s: Store, key: EvaluationKey) {
    exists e :: e in s.evaluations && e.key == key
  }

  // --- Persisting one evaluation -----------------------------------------------------------

  function NewFinding(s: Store, a: Attempt): Finding
    requires a.fingerprint.Some?
  {
    Finding(a.fingerprint.value, Open, a.score, a.risk, a.start, a.start, 1, LatestEnded(s.findings, a.fingerprint.value))
  }

  function Merged(f: Finding, a: Attempt): Finding {
    f.(lastSeen := if f.lastSeen < a.start then a.start else f.lastSeen,
       firstSeen := if f.firstSeen > a.start then a.start else f.firstSeen,
       risk := if f.score < a.score then a.risk else f.risk,
       score := if f.score < a.score then a.score else f.score,
       occurrenceCount := f.occurrenceCount + 1)
  }

  function Target(s: Store, a: Attempt): nat
    requires a.fingerprint.Some?
  {
    var i := LatestMatch(s.findings, a.fingerprint.value, a.start);
    if i.Some? then i.value else |s.findings|
  }

  function Counted(c: RunCounts, status: Status, isNew: bool, isUpdate: bool): RunCounts {
    RunCounts(
      c.examined + 1,
      c.evaluated + (if status == SkippedStatus then 0 else 1),
      c.skipped + (if status == SkippedStatus then 1 else 0),
      c.findings + (if status == FindingStatus then 1 else 0),
      c.occurrences + (if isNew || isUpdate then 1 else 0),
      c.newFindings + (if isNew then 1 else 0),
      c.updatedFindings + (if isUpdate then 1 else 0))
  }

  function CountedIn(runs: seq<RunCounts>, run: nat, status: Status, isNew: bool, isUpdate: bool): seq<RunCounts> {
    if run < |runs| then runs[run := Counted(runs[run], status, isNew, isUpdate)] else runs
  }

  function EvaluationOf(a: Attempt, finding: Option<nat>): Evaluation {
    Evaluation(a.run, a.key, a.start, a.status, a.score, finding)
  }

  /** One transaction: nothing for a key that was evaluated before; otherwise the evaluation and,
      for a finding, its occurrence in the correlated finding or in a new one. */
  function Persisted(s: Store, a: Attempt): Store {
    if Evaluated(s, a.key) then s
    else if a.fingerprint.None? then
      s.(evaluations := s.evaluations + [EvaluationOf(a, None)],
         runs := CountedIn(s.runs, a.run, a.status, false, false))
    else
      var i := Target(s, a);
      var isNew := i == |s.findings|;
      Store(s.evaluations + [EvaluationOf(a, Some(i))],
            if isNew then s.findings + [NewFinding(s, a)] else s.findings[i := Merged(s.findings[i], a)],
            s.occurrences + [Occurrence(i, |s.evaluations|, a.start, a.score, a.risk)],
            if isNew then s.history + [Change(i, None, Open)] else s.history,
            CountedIn(s.runs, a.run, a.status, isNew, !isNew))
  }

  // --- Lifecycle ---------------------------------------------------------------------------

  predicate Allowed(from: State, to: State) {
    match from
    case Open => to != Open
    case Acknowledged => to != Open && to != Acknowledged
    case Investigating => to != Open && to != Investigating
    case Muted => to == Open || Ended(to)
    case Resolved => false
    case FalsePositive => false
  }

  datatype TransitionError = NotFound | NeedsConfirmation | InvalidTransition

  function TransitionCheck(s: Store, i: nat, to: State, confirm: bool): Option<TransitionError> {
    if i >= |s.findings| then Some(NotFound)
    else if Ended(to) && !confirm then Some(NeedsConfirmation)
    else if !Allowed(s.findings[i].state, to) then Some(InvalidTransition)
    else None
  }

  /** A refused change leaves the store as it is. */
  function Transitioned(s: Store, i: nat, to: State, confirm: bool): Store {
    if TransitionCheck(s, i, to, confirm).Some? then s
    else
      s.(findings := s.findings[i := s.findings[i].(state := to)],
         history := s.history + [Change(i, Some(s.findings[i].state), to)])
  }

  function Started(s: Store): Store { s.(runs := s.runs + [NoCounts]) }
}
