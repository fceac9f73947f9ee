/**
 The stored tables of the detection engine and the two transactions that change findings.
 */
module FindingStores {
  import opened Sequences
  import opened Fusion
  import opened Decision
  import opened Findings

  /** What a persisted evaluation reports back. */
  datatype Outcome = Outcome(inserted: bool, finding: Option<nat>, isNew: bool, isUpdate: bool)

  class FindingStore {
    var evaluations: seq<Evaluation>
    var findings: seq<Finding>
    var occurrences: seq<Occurrence>
    var history: seq<Change>
    var runs: seq<RunCounts>

    function Snapshot(): Store
      reads this
    {
      Store(evaluations, findings, occurrences, history, runs)
    }

    constructor ()
      ensures Snapshot() == EmptyStore
    {
      evaluations, findings, occurrences, history, runs := [], [], [], [], [];
    }

    method StartRun() returns (run: nat)
      modifies this
      ensures Snapshot() == Started(old(Snapshot())) && run == |old(runs)|
    {
      run := |runs|;
      runs := runs + [NoCounts];
    }

    method IsEvaluated(key: EvaluationKey) returns (found: bool)
      ensures found <==> Evaluated(Snapshot(), key)
    {
      found := false;
      for n := 0 to |evaluations|
        invariant found <==> exists e :: e in evaluations[..n] && e.key == key
      {
        assert evaluations[..n + 1] == evaluations[..n] + [evaluations[n]];
        if evaluations[n].key == key {
          assert evaluations[n] in evaluations[..n + 1];
          found := true;
        }
      }
      assert evaluations[..|evaluations|] == evaluations;
    }

    method FindMatch(fingerprint: Fingerprint, t: int) returns (best: Option<nat>)
      ensures best == LatestMatch(findings, fingerprint, t)
    {
      best := None;
      for n := 0 to |findings|
        invariant best == LatestMatch(findings[..n], fingerprint, t)
      {
        assert findings[..n + 1][..n] == findings[..n];
        if Correlates(findings[n], fingerprint, t) {
          best := LatestOf(findings, best, n);
        }
      }
      assert findings[..|findings|] == findings;
    }

    method FindEnded(fingerprint: Fingerprint) returns (best: Option<nat>)
      ensures best == LatestEnded(findings, fingerprint)
    {
      best := None;
      for n := 0 to |findings|
        invariant best == LatestEnded(findings[..n], fingerprint)
      {
        assert findings[..n + 1][..n] == findings[..n];
        if EndedOf(findings[n], fingerprint) {
          best := LatestOf(findings, best, n);
        }
      }
      assert findings[..|findings|] == findings;
    }

    /** Opens a finding that has no occurrence yet. */
    method OpenFinding(a: Attempt) returns (id: nat)
      requires a.fingerprint.Some?
      modifies `findings, `history
      ensures id == |old(findings)|
      ensures findings == old(findings) + [NewFinding(old(Snapshot()), a).(occurrenceCount := 0)]
      ensures history == old(history) + [Change(id, None, Open)]
    {
      var related := FindEnded(a.fingerprint.value);
      id := |findings|;
      findings := findings
        + [Finding(a.fingerprint.value, Open, a.score, a.risk, a.start, a.start, 0, related)];
      history := history + [Change(id, None, Open)];
    }

    /** Widens the finding's span to the hit and raises its score and risk to the hit's. */
    method UpdateFinding(id: nat, a: Attempt)
      requires id < |findings|
      modifies `findings
      ensures var f := old(findings[id]);
              findings == old(findings)[id := Merged(f, a).(occurrenceCount := f.occurrenceCount)]
    {
      var f := findings[id];
      if f.lastSeen < a.start { f := f.(lastSeen := a.start); }
      if f.firstSeen > a.start { f := f.(firstSeen := a.start); }
      if f.score < a.score { f := f.(risk := a.risk, score := a.score); }
      findings := findings[id := f];
    }

    method CountWindow(run: nat, status: Status, isNew: bool, isUpdate: bool)
      modifies `runs
      ensures runs == CountedIn(old(runs), run, status, isNew, isUpdate)
    {
      if run < |runs| {
        runs := runs[run := Counted(runs[run], status, isNew, isUpdate)];
      }
    }

    /** One transaction: an evaluation already stored under the same key is left alone. */
    method PersistEvaluation(a: Attempt) returns (outcome: Outcome)
      modifies this
      ensures Snapshot() == Persisted(old(Snapshot()), a)
      ensures outcome.inserted <==> !Evaluated(old(Snapshot()), a.key)
      ensures outcome.inserted ==>
                && outcome.finding == evaluations[|old(evaluations)|].finding
                && (outcome.isNew <==> |findings| > |old(findings)|)
                && (outcome.isUpdate <==> outcome.finding.Some? && !outcome.isNew)
    {
      var known := IsEvaluated(a.key);
      if known {
        return Outcome(false, None, false, false);
      }
      var row := |evaluations|;
      evaluations := evaluations + [EvaluationOf(a, None)];
      outcome := Outcome(true, None, false, false);
      if a.fingerprint.Some? {
        var id: nat;
        var best := FindMatch(a.fingerprint.value, a.start);
        if best.None? {
          id := OpenFinding(a);
        } else {
          id := best.value;
          UpdateFinding(id, a);
        }
        evaluations := evaluations[row := evaluations[row].(finding := Some(id))];
        occurrences := occurrences + [Occurrence(id, row, a.start, a.score, a.risk)];
        findings := findings[id := findings[id].(occurrenceCount := findings[id].occurrenceCount + 1)];
        outcome := Outcome(true, Some(id), best.None?, best.Some?);
      }
      CountWindow(a.run, a.status, outcome.isNew, outcome.isUpdate);
    }

    /** Refuses an unknown finding, an ending that was not confirmed and a step outside the graph. */
    method TransitionFinding(id: nat, to: State, confirm: bool) returns (error: Option<TransitionError>)
      modifies this
      ensures error == TransitionCheck(old(Snapshot()), id, to, confirm)
      ensures Snapshot() == Transitioned(old(Snapshot()), id, to, confirm)
    {
      if id >= |findings| {
        return Some(NotFound);
      }
      if Ended(to) && !confirm {
        return Some(NeedsConfirmation);
      }
      var from := findings[id].state;
      if !Allowed(from, to) {
        return Some(InvalidTransition);
      }
      findings := findings[id := findings[id].(state := to)];
      history := history + [Change(id, Some(from), to)];
      return None;
    }
  }
}
