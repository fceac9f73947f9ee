/**
 What every reachable set of stored findings satisfies: aggregates, lifecycle walks and counts.
 */
module FindingInvariants {
  import opened Sequences
  import opened Tables
  import opened Fusion
  import opened Decision
  import opened Findings

  // --- Steps and runs ----------------------------------------------------------------------

  datatype Step =
    | StartRun
    | Persist(attempt: Attempt)
    | Transition(finding: nat, to: State, confirm: bool)

  function Take(s: Store, step: Step): Store {
    match step
    case StartRun => Started(s)
    case Persist(a) => Persisted(s, a)
    case Transition(i, to, confirm) => Transitioned(s, i, to, confirm)
  }

  function TakeAll(s: Store, steps: seq<Step>): Store {
    if steps == [] then s else Take(TakeAll(s, steps[..|steps| - 1]), steps[|steps| - 1])
  }

  /** The risk thresholds behind a policy hash. */
  type Policies = string -> RiskThresholds

  /** What the decision on a window guarantees about the evaluation to store. */
  ghost predicate Consistent(a: Attempt, policies: Policies) {
    && (a.status == FindingStatus <==> a.fingerprint.Some?)
    && (a.fingerprint.Some? ==> a.risk == RiskForScore(a.score, policies(a.fingerprint.value.policyHash)))
  }

  /** Evaluations are stored for runs that were started. */
  ghost predicate Admissible(s: Store, step: Step, policies: Policies) {
    step.Persist? ==> step.attempt.run < |s.runs| && Consistent(step.attempt, policies)
  }

  ghost predicate AdmissibleRun(s: Store, steps: seq<Step>, policies: Policies) {
    forall n :: 0 <= n < |steps| ==> Admissible(TakeAll(s, steps[..n]), steps[n], policies)
  }

  // --- Aggregates --------------------------------------------------------------------------

  function OccurrencesOf(i: nat): Occurrence -> bool { (o: Occurrence) => o.finding == i }

  /** Every occurrence but the last is followed by another one within an hour. */
  ghost predicate Chained(occurrences: seq<Occurrence>, lastSeen: int) {
    forall o :: o in occurrences && o.start < lastSeen ==> Followed(occurrences, o.start)
  }

  ghost predicate Followed(occurrences: seq<Occurrence>, t: int) {
    exists next :: next in occurrences && t < next.start <= t + HOUR
  }

  /** A finding sums up its stored occurrences. */
  ghost predicate SumsUp(f: Finding, occurrences: seq<Occurrence>, policies: Policies) {
    && f.occurrenceCount == |occurrences| > 0
    && (forall o :: o in occurrences ==> f.firstSeen <= o.start <= f.lastSeen && o.score <= f.score)
    && (exists o :: o in occurrences && o.start == f.firstSeen)
    && (exists o :: o in occurrences && o.start == f.lastSeen)
    && (exists o :: o in occurrences && o.score == f.score)
    && f.risk == RiskForScore(f.score, policies(f.fingerprint.policyHash))
    && Chained(occurrences, f.lastSeen)
  }

  ghost predicate Aggregated(s: Store, policies: Policies) {
    && (forall i :: 0 <= i < |s.findings| ==> SumsUp(s.findings[i], Filter(s.occurrences, OccurrencesOf(i)), policies))
    && (forall o :: o in s.occurrences ==> o.finding < |s.findings|)
  }

  lemma MergeSumsUp(f: Finding, occurrences: seq<Occurrence>, a: Attempt, o: Occurrence, policies: Policies)
    requires SumsUp(f, occurrences, policies) && a.fingerprint == Some(f.fingerprint) && Consistent(a, policies)
    requires f.firstSeen <= a.start + HOUR && f.lastSeen >= a.start - HOUR
    requires o.start == a.start && o.score == a.score
    ensures SumsUp(Merged(f, a), occurrences + [o], policies)
  {
    var g, more := Merged(f, a), occurrences + [o];
    assert forall x :: x in occurrences ==> x in more;
    assert o in more;
    forall x | x in more && x.start < g.lastSeen ensures Followed(more, x.start) {
      MergeFollowed(f, occurrences, a, o, x, policies);
    }
  }

  lemma MergeFollowed(f: Finding, occurrences: seq<Occurrence>, a: Attempt, o: Occurrence, x: Occurrence,
                      policies: Policies)
    requires SumsUp(f, occurrences, policies) && f.firstSeen <= a.start + HOUR && f.lastSeen >= a.start - HOUR
    requires o.start == a.start && x in occurrences + [o] && x.start < Merged(f, a).lastSeen
    ensures Followed(occurrences + [o], x.start)
  {
    var more := occurrences + [o];
    assert forall y :: y in occurrences ==> y in more;
    assert o in more;
    if x in occurrences && x.start < f.lastSeen {
      assert Followed(occurrences, x.start);
      var y :| y in occurrences && x.start < y.start <= x.start + HOUR;
      assert y in more;
    } else if x in occurrences {
      assert x.start < o.start <= x.start + HOUR;
    } else {
      NextAfter(f, occurrences, a.start, policies);
    }
  }

  /** A time at most an hour before the first occurrence, or inside the span, has one soon after it. */
  lemma NextAfter(f: Finding, occurrences: seq<Occurrence>, t: int, policies: Policies)
    requires SumsUp(f, occurrences, policies) && f.firstSeen <= t + HOUR && t < f.lastSeen
    ensures exists y :: y in occurrences && t < y.start <= t + HOUR
  {
    if t < f.firstSeen {
      var y :| y in occurrences && y.start == f.firstSeen;
      assert t < y.start <= t + HOUR;
    } else {
      var y :| y in occurrences && y.start == f.firstSeen;
      ClimbPast(f, occurrences, t, y, policies);
    }
  }

  /** Following the chain from an occurrence at or before t leads past t by at most an hour. */
  lemma {:induction false} ClimbPast(f: Finding, occurrences: seq<Occurrence>, t: int, y: Occurrence, policies: Policies)
    requires SumsUp(f, occurrences, policies) && t < f.lastSeen && y in occurrences && y.start <= t
    ensures exists z :: z in occurrences && t < z.start <= t + HOUR
    decreases t - y.start
  {
    assert Followed(occurrences, y.start);
    var z :| z in occurrences && y.start < z.start <= y.start + HOUR;
    if z.start <= t {
      ClimbPast(f, occurrences, t, z, policies);
    }
  }

  /** A first hit opens a finding that sums it up. */
  lemma OpenedSumsUp(s: Store, a: Attempt, o: Occurrence, policies: Policies)
    requires a.fingerprint.Some? && Consistent(a, policies) && o.start == a.start && o.score == a.score
    ensures SumsUp(NewFinding(s, a), [o], policies)
  {
    assert o in [o];
  }

  lemma PersistAggregated(s: Store, a: Attempt, policies: Policies)
    requires Aggregated(s, policies) && Consistent(a, policies)
    ensures Aggregated(Persisted(s, a), policies)
  {
    if !Evaluated(s, a.key) && a.fingerprint.Some? {
      forall j: nat | j < |Persisted(s, a).findings|
        ensures SumsUp(Persisted(s, a).findings[j], Filter(Persisted(s, a).occurrences, OccurrencesOf(j)), policies)
      {
        FindingAggregated(s, a, j, policies);
      }
    }
  }

  /** The occurrence that persisting a hit stores. */
  function HitOf(s: Store, a: Attempt): Occurrence
    requires a.fingerprint.Some?
  {
    Occurrence(Target(s, a), |s.evaluations|, a.start, a.score, a.risk)
  }

  lemma FindingAggregated(s: Store, a: Attempt, j: nat, policies: Policies)
    requires Aggregated(s, policies) && Consistent(a, policies) && !Evaluated(s, a.key) && a.fingerprint.Some?
    requires j < |Persisted(s, a).findings|
    ensures SumsUp(Persisted(s, a).findings[j], Filter(Persisted(s, a).occurrences, OccurrencesOf(j)), policies)
  {
    FilterAppend(s.occurrences, HitOf(s, a), OccurrencesOf(j));
    if j == Target(s, a) {
      TargetAggregated(s, a, policies);
    }
  }

  lemma TargetAggregated(s: Store, a: Attempt, policies: Policies)
    requires Aggregated(s, policies) && Consistent(a, policies) && a.fingerprint.Some?
    ensures var i := Target(s, a);
            SumsUp(if i < |s.findings| then Merged(s.findings[i], a) else NewFinding(s, a),
                   Filter(s.occurrences, OccurrencesOf(i)) + [HitOf(s, a)], policies)
  {
    var i := Target(s, a);
    if i < |s.findings| {
      MergeSumsUp(s.findings[i], Filter(s.occurrences, OccurrencesOf(i)), a, HitOf(s, a), policies);
    } else {
      FilterNone(s.occurrences, OccurrencesOf(i));
      OpenedSumsUp(s, a, HitOf(s, a), policies);
    }
  }

  // --- Sorted gaps -------------------------------------------------------------------------

  function Starts(occurrences: seq<Occurrence>): seq<int> {
    seq(|occurrences|, i requires 0 <= i < |occurrences| => occurrences[i].start)
  }

  /** Every start but the last has another one within the hour after it. */
  ghost predicate Bridged(starts: seq<int>, last: int) {
    forall t :: t in starts && t < last ==> HasNext(starts, t)
  }

  ghost predicate HasNext(starts: seq<int>, t: int) {
    exists u :: u in starts && t < u <= t + HOUR
  }

  lemma StartsBridged(f: Finding, occurrences: seq<Occurrence>, policies: Policies)
    requires SumsUp(f, occurrences, policies)
    ensures Bridged(Starts(occurrences), f.lastSeen)
    ensures forall t :: t in Starts(occurrences) ==> t <= f.lastSeen
  {
    var starts := Starts(occurrences);
    forall t | t in starts ensures t <= f.lastSeen && (t < f.lastSeen ==> HasNext(starts, t)) {
      var a :| 0 <= a < |starts| && starts[a] == t;
      assert occurrences[a] in occurrences;
      if t < f.lastSeen {
        assert Followed(occurrences, t);
        var next :| next in occurrences && t < next.start <= t + HOUR;
        var c :| 0 <= c < |occurrences| && occurrences[c] == next;
        assert starts[c] in starts;
      }
    }
  }

  /** In a sorted list, nothing lies between two neighbours. */
  lemma NothingBetween(sorted: seq<int>, n: nat, u: int)
    requires Sorted(sorted, IntLeq) && n + 1 < |sorted| && u in sorted && sorted[n] < u
    ensures sorted[n + 1] <= u
  {
    var d :| 0 <= d < |sorted| && sorted[d] == u;
    assert d < n ==> IntLeq(sorted[d], sorted[n]);
    assert d > n + 1 ==> IntLeq(sorted[n + 1], sorted[d]);
  }

  /** Put in order, a finding's occurrence starts are never more than an hour apart. */
  lemma AdjacentGaps(s: Store, policies: Policies, i: nat, n: nat)
    requires Aggregated(s, policies) && i < |s.findings|
    requires n + 1 < |SortBy(Starts(Filter(s.occurrences, OccurrencesOf(i))), IntLeq)|
    ensures var sorted := SortBy(Starts(Filter(s.occurrences, OccurrencesOf(i))), IntLeq);
            sorted[n] <= sorted[n + 1] <= sorted[n] + HOUR
  {
    StartsBridged(s.findings[i], Filter(s.occurrences, OccurrencesOf(i)), policies);
    SortedGaps(Starts(Filter(s.occurrences, OccurrencesOf(i))), s.findings[i].lastSeen, n);
  }

  lemma SortedGaps(starts: seq<int>, last: int, n: nat)
    requires Bridged(starts, last) && (forall t :: t in starts ==> t <= last)
    requires n + 1 < |SortBy(starts, IntLeq)|
    ensures var sorted := SortBy(starts, IntLeq); sorted[n] <= sorted[n + 1] <= sorted[n] + HOUR
  {
    var sorted := SortBy(starts, IntLeq);
    SortBySorted(starts, IntLeq);
    SortByPermutes(starts, IntLeq);
    assert IntLeq(sorted[n], sorted[n + 1]);
    assert sorted[n] in sorted && sorted[n + 1] in sorted;
    if sorted[n] < last {
      assert HasNext(starts, sorted[n]);
      var u :| u in starts && sorted[n] < u <= sorted[n] + HOUR;
      NothingBetween(sorted, n, u);
    }
  }

  // --- Lifecycle ---------------------------------------------------------------------------

  function ChangesOf(i: nat): Change -> bool { (c: Change) => c.finding == i }

  /** The steps of a finding's life: an ended finding has none, a muted one can only be opened or ended. */
  const LIFECYCLE: set<(State, State)> := {
    (Open, Acknowledged), (Open, Investigating), (Open, Muted), (Open, Resolved), (Open, FalsePositive),
    (Acknowledged, Investigating), (Acknowledged, Muted), (Acknowledged, Resolved), (Acknowledged, FalsePositive),
    (Investigating, Acknowledged), (Investigating, Muted), (Investigating, Resolved), (Investigating, FalsePositive),
    (Muted, Open), (Muted, Resolved), (Muted, FalsePositive)}

  lemma AllowedExactly(from: State, to: State)
    ensures Allowed(from, to) <==> (from, to) in LIFECYCLE
  {
  }

  /** A change goes through exactly along a step of the lifecycle, an end only when confirmed; then the finding
      is in the new state and everything else about it, and every other finding, is as before. */
  lemma TransitionExactly(s: Store, i: nat, to: State, confirm: bool)
    ensures TransitionCheck(s, i, to, confirm).None? <==>
            && i < |s.findings| && (s.findings[i].state, to) in LIFECYCLE
            && (to == Resolved || to == FalsePositive ==> confirm)
    ensures var after := Transitioned(s, i, to, confirm);
            if TransitionCheck(s, i, to, confirm).Some? then after == s
            else && |after.findings| == |s.findings|
                 && after.findings[i] == s.findings[i].(state := to)
                 && (forall j :: 0 <= j < |s.findings| && j != i ==> after.findings[j] == s.findings[j])
                 && after.history == s.history + [Change(i, Some(s.findings[i].state), to)]
                 && after.evaluations == s.evaluations && after.occurrences == s.occurrences && after.runs == s.runs
  {
    if i < |s.findings| {
      AllowedExactly(s.findings[i].state, to);
    }
  }

  /** A walk in the lifecycle from creation as open to a state. */
  ghost predicate Walk(history: seq<Change>, state: State) {
    && history != []
    && history[0].from == None && history[0].to == Open
    && (forall n :: 0 <= n < |history| - 1 ==>
          history[n + 1].from == Some(history[n].to) && (history[n].to, history[n + 1].to) in LIFECYCLE)
    && history[|history| - 1].to == state
  }

  ghost predicate Walked(s: Store) {
    && (forall i :: 0 <= i < |s.findings| ==> Walk(Filter(s.history, ChangesOf(i)), s.findings[i].state))
    && (forall c :: c in s.history ==> c.finding < |s.findings|)
  }

  lemma WalkLonger(walk: seq<Change>, state: State, c: Change)
    requires Walk(walk, state) && c.from == Some(state) && Allowed(state, c.to)
    ensures Walk(walk + [c], c.to)
  {
    AllowedExactly(state, c.to);
  }

  ghost predicate SameStates(a: seq<Finding>, b: seq<Finding>) {
    |a| == |b| && forall i :: 0 <= i < |a| ==> a[i].state == b[i].state
  }

  /** Opening a finding starts a walk and leaves the others as they are. */
  lemma OpeningWalked(s: Store, after: Store, i: nat)
    requires Walked(s) && after.history == s.history + [Change(|s.findings|, None, Open)]
    requires |after.findings| == |s.findings| + 1 && SameStates(s.findings, after.findings[..|s.findings|])
    requires after.findings[|s.findings|].state == Open && i < |after.findings|
    ensures Walk(Filter(after.history, ChangesOf(i)), after.findings[i].state)
  {
    FilterAppend(s.history, Change(|s.findings|, None, Open), ChangesOf(i));
    if i == |s.findings| {
      FilterNone(s.history, ChangesOf(i));
    } else {
      assert after.findings[..|s.findings|][i].state == s.findings[i].state;
    }
  }

  lemma PersistStates(s: Store, a: Attempt)
    ensures var after := Persisted(s, a);
            if |after.findings| == |s.findings| then after.history == s.history && SameStates(s.findings, after.findings)
            else && |after.findings| == |s.findings| + 1 && SameStates(s.findings, after.findings[..|s.findings|])
                 && after.findings[|s.findings|].state == Open
                 && after.history == s.history + [Change(|s.findings|, None, Open)]
  {
  }

  lemma PersistWalked(s: Store, a: Attempt)
    requires Walked(s)
    ensures Walked(Persisted(s, a))
  {
    var after := Persisted(s, a);
    PersistStates(s, a);
    if |after.findings| > |s.findings| {
      forall i: nat | i < |after.findings| ensures Walk(Filter(after.history, ChangesOf(i)), after.findings[i].state) {
        OpeningWalked(s, after, i);
      }
    }
  }

  lemma TransitionWalked(s: Store, i: nat, to: State, confirm: bool)
    requires Walked(s)
    ensures Walked(Transitioned(s, i, to, confirm))
  {
    if TransitionCheck(s, i, to, confirm).None? {
      var after, change := Transitioned(s, i, to, confirm), Change(i, Some(s.findings[i].state), to);
      forall j | 0 <= j < |after.findings| ensures Walk(Filter(after.history, ChangesOf(j)), after.findings[j].state) {
        FilterAppend(s.history, change, ChangesOf(j));
        if j == i {
          WalkLonger(Filter(s.history, ChangesOf(i)), s.findings[i].state, change);
        }
      }
    }
  }

  lemma StepWalked(s: Store, step: Step)
    requires Walked(s)
    ensures Walked(Take(s, step))
  {
    match step
    case StartRun =>
    case Persist(a) => PersistWalked(s, a);
    case Transition(i, to, confirm) => TransitionWalked(s, i, to, confirm);
  }

  /** Once a finding has ended it keeps its state and gains no occurrence. */
  lemma EndedStays(s: Store, step: Step, i: nat, policies: Policies)
    requires Aggregated(s, policies) && i < |s.findings| && Ended(s.findings[i].state)
    ensures var after := Take(s, step);
            && i < |after.findings| && after.findings[i] == s.findings[i]
            && Filter(after.occurrences, OccurrencesOf(i)) == Filter(s.occurrences, OccurrencesOf(i))
  {
    if step.Persist? {
      PersistSparesEnded(s, step.attempt, i, policies);
    }
  }

  lemma PersistSparesEnded(s: Store, a: Attempt, i: nat, policies: Policies)
    requires Aggregated(s, policies) && i < |s.findings| && Ended(s.findings[i].state)
    ensures var after := Persisted(s, a);
            && i < |after.findings| && after.findings[i] == s.findings[i]
            && Filter(after.occurrences, OccurrencesOf(i)) == Filter(s.occurrences, OccurrencesOf(i))
  {
    if !Evaluated(s, a.key) && a.fingerprint.Some? {
      FilterAppend(s.occurrences, Occurrence(Target(s, a), |s.evaluations|, a.start, a.score, a.risk), OccurrencesOf(i));
    }
  }

  /** An active finding of the fingerprint whose span comes within 60 minutes of the time. */
  ghost predicate InReach(f: Finding, fingerprint: Fingerprint, t: int) {
    && f.fingerprint == fingerprint && f.state in {Open, Acknowledged, Investigating, Muted}
    && f.firstSeen <= t + 60 * MINUTE && f.lastSeen >= t - 60 * MINUTE
  }

  ghost predicate OverFor(f: Finding, fingerprint: Fingerprint) {
    f.fingerprint == fingerprint && f.state in {Resolved, FalsePositive}
  }

  lemma ReachOnFields(f: Finding, fingerprint: Fingerprint, t: int)
    ensures Correlates(f, fingerprint, t) <==> InReach(f, fingerprint, t)
    ensures EndedOf(f, fingerprint) <==> OverFor(f, fingerprint)
  {
  }

  /** A hit goes to the finding in reach seen last; when there is none it opens one, linked to the finding of its
      fingerprint that is over and was seen last, if any is. */
  lemma OpensOrJoins(s: Store, a: Attempt)
    requires !Evaluated(s, a.key) && a.fingerprint.Some?
    ensures var after, i, fp := Persisted(s, a), Target(s, a), a.fingerprint.value;
            && i < |after.findings| && after.evaluations[|s.evaluations|].finding == Some(i)
            && (i == |s.findings| <==> !exists f :: f in s.findings && InReach(f, fp, a.start))
            && (i < |s.findings| ==>
                  && InReach(s.findings[i], fp, a.start)
                  && forall f :: f in s.findings && InReach(f, fp, a.start) ==> f.lastSeen <= s.findings[i].lastSeen)
            && (i == |s.findings| ==>
                  (after.findings[i].related.Some? <==> exists f :: f in s.findings && OverFor(f, fp)))
            && (i == |s.findings| && after.findings[i].related.Some? ==>
                  var j := after.findings[i].related.value;
                  && j < |s.findings| && OverFor(s.findings[j], fp)
                  && forall f :: f in s.findings && OverFor(f, fp) ==> f.lastSeen <= s.findings[j].lastSeen)
  {
    var fp := a.fingerprint.value;
    forall f { ReachOnFields(f, fp, a.start); }
    MatchFound(s.findings, fp, a.start);
    EndedFound(s.findings, fp);
  }

  /** Storing an evaluation keeps what it says, and no finding but the one that it goes to changes. */
  lemma StoresEvaluation(s: Store, a: Attempt)
    requires !Evaluated(s, a.key)
    ensures var after := Persisted(s, a);
            && |after.evaluations| == |s.evaluations| + 1 && after.evaluations[..|s.evaluations|] == s.evaluations
            && var e := after.evaluations[|s.evaluations|];
               && e.run == a.run && e.key == a.key && e.start == a.start && e.status == a.status && e.score == a.score
               && (e.finding.Some? <==> a.fingerprint.Some?)
               && |s.findings| <= |after.findings|
               && (forall j: nat :: j < |s.findings| && e.finding != Some(j) ==> after.findings[j] == s.findings[j])
  {
  }

  /** A joined finding spans and counts the hit too and keeps the greater score with its risk; an opened one
      starts with the hit. */
  lemma HitTakenIn(s: Store, a: Attempt)
    requires !Evaluated(s, a.key) && a.fingerprint.Some?
    ensures var after, i := Persisted(s, a), Target(s, a);
            if i < |s.findings| then
              var f, g := s.findings[i], after.findings[i];
              && |after.findings| == |s.findings| && after.history == s.history
              && g.firstSeen == Min(f.firstSeen, a.start) && g.lastSeen == Max(f.lastSeen, a.start)
              && g.score == Max(f.score, a.score) && g.risk == (if a.score > f.score then a.risk else f.risk)
              && g.occurrenceCount == f.occurrenceCount + 1
              && g.fingerprint == f.fingerprint && g.state == f.state && g.related == f.related
            else
              var g := after.findings[|s.findings|];
              && |after.findings| == |s.findings| + 1 && after.history == s.history + [Change(|s.findings|, None, Open)]
              && g.fingerprint == a.fingerprint.value && g.state == Open && g.score == a.score && g.risk == a.risk
              && g.firstSeen == g.lastSeen == a.start && g.occurrenceCount == 1
  {
  }

  lemma {:induction false} MatchFound(findings: seq<Finding>, fingerprint: Fingerprint, t: int)
    ensures LatestMatch(findings, fingerprint, t).None? <==> !exists f :: f in findings && Correlates(f, fingerprint, t)
    ensures var r := LatestMatch(findings, fingerprint, t);
            r.Some? ==>
              forall f :: f in findings && Correlates(f, fingerprint, t) ==> f.lastSeen <= findings[r.value].lastSeen
  {
    if findings != [] {
      MatchFound(findings[..|findings| - 1], fingerprint, t);
      assert findings == findings[..|findings| - 1] + [findings[|findings| - 1]];
    }
  }

  lemma {:induction false} EndedFound(findings: seq<Finding>, fingerprint: Fingerprint)
    ensures LatestEnded(findings, fingerprint).None? <==> !exists f :: f in findings && EndedOf(f, fingerprint)
    ensures var r := LatestEnded(findings, fingerprint);
            r.Some? ==> forall f :: f in findings && EndedOf(f, fingerprint) ==> f.lastSeen <= findings[r.value].lastSeen
  {
    if findings != [] {
      EndedFound(findings[..|findings| - 1], fingerprint);
      assert findings == findings[..|findings| - 1] + [findings[|findings| - 1]];
    }
  }

  // --- Accounting --------------------------------------------------------------------------

  function InRun(r: nat): Evaluation -> bool { (e: Evaluation) => e.run == r }

  function WithFinding(): Evaluation -> bool { (e: Evaluation) => e.finding.Some? }

  function TotalOccurrences(findings: seq<Finding>): nat {
    if findings == [] then 0
    else TotalOccurrences(findings[..|findings| - 1]) + findings[|findings| - 1].occurrenceCount
  }

  lemma {:induction false} TotalAfterUpdate(findings: seq<Finding>, i: nat, f: Finding)
    requires i < |findings|
    ensures TotalOccurrences(findings[i := f])
         == TotalOccurrences(findings) - findings[i].occurrenceCount + f.occurrenceCount
  {
    var n := |findings| - 1;
    if i < n {
      TotalAfterUpdate(findings[..n], i, f);
      assert findings[i := f][..n] == findings[..n][i := f];
    } else {
      assert findings[i := f][..n] == findings[..n];
    }
  }

  function InRunWith(r: nat, status: Status): Evaluation -> bool {
    (e: Evaluation) => e.run == r && e.status == status
  }

  /** The evaluations of a run that were the first to go to their finding. */
  function Opened(evaluations: seq<Evaluation>, r: nat): nat {
    if evaluations == [] then 0
    else
      var init, last := evaluations[..|evaluations| - 1], evaluations[|evaluations| - 1];
      Opened(init, r) + if last.run == r && last.finding.Some? && !GoesTo(init, last.finding.value) then 1 else 0
  }

  predicate GoesTo(evaluations: seq<Evaluation>, finding: nat) {
    exists e :: e in evaluations && e.finding == Some(finding)
  }

  /** A run's counters are those of its stored evaluations: all of them, those skipped and not, those with a
      finding, and of these the ones that opened it and the others. */
  ghost predicate Balanced(c: RunCounts, evaluations: seq<Evaluation>, r: nat) {
    && c.examined == |Filter(evaluations, InRun(r))|
    && c.skipped == |Filter(evaluations, InRunWith(r, SkippedStatus))| && c.evaluated == c.examined - c.skipped
    && c.findings == |Filter(evaluations, InRunWith(r, FindingStatus))| == c.occurrences
    && c.newFindings == Opened(evaluations, r) && c.updatedFindings == c.findings - c.newFindings
  }

  /** The findings are those that some evaluation went to. */
  ghost predicate Numbered(s: Store) {
    forall i: nat :: GoesTo(s.evaluations, i) <==> i < |s.findings|
  }

  /** Each evaluation with a finding has one occurrence, in the same order, with its time and score. */
  ghost predicate Referenced(s: Store) {
    && |s.occurrences| == |Filter(s.evaluations, WithFinding())|
    && (forall i, j :: 0 <= i < j < |s.occurrences| ==> s.occurrences[i].evaluation < s.occurrences[j].evaluation)
    && (forall o :: o in s.occurrences ==> o.evaluation < |s.evaluations| && Refers(o, s.evaluations[o.evaluation]))
  }

  predicate Refers(o: Occurrence, e: Evaluation) {
    e.finding == Some(o.finding) && e.start == o.start && e.score == o.score
  }

  ghost predicate Accounted(s: Store) {
    && (forall r :: 0 <= r < |s.runs| ==> Balanced(s.runs[r], s.evaluations, r))
    && (forall e :: e in s.evaluations ==> e.run < |s.runs|)
    && TotalOccurrences(s.findings) == |Filter(s.evaluations, WithFinding())|
    && Numbered(s) && Referenced(s)
  }

  lemma PersistAccounted(s: Store, a: Attempt, policies: Policies)
    requires Accounted(s) && a.run < |s.runs| && Consistent(a, policies)
    ensures Accounted(Persisted(s, a))
  {
    if !Evaluated(s, a.key) {
      var after := Persisted(s, a);
      forall r: nat | r < |after.runs| ensures Balanced(after.runs[r], after.evaluations, r) {
        RunBalanced(s, a, r, policies);
      }
      TotalKept(s, a);
      PersistNumbered(s, a);
      PersistReferenced(s, a);
    }
  }

  lemma PersistReferenced(s: Store, a: Attempt)
    requires Referenced(s) && !Evaluated(s, a.key)
    ensures Referenced(Persisted(s, a))
  {
    var e := EvaluationOf(a, if a.fingerprint.Some? then Some(Target(s, a)) else None);
    PersistAdds(s, a);
    FilterAppend(s.evaluations, e, WithFinding());
    if a.fingerprint.Some? {
      ReferencedAppend(s.evaluations, s.occurrences, e, HitOf(s, a));
    }
  }

  lemma ReferencedAppend(evaluations: seq<Evaluation>, occurrences: seq<Occurrence>, e: Evaluation, o: Occurrence)
    requires forall i, j :: 0 <= i < j < |occurrences| ==> occurrences[i].evaluation < occurrences[j].evaluation
    requires forall x :: x in occurrences ==> x.evaluation < |evaluations| && Refers(x, evaluations[x.evaluation])
    requires o.evaluation == |evaluations| && Refers(o, e)
    ensures var more := occurrences + [o];
            && (forall i, j :: 0 <= i < j < |more| ==> more[i].evaluation < more[j].evaluation)
            && (forall x :: x in more ==>
                  x.evaluation < |evaluations + [e]| && Refers(x, (evaluations + [e])[x.evaluation]))
  {
    assert forall i :: 0 <= i < |occurrences| ==> occurrences[i] in occurrences;
  }

  /** What the transaction adds: the evaluation, and the counters of its run. */
  lemma PersistAdds(s: Store, a: Attempt)
    requires !Evaluated(s, a.key)
    ensures var after, finding := Persisted(s, a), if a.fingerprint.Some? then Some(Target(s, a)) else None;
            && after.evaluations == s.evaluations + [EvaluationOf(a, finding)]
            && after.runs == CountedIn(s.runs, a.run, a.status, finding == Some(|s.findings|),
                                       finding.Some? && finding != Some(|s.findings|))
            && |after.findings| == |s.findings| + (if finding == Some(|s.findings|) then 1 else 0)
            && (finding.Some? ==> finding.value <= |s.findings|)
  {
  }

  lemma GoesToAppend(evaluations: seq<Evaluation>, e: Evaluation, i: nat)
    ensures GoesTo(evaluations + [e], i) <==> GoesTo(evaluations, i) || e.finding == Some(i)
  {
    var more := evaluations + [e];
    assert more[|evaluations|] == e;
    if GoesTo(evaluations, i) {
      var x :| x in evaluations && x.finding == Some(i);
      assert x in more;
    }
  }

  lemma PersistNumbered(s: Store, a: Attempt)
    requires Numbered(s) && !Evaluated(s, a.key)
    ensures Numbered(Persisted(s, a))
  {
    PersistAdds(s, a);
    forall i: nat ensures GoesTo(Persisted(s, a).evaluations, i) <==> i < |Persisted(s, a).findings| {
      GoesToAppend(s.evaluations, EvaluationOf(a, if a.fingerprint.Some? then Some(Target(s, a)) else None), i);
    }
  }

  lemma OpenedAppend(evaluations: seq<Evaluation>, e: Evaluation, r: nat)
    ensures Opened(evaluations + [e], r) == Opened(evaluations, r)
            + if e.run == r && e.finding.Some? && !GoesTo(evaluations, e.finding.value) then 1 else 0
  {
    assert (evaluations + [e])[..|evaluations|] == evaluations;
  }

  lemma RunBalanced(s: Store, a: Attempt, r: nat, policies: Policies)
    requires Accounted(s) && a.run < |s.runs| && Consistent(a, policies) && !Evaluated(s, a.key) && r < |s.runs|
    ensures Balanced(Persisted(s, a).runs[r], Persisted(s, a).evaluations, r)
  {
    PersistAdds(s, a);
    BalancedAppend(s.runs[r], s.evaluations, r, EvaluationOf(a, if a.fingerprint.Some? then Some(Target(s, a)) else None),
                   |s.findings|);
  }

  lemma BalancedAppend(c: RunCounts, evaluations: seq<Evaluation>, r: nat, e: Evaluation, findings: nat)
    requires Balanced(c, evaluations, r) && (e.status == FindingStatus <==> e.finding.Some?)
    requires forall i: nat :: GoesTo(evaluations, i) <==> i < findings
    requires e.finding.Some? ==> e.finding.value <= findings
    ensures Balanced(if e.run == r
                     then Counted(c, e.status, e.finding == Some(findings), e.finding.Some? && e.finding != Some(findings))
                     else c,
                     evaluations + [e], r)
  {
    FilterAppend(evaluations, e, InRun(r));
    FilterAppend(evaluations, e, InRunWith(r, SkippedStatus));
    FilterAppend(evaluations, e, InRunWith(r, FindingStatus));
    OpenedAppend(evaluations, e, r);
  }

  lemma TotalKept(s: Store, a: Attempt)
    requires !Evaluated(s, a.key) && TotalOccurrences(s.findings) == |Filter(s.evaluations, WithFinding())|
    ensures TotalOccurrences(Persisted(s, a).findings) == |Filter(Persisted(s, a).evaluations, WithFinding())|
  {
    var after := Persisted(s, a);
    FilterAppend(s.evaluations, after.evaluations[|s.evaluations|], WithFinding());
    if a.fingerprint.Some? {
      var i := Target(s, a);
      if i < |s.findings| {
        TotalAfterUpdate(s.findings, i, Merged(s.findings[i], a));
      } else {
        assert after.findings[..|s.findings|] == s.findings;
      }
    }
  }

  lemma StartAccounted(s: Store)
    requires Accounted(s)
    ensures Accounted(Started(s))
  {
    FilterNone(s.evaluations, InRun(|s.runs|));
    FilterNone(s.evaluations, InRunWith(|s.runs|, SkippedStatus));
    FilterNone(s.evaluations, InRunWith(|s.runs|, FindingStatus));
    NothingOpened(s.evaluations, |s.runs|);
  }

  lemma {:induction false} NothingOpened(evaluations: seq<Evaluation>, r: nat)
    requires forall e :: e in evaluations ==> e.run != r
    ensures Opened(evaluations, r) == 0
  {
    if evaluations != [] {
      NothingOpened(evaluations[..|evaluations| - 1], r);
    }
  }

  lemma TransitionAccounted(s: Store, i: nat, to: State, confirm: bool)
    requires Accounted(s)
    ensures Accounted(Transitioned(s, i, to, confirm))
  {
    if TransitionCheck(s, i, to, confirm).None? {
      TotalAfterUpdate(s.findings, i, s.findings[i].(state := to));
    }
  }

  // --- Every reachable state ---------------------------------------------------------------

  ghost predicate Sound(s: Store, policies: Policies) {
    Aggregated(s, policies) && Walked(s) && Accounted(s)
  }

  lemma TransitionAggregated(s: Store, i: nat, to: State, confirm: bool, policies: Policies)
    requires Aggregated(s, policies)
    ensures Aggregated(Transitioned(s, i, to, confirm), policies)
  {
    var after := Transitioned(s, i, to, confirm);
    forall j | 0 <= j < |after.findings|
      ensures SumsUp(after.findings[j], Filter(after.occurrences, OccurrencesOf(j)), policies)
    {
      assert SumsUp(s.findings[j], Filter(s.occurrences, OccurrencesOf(j)), policies);
    }
  }

  lemma StartAggregated(s: Store, policies: Policies)
    requires Aggregated(s, policies)
    ensures Aggregated(Started(s), policies)
  {
  }

  lemma StepAggregated(s: Store, step: Step, policies: Policies)
    requires Aggregated(s, policies) && Admissible(s, step, policies)
    ensures Aggregated(Take(s, step), policies)
  {
    match step
    case StartRun => StartAggregated(s, policies);
    case Persist(a) => PersistAggregated(s, a, policies);
    case Transition(i, to, confirm) => TransitionAggregated(s, i, to, confirm, policies);
  }

  lemma StepAccounted(s: Store, step: Step, policies: Policies)
    requires Accounted(s) && Admissible(s, step, policies)
    ensures Accounted(Take(s, step))
  {
    match step
    case StartRun => StartAccounted(s);
    case Persist(a) => PersistAccounted(s, a, policies);
    case Transition(i, to, confirm) => TransitionAccounted(s, i, to, confirm);
  }

  lemma StepSound(s: Store, step: Step, policies: Policies)
    requires Sound(s, policies) && Admissible(s, step, policies)
    ensures Sound(Take(s, step), policies)
  {
    StepAggregated(s, step, policies);
    StepWalked(s, step);
    StepAccounted(s, step, policies);
  }

  /** Aggregates, lifecycle walks and counts are kept by every run, whatever order windows are persisted
      in and whatever lifecycle changes come between. */
  lemma {:induction false} ReachableSound(s: Store, steps: seq<Step>, policies: Policies)
    requires Sound(s, policies) && AdmissibleRun(s, steps, policies)
    ensures Sound(TakeAll(s, steps), policies)
  {
    if steps != [] {
      var init := steps[..|steps| - 1];
      forall n | 0 <= n < |init| ensures Admissible(TakeAll(s, init[..n]), init[n], policies) {
        assert init[..n] == steps[..n];
        assert Admissible(TakeAll(s, steps[..n]), steps[n], policies);
      }
      ReachableSound(s, init, policies);
      assert Admissible(TakeAll(s, init), steps[|steps| - 1], policies);
      StepSound(TakeAll(s, init), steps[|steps| - 1], policies);
    }
  }

  /** Every store that can be reached from the empty one is sound. */
  lemma EveryStoreSound(steps: seq<Step>, policies: Policies)
    requires AdmissibleRun(EmptyStore, steps, policies)
    ensures Sound(TakeAll(EmptyStore, steps), policies)
  {
    forall i: nat ensures !GoesTo([], i) { }
    assert Sound(EmptyStore, policies);
    ReachableSound(EmptyStore, steps, policies);
  }

  /** An ended finding is frozen for the rest of every run. */
  lemma {:induction false} EndedForever(s: Store, steps: seq<Step>, i: nat, policies: Policies)
    requires Sound(s, policies) && AdmissibleRun(s, steps, policies) && i < |s.findings| && Ended(s.findings[i].state)
    ensures var after := TakeAll(s, steps);
            && i < |after.findings| && after.findings[i] == s.findings[i]
            && Filter(after.occurrences, OccurrencesOf(i)) == Filter(s.occurrences, OccurrencesOf(i))
  {
    if steps != [] {
      var init := steps[..|steps| - 1];
      forall n | 0 <= n < |init| ensures Admissible(TakeAll(s, init[..n]), init[n], policies) {
        assert init[..n] == steps[..n];
        assert Admissible(TakeAll(s, steps[..n]), steps[n], policies);
      }
      EndedForever(s, init, i, policies);
      ReachableSound(s, init, policies);
      EndedStays(TakeAll(s, init), steps[|steps| - 1], i, policies);
    }
  }

  // --- A check that comes before its write --------------------------------------------------

  /** The write of a lifecycle change that was checked against the status read before it. */
  function Committed(s: Store, i: nat, seen: State, to: State): Store
    requires i < |s.findings|
  {
    s.(findings := s.findings[i := s.findings[i].(state := to)], history := s.history + [Change(i, Some(seen), to)])
  }

  /** Histories stay walks exactly when the status at the time of the write is the one that was
      checked, which the transaction itself does not ask again. */
  lemma LateCommit(s: Store, i: nat, seen: State, to: State)
    requires Walked(s) && i < |s.findings| && Allowed(seen, to)
    ensures Walked(Committed(s, i, seen, to)) <==> s.findings[i].state == seen
  {
    var after := Committed(s, i, seen, to);
    CommittedWalk(s, i, seen, to, i);
    if s.findings[i].state == seen {
      forall j: nat | j < |after.findings| ensures Walk(Filter(after.history, ChangesOf(j)), after.findings[j].state) {
        CommittedWalk(s, i, seen, to, j);
      }
    }
  }

  lemma CommittedWalk(s: Store, i: nat, seen: State, to: State, j: nat)
    requires Walked(s) && i < |s.findings| && Allowed(seen, to) && j < |s.findings|
    ensures var after := Committed(s, i, seen, to);
            Walk(Filter(after.history, ChangesOf(j)), after.findings[j].state) <==> (j == i ==> s.findings[i].state == seen)
  {
    FilterAppend(s.history, Change(i, Some(seen), to), ChangesOf(j));
    if j == i {
      WalkExactly(Filter(s.history, ChangesOf(i)), s.findings[i].state, Change(i, Some(seen), to));
    }
  }

  lemma WalkExactly(walk: seq<Change>, state: State, c: Change)
    requires Walk(walk, state) && c.from.Some? && Allowed(c.from.value, c.to)
    ensures Walk(walk + [c], c.to) <==> c.from == Some(state)
  {
    if c.from == Some(state) {
      WalkLonger(walk, state, c);
    } else {
      assert (walk + [c])[|walk| - 1 + 1].from != Some((walk + [c])[|walk| - 1].to);
    }
  }

  /** Two changes that both read an open finding can reopen a resolved one. */
  lemma ResolvedReopens(s: Store, i: nat)
    requires i < |s.findings| && s.findings[i].state == Open
    ensures var resolved := Transitioned(s, i, Resolved, true);
            && TransitionCheck(s, i, Acknowledged, false).None?
            && Ended(resolved.findings[i].state)
            && !Ended(Committed(resolved, i, Open, Acknowledged).findings[i].state)
  {
    assert TransitionCheck(s, i, Resolved, true).None?;
  }
}
