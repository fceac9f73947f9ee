/**
 A detection run: pending windows are read in batches and every window is evaluated and
 persisted in its own transaction until nothing is pending.
 */
module Drain {
  import opened Sequences
  import opened Tables
  import opened Decision
  import opened Fusion
  import opened Findings
  import opened Sessions
  import opened FindingStores

  /** Which windows a run looks at, and the policy and model it evaluates them under. */
  datatype Selection = Selection(
    datasetKind: DatasetKind, profile: string, from: Option<int>, until: Option<int>, ids: Option<seq<string>>,
    policyHash: string, modelId: string)

  datatype Verdict = Verdict(status: Status, score: int, risk: RiskLevel, fingerprint: Option<Fingerprint>)

  /** Evaluates a window; None when the evaluation raises. */
  type Engine = WindowRow -> Option<Verdict>

  /** A started run: the feature windows, the run's id, what it selects and how it evaluates. */
  datatype Job = Job(table: seq<WindowRow>, run: nat, sel: Selection, decide: Engine)

  // --- Pending windows ---------------------------------------------------------------------

  predicate Selected(w: WindowRow, sel: Selection) {
    && w.datasetKind == sel.datasetKind && w.profile == sel.profile
    && (sel.from.Some? ==> w.start >= sel.from.value)
    && (sel.until.Some? ==> w.start < sel.until.value)
    && (sel.ids.Some? ==> w.id in sel.ids.value)
  }

  function KeyFor(w: WindowRow, sel: Selection): EvaluationKey {
    EvaluationKey(w.id, w.inputHash, sel.policyHash, sel.modelId)
  }

  function IsPending(s: Store, sel: Selection): WindowRow -> bool {
    (w: WindowRow) => Selected(w, sel) && !Evaluated(s, KeyFor(w, sel))
  }

  /** Windows are stored once, under their id. */
  ghost predicate UniqueIds(table: seq<WindowRow>) {
    && Distinct(table)
    && forall v, w :: v in table && w in table && v.id == w.id ==> v == w
  }

  function Pending(s: Store, job: Job): seq<WindowRow> {
    SortBy(Filter(job.table, IsPending(s, job.sel)), RowLeq)
  }

  lemma PendingRows(s: Store, job: Job)
    requires UniqueIds(job.table)
    ensures UniqueIds(Pending(s, job)) && Sorted(Pending(s, job), RowLeq)
    ensures forall w :: w in Pending(s, job) <==> w in job.table && IsPending(s, job.sel)(w)
  {
    var rows := Filter(job.table, IsPending(s, job.sel));
    FilterMembers(job.table, IsPending(s, job.sel));
    FilterDistinct(job.table, IsPending(s, job.sel));
    SortByPermutes(rows, RowLeq);
    SortByDistinct(rows, RowLeq);
    RowOrder();
    SortBySorted(rows, RowLeq);
  }

  /** As evaluations are added, what is pending is what is left of it. */
  lemma PendingShrinks(s: Store, after: Store, job: Job)
    requires forall key :: Evaluated(s, key) ==> Evaluated(after, key)
    ensures Pending(after, job) == Filter(Pending(s, job), IsPending(after, job.sel))
  {
    FilterNested(job.table, IsPending(s, job.sel), IsPending(after, job.sel));
    RowOrder();
    FilterSortBy(Filter(job.table, IsPending(s, job.sel)), RowLeq, IsPending(after, job.sel));
  }

  // --- Evaluating rows in order ------------------------------------------------------------

  function Succeeds(job: Job): WindowRow -> bool { (w: WindowRow) => job.decide(w).Some? }

  function Fails(job: Job): WindowRow -> bool { (w: WindowRow) => job.decide(w).None? }

  function AttemptFor(job: Job, w: WindowRow, v: Verdict): Attempt {
    Attempt(job.run, KeyFor(w, job.sel), w.start, v.status, v.score, v.risk, v.fingerprint)
  }

  /** What is handed to the store for a list of windows: nothing for those that raise. */
  function AttemptsOf(rows: seq<WindowRow>, job: Job): seq<Attempt> {
    if rows == [] then []
    else
      var init, w := rows[..|rows| - 1], rows[|rows| - 1];
      if job.decide(w).Some? then AttemptsOf(init, job) + [AttemptFor(job, w, job.decide(w).value)]
      else AttemptsOf(init, job)
  }

  lemma {:induction false} AttemptsOfSuccesses(rows: seq<WindowRow>, job: Job)
    ensures AttemptsOf(rows, job) == AttemptsOf(Filter(rows, Succeeds(job)), job)
  {
    if rows != [] {
      AttemptsOfSuccesses(rows[..|rows| - 1], job);
    }
  }

  lemma {:induction false} AttemptsConcat(a: seq<WindowRow>, b: seq<WindowRow>, job: Job)
    ensures AttemptsOf(a + b, job) == AttemptsOf(a, job) + AttemptsOf(b, job)
  {
    if b == [] {
      assert a + b == a;
    } else {
      var n := |b| - 1;
      AttemptsConcat(a, b[..n], job);
      assert (a + b)[..|a + b| - 1] == a + b[..n];
    }
  }

  lemma {:induction false} PersistConcat(s: Store, a: seq<Attempt>, b: seq<Attempt>)
    ensures PersistAll(s, a + b) == PersistAll(PersistAll(s, a), b)
  {
    if b == [] {
      assert a + b == a;
    } else {
      var n := |b| - 1;
      PersistConcat(s, a, b[..n]);
      assert (a + b)[..|a + b| - 1] == a + b[..n];
    }
  }

  function EvaluateAll(s: Store, rows: seq<WindowRow>, job: Job): Store {
    PersistAll(s, AttemptsOf(rows, job))
  }

  lemma EvaluateConcat(s: Store, a: seq<WindowRow>, b: seq<WindowRow>, job: Job)
    ensures EvaluateAll(s, a + b, job) == EvaluateAll(EvaluateAll(s, a, job), b, job)
  {
    AttemptsConcat(a, b, job);
    PersistConcat(s, AttemptsOf(a, job), AttemptsOf(b, job));
  }

  predicate KeyAmong(rows: seq<WindowRow>, job: Job, key: EvaluationKey) {
    exists w :: w in rows && job.decide(w).Some? && KeyFor(w, job.sel) == key
  }

  lemma {:induction false} AttemptKeys(rows: seq<WindowRow>, job: Job, key: EvaluationKey)
    ensures HasKey(AttemptsOf(rows, job), key) <==> KeyAmong(rows, job, key)
  {
    if rows != [] {
      var init, w := rows[..|rows| - 1], rows[|rows| - 1];
      AttemptKeys(init, job, key);
      assert rows == init + [w];
      var before, all := AttemptsOf(init, job), AttemptsOf(rows, job);
      if job.decide(w).Some? {
        assert all[|before|].key == KeyFor(w, job.sel);
        assert forall i :: 0 <= i < |before| ==> all[i] == before[i];
      }
    }
  }

  /** After evaluating some rows, exactly the keys of those that did not raise are new. */
  lemma EvaluatedKeys(s: Store, rows: seq<WindowRow>, job: Job, key: EvaluationKey)
    ensures Evaluated(EvaluateAll(s, rows, job), key) <==> Evaluated(s, key) || KeyAmong(rows, job, key)
  {
    AttemptKeys(rows, job, key);
    PersistedKeys(s, AttemptsOf(rows, job), key);
  }

  // --- One batch ---------------------------------------------------------------------------

  /** The first windows of the pending list, as a limited query returns them. */
  function FirstRows(pending: seq<WindowRow>, limit: nat): seq<WindowRow> {
    if limit < |pending| then pending[..limit] else pending
  }

  function RestRows(pending: seq<WindowRow>, limit: nat): seq<WindowRow> {
    if limit < |pending| then pending[limit..] else []
  }

  function Batch(s: Store, job: Job, limit: nat): Store {
    EvaluateAll(s, FirstRows(Pending(s, job), limit), job)
  }

  /** The windows of a batch that did not raise, and no others, stop being pending. */
  lemma PendingInBatch(s: Store, first: seq<WindowRow>, rest: seq<WindowRow>, job: Job)
    requires UniqueIds(first + rest) && forall w :: w in first + rest ==> IsPending(s, job.sel)(w)
    ensures var still := IsPending(EvaluateAll(s, first, job), job.sel);
            (forall w :: w in first ==> still(w) == Fails(job)(w)) && (forall w :: w in rest ==> still(w))
  {
    var after := EvaluateAll(s, first, job);
    NotTouched(first, rest, job);
    forall w | w in first + rest ensures IsPending(after, job.sel)(w) <==> !KeyAmong(first, job, KeyFor(w, job.sel)) {
      EvaluatedKeys(s, first, job, KeyFor(w, job.sel));
    }
    forall w | w in first ensures KeyAmong(first, job, KeyFor(w, job.sel)) <==> !Fails(job)(w) {
      assert forall v :: v in first && KeyFor(v, job.sel) == KeyFor(w, job.sel) ==> v == w by {
        assert forall v :: v in first ==> v in first + rest;
      }
    }
  }

  /** After a batch the windows that raised are still pending, ahead of those not read yet. */
  lemma PendingAfterBatch(s: Store, job: Job, limit: nat)
    requires UniqueIds(job.table)
    ensures var pending := Pending(s, job);
            Pending(Batch(s, job, limit), job)
            == Filter(FirstRows(pending, limit), Fails(job)) + RestRows(pending, limit)
  {
    var pending, after := Pending(s, job), Batch(s, job, limit);
    var first, rest := FirstRows(pending, limit), RestRows(pending, limit);
    assert pending == first + rest;
    PendingRows(s, job);
    PendingInBatch(s, first, rest, job);
    EvaluationsOnlyGrow(s, first, job);
    PendingShrinks(s, after, job);
    FilterConcat(first, rest, IsPending(after, job.sel));
    FilterAgree(first, IsPending(after, job.sel), Fails(job));
    FilterAll(rest, IsPending(after, job.sel));
  }

  lemma EvaluationsOnlyGrow(s: Store, rows: seq<WindowRow>, job: Job)
    ensures forall key :: Evaluated(s, key) ==> Evaluated(EvaluateAll(s, rows, job), key)
  {
    forall key | Evaluated(s, key) ensures Evaluated(EvaluateAll(s, rows, job), key) {
      EvaluatedKeys(s, rows, job, key);
    }
  }

  lemma NotTouched(first: seq<WindowRow>, rest: seq<WindowRow>, job: Job)
    requires UniqueIds(first + rest)
    ensures forall v, w :: v in first && w in rest ==> KeyFor(v, job.sel) != KeyFor(w, job.sel)
  {
    var all := first + rest;
    forall v, w | v in first && w in rest ensures KeyFor(v, job.sel) != KeyFor(w, job.sel) {
      var i :| 0 <= i < |first| && first[i] == v;
      var j :| 0 <= j < |rest| && rest[j] == w;
      assert all[i] == v && all[|first| + j] == w;
    }
  }

  lemma {:induction false} FailsOrSucceeds(rows: seq<WindowRow>, job: Job)
    ensures |Filter(rows, Fails(job))| + |Filter(rows, Succeeds(job))| == |rows|
  {
    if rows != [] {
      FailsOrSucceeds(rows[..|rows| - 1], job);
    }
  }

  /** What a batch leaves: its failures, then the rows it did not read. */
  function Left(first: seq<WindowRow>, rest: seq<WindowRow>, job: Job): seq<WindowRow> {
    Filter(first, Fails(job)) + rest
  }

  lemma LeftSucceeds(first: seq<WindowRow>, rest: seq<WindowRow>, job: Job)
    ensures Filter(first + rest, Succeeds(job))
         == Filter(first, Succeeds(job)) + Filter(Left(first, rest, job), Succeeds(job))
  {
    var failed := Filter(first, Fails(job));
    FilterMembers(first, Fails(job));
    FilterNone(failed, Succeeds(job));
    FilterConcat(first, rest, Succeeds(job));
    FilterConcat(failed, rest, Succeeds(job));
  }

  lemma LeftFails(first: seq<WindowRow>, rest: seq<WindowRow>, job: Job)
    ensures Filter(Left(first, rest, job), Fails(job)) == Filter(first + rest, Fails(job))
  {
    var failed := Filter(first, Fails(job));
    FilterMembers(first, Fails(job));
    FilterAll(failed, Fails(job));
    FilterConcat(first, rest, Fails(job));
    FilterConcat(failed, rest, Fails(job));
  }

  function Successes(s: Store, job: Job): seq<WindowRow> {
    Filter(Pending(s, job), Succeeds(job))
  }

  function Failures(s: Store, job: Job): seq<WindowRow> {
    Filter(Pending(s, job), Fails(job))
  }

  /** A batch takes its own successes off the front of those to come and keeps all failures. */
  lemma BatchProgress(s: Store, job: Job, limit: nat)
    requires UniqueIds(job.table)
    ensures var first, after := FirstRows(Pending(s, job), limit), Batch(s, job, limit);
            && Successes(s, job) == Filter(first, Succeeds(job)) + Successes(after, job)
            && Failures(after, job) == Failures(s, job)
            && |Pending(after, job)| == |Pending(s, job)| - |Filter(first, Succeeds(job))|
  {
    var pending := Pending(s, job);
    var first, rest := FirstRows(pending, limit), RestRows(pending, limit);
    assert pending == first + rest;
    PendingAfterBatch(s, job, limit);
    LeftSucceeds(first, rest, job);
    LeftFails(first, rest, job);
    FailsOrSucceeds(first, job);
  }

  /** Running the rest after one batch gives the same store as running everything at once. */
  lemma BatchThenRest(s: Store, job: Job, limit: nat)
    requires UniqueIds(job.table)
    ensures var after := Batch(s, job, limit);
            EvaluateAll(s, Pending(s, job), job)
            == EvaluateAll(after, Pending(after, job), job)
  {
    var pending, after := Pending(s, job), Batch(s, job, limit);
    var first := FirstRows(pending, limit);
    BatchProgress(s, job, limit);
    AttemptsOfSuccesses(pending, job);
    AttemptsOfSuccesses(first, job);
    AttemptsOfSuccesses(Pending(after, job), job);
    EvaluateConcat(s, Filter(first, Succeeds(job)), Successes(after, job), job);
  }

  // --- The whole run -----------------------------------------------------------------------

  /** A full batch is followed by another query. */
  predicate Continues(s: Store, job: Job, limit: nat) {
    |FirstRows(Pending(s, job), limit)| >= limit
  }

  function BatchLimit(batchSize: int): nat { if batchSize > 1 then batchSize else 1 }

  /** A run without a cap on windows ends with the first batch that is not full, here within n
      full ones. */
  predicate EndsWithin(n: nat, s: Store, job: Job, limit: nat)
    decreases n
  {
    !Continues(s, job, limit) || (n > 0 && EndsWithin(n - 1, Batch(s, job, limit), job, limit))
  }

  ghost predicate Terminates(s: Store, job: Job, limit: nat) {
    exists n :: EndsWithin(n, s, job, limit)
  }

  lemma FailuresAfterBatch(s: Store, job: Job, limit: nat)
    requires UniqueIds(job.table)
    ensures Failures(Batch(s, job, limit), job) == Failures(s, job)
  {
    BatchProgress(s, job, limit);
  }

  lemma {:induction false} NeverEnds(n: nat, s: Store, job: Job, limit: nat)
    requires UniqueIds(job.table) && |Failures(s, job)| >= limit
    ensures !EndsWithin(n, s, job, limit)
    decreases n
  {
    FailsOrSucceeds(Pending(s, job), job);
    if n > 0 {
      FailuresAfterBatch(s, job, limit);
      NeverEnds(n - 1, Batch(s, job, limit), job, limit);
    }
  }

  /** A full batch of more windows than can fail evaluates at least one. */
  lemma FullBatchAdvances(s: Store, job: Job, limit: nat)
    requires UniqueIds(job.table) && Continues(s, job, limit) && |Failures(s, job)| < limit
    ensures |Pending(Batch(s, job, limit), job)| < |Pending(s, job)|
  {
    var pending := Pending(s, job);
    var first, rest := FirstRows(pending, limit), RestRows(pending, limit);
    assert pending == first + rest;
    BatchProgress(s, job, limit);
    FilterConcat(first, rest, Fails(job));
    FailsOrSucceeds(first, job);
  }

  lemma {:induction false} EndsAfter(s: Store, job: Job, limit: nat) returns (n: nat)
    requires UniqueIds(job.table) && |Failures(s, job)| < limit
    ensures EndsWithin(n, s, job, limit)
    decreases |Pending(s, job)|
  {
    n := 0;
    if Continues(s, job, limit) {
      FailuresAfterBatch(s, job, limit);
      FullBatchAdvances(s, job, limit);
      var m := EndsAfter(Batch(s, job, limit), job, limit);
      n := m + 1;
    }
  }

  /** Without a cap on windows, a run ends if and only if fewer pending windows raise than fit in
      one batch: a full batch that only raises is read again for ever. */
  lemma TerminatesExactly(s: Store, job: Job, batchSize: int)
    requires UniqueIds(job.table)
    ensures Terminates(s, job, BatchLimit(batchSize)) <==> Failures(s, job) == [] || |Failures(s, job)| < batchSize
  {
    var limit := BatchLimit(batchSize);
    if |Failures(s, job)| < limit {
      var n := EndsAfter(s, job, limit);
    } else {
      forall n ensures !EndsWithin(n, s, job, limit) {
        NeverEnds(n, s, job, limit);
      }
    }
  }

  /** The store at the end of a run without a cap on windows. */
  ghost function Drained(s: Store, job: Job, limit: nat): Store
    requires UniqueIds(job.table) && |Failures(s, job)| < limit
    decreases |Pending(s, job)|
  {
    var after := Batch(s, job, limit);
    if Continues(s, job, limit)
    then FailuresAfterBatch(s, job, limit); FullBatchAdvances(s, job, limit); Drained(after, job, limit)
    else after
  }

  /** Whatever the batch size, a run ends with every pending window evaluated in order of time,
      except those that raised. */
  lemma {:induction false} DrainedIsOrdered(s: Store, job: Job, limit: nat)
    requires UniqueIds(job.table) && |Failures(s, job)| < limit
    ensures Drained(s, job, limit) == EvaluateAll(s, Pending(s, job), job)
    decreases |Pending(s, job)|
  {
    if Continues(s, job, limit) {
      FailuresAfterBatch(s, job, limit);
      FullBatchAdvances(s, job, limit);
      BatchThenRest(s, job, limit);
      DrainedIsOrdered(Batch(s, job, limit), job, limit);
    }
  }

  /** What a run leaves pending is exactly what raised. */
  lemma OnlyFailuresLeft(s: Store, job: Job)
    requires UniqueIds(job.table)
    ensures Pending(EvaluateAll(s, Pending(s, job), job), job) == Failures(s, job)
  {
    PendingAfterBatch(s, job, |Pending(s, job)|);
  }

  /** A run started after another one over the same windows, policy and model stores nothing but
      its own empty counters, as long as what raised raises again. */
  lemma SecondRunIdle(s: Store, job: Job, again: Job)
    requires UniqueIds(job.table) && again.table == job.table && again.sel == job.sel
    requires forall w :: job.decide(w).None? ==> again.decide(w).None?
    requires again.run == |EvaluateAll(s, Pending(s, job), job).runs|
    ensures var started := Started(EvaluateAll(s, Pending(s, job), job));
            && Pending(started, again) == Failures(s, job)
            && EvaluateAll(started, Pending(started, again), again) == started
            && started.runs[again.run] == NoCounts
  {
    var after := EvaluateAll(s, Pending(s, job), job);
    OnlyFailuresLeft(s, job);
    FilterAgree(job.table, IsPending(after, job.sel), IsPending(Started(after), again.sel));
    FilterMembers(Pending(s, job), Fails(job));
    NoAttempts(Failures(s, job), again);
  }

  lemma {:induction false} NoAttempts(rows: seq<WindowRow>, job: Job)
    requires forall w :: w in rows ==> job.decide(w).None?
    ensures AttemptsOf(rows, job) == []
  {
    if rows != [] {
      assert rows[|rows| - 1] in rows;
      NoAttempts(rows[..|rows| - 1], job);
    }
  }

  lemma {:induction false} AttemptAt(rows: seq<WindowRow>, job: Job, i: nat)
    requires (forall w :: w in rows ==> job.decide(w).Some?) && i < |rows|
    ensures |AttemptsOf(rows, job)| == |rows|
    ensures AttemptsOf(rows, job)[i] == AttemptFor(job, rows[i], job.decide(rows[i]).value)
  {
    var n := |rows| - 1;
    assert rows[n] in rows;
    if n == 0 {
      assert AttemptsOf(rows[..0], job) == [];
    } else {
      AttemptAt(rows[..n], job, if i < n then i else n - 1);
    }
  }

  lemma SuccessRows(s: Store, job: Job)
    requires UniqueIds(job.table)
    ensures forall w :: w in Successes(s, job) ==>
              w in Pending(s, job) && !Evaluated(s, KeyFor(w, job.sel)) && job.decide(w).Some?
    ensures Distinct(Successes(s, job)) && Sorted(Successes(s, job), RowLeq)
    ensures AttemptsOf(Pending(s, job), job) == AttemptsOf(Successes(s, job), job)
    ensures |AttemptsOf(Successes(s, job), job)| == |Successes(s, job)|
  {
    PendingRows(s, job);
    FilterMembers(Pending(s, job), Succeeds(job));
    FilterDistinct(Pending(s, job), Succeeds(job));
    FilterSorted(Pending(s, job), Succeeds(job), RowLeq);
    AttemptsOfSuccesses(Pending(s, job), job);
    if Successes(s, job) != [] {
      AttemptAt(Successes(s, job), job, 0);
    }
  }

  lemma SuccessPair(s: Store, job: Job, i: nat, j: nat)
    requires UniqueIds(job.table) && i < j < |Successes(s, job)|
    ensures var rows := Successes(s, job);
            rows[i].start <= rows[j].start && KeyFor(rows[i], job.sel) != KeyFor(rows[j], job.sel)
  {
    var rows := Successes(s, job);
    SuccessRows(s, job);
    PendingRows(s, job);
    assert RowLeq(rows[i], rows[j]);
  }

  /** The evaluations of a run are new, one for each window, and in order of time. */
  lemma RunInOrder(s: Store, job: Job)
    requires UniqueIds(job.table)
    ensures NewKeys(s, AttemptsOf(Pending(s, job), job))
    ensures forall i, j :: 0 <= i < j < |AttemptsOf(Pending(s, job), job)| ==>
              AttemptsOf(Pending(s, job), job)[i].start <= AttemptsOf(Pending(s, job), job)[j].start
  {
    var rows, attempts := Successes(s, job), AttemptsOf(Pending(s, job), job);
    SuccessRows(s, job);
    forall i | 0 <= i < |attempts|
      ensures attempts[i] == AttemptFor(job, rows[i], job.decide(rows[i]).value) && !Evaluated(s, attempts[i].key)
    {
      AttemptAt(rows, job, i);
    }
    forall i, j | 0 <= i < j < |attempts|
      ensures attempts[i].start <= attempts[j].start && attempts[i].key != attempts[j].key
    {
      SuccessPair(s, job, i, j);
    }
  }

  // --- What a run adds, row by row -----------------------------------------------------------

  /** A window is of the run's dataset kind and profile, starts in its interval and is among its ids, as
      far as these are given. */
  ghost predicate InScope(w: WindowRow, sel: Selection) {
    && w.datasetKind == sel.datasetKind && w.profile == sel.profile
    && (sel.from.Some? ==> sel.from.value <= w.start)
    && (sel.until.Some? ==> w.start < sel.until.value)
    && (sel.ids.Some? ==> exists i :: 0 <= i < |sel.ids.value| && sel.ids.value[i] == w.id)
  }

  /** An evaluation is of a window with these inputs, under the run's policy and model. */
  function IsOf(w: WindowRow, sel: Selection): Evaluation -> bool {
    (e: Evaluation) => e.key.windowId == w.id && e.key.inputHash == w.inputHash && e.key.policyHash == sel.policyHash
                       && e.key.modelId == sel.modelId
  }

  ghost predicate EvaluatedBefore(s: Store, w: WindowRow, sel: Selection) {
    exists e :: e in s.evaluations && IsOf(w, sel)(e)
  }

  /** An evaluation is of a window of the table that the run was asked for and that was not evaluated before. */
  ghost predicate ForScope(s: Store, e: Evaluation, job: Job) {
    exists w :: && w in job.table && InScope(w, job.sel) && !EvaluatedBefore(s, w, job.sel)
                && IsOf(w, job.sel)(e) && e.start == w.start
  }

  lemma PendingOnFields(s: Store, w: WindowRow, sel: Selection)
    ensures IsPending(s, sel)(w) <==> InScope(w, sel) && !EvaluatedBefore(s, w, sel)
  {
    if Evaluated(s, KeyFor(w, sel)) {
      var e :| e in s.evaluations && e.key == KeyFor(w, sel);
      assert IsOf(w, sel)(e);
    }
    if e :| e in s.evaluations && IsOf(w, sel)(e) {
      assert e.key == KeyFor(w, sel);
    }
  }

  /** The evaluations that a run with a cap adds: the first n of those it would make without one. */
  function Added(s: Store, job: Job, n: nat): seq<Evaluation>
    requires n <= |Successes(s, job)|
  {
    var after := EvaluateAll(s, Successes(s, job)[..n], job);
    if |s.evaluations| <= |after.evaluations| then after.evaluations[|s.evaluations|..] else []
  }

  lemma {:induction false} EvaluationsKept(s: Store, attempts: seq<Attempt>)
    ensures |PersistAll(s, attempts).evaluations| >= |s.evaluations|
    ensures PersistAll(s, attempts).evaluations[..|s.evaluations|] == s.evaluations
  {
    if attempts != [] {
      EvaluationsKept(s, attempts[..|attempts| - 1]);
    }
  }

  /** The i-th evaluation that a run adds is of the i-th pending window that does not raise, and holds
      what the engine decided about it. */
  lemma AddedAt(s: Store, job: Job, n: nat, i: nat)
    requires UniqueIds(job.table) && i < n <= |Successes(s, job)|
    ensures |Added(s, job, n)| == n
    ensures var w, e := Successes(s, job)[i], Added(s, job, n)[i];
            && job.decide(w).Some? && IsOf(w, job.sel)(e)
            && e.run == job.run && e.start == w.start
            && e.status == job.decide(w).value.status && e.score == job.decide(w).value.score
            && (e.finding.Some? <==> job.decide(w).value.fingerprint.Some?)
  {
    var rows := Successes(s, job)[..n];
    SuccessRows(s, job);
    assert forall w :: w in rows ==> w in Successes(s, job);
    AttemptAt(rows, job, i);
    FirstKeysNew(s, job, n);
    StoredInOrder(s, AttemptsOf(rows, job), i);
  }

  lemma FirstKeysNew(s: Store, job: Job, n: nat)
    requires UniqueIds(job.table) && n <= |Successes(s, job)|
    ensures NewKeys(s, AttemptsOf(Successes(s, job)[..n], job))
  {
    var all, rows := Successes(s, job), Successes(s, job)[..n];
    SuccessRows(s, job);
    RunInOrder(s, job);
    assert all == rows + all[n..];
    AttemptsConcat(rows, all[n..], job);
    FirstOfNewKeys(s, AttemptsOf(rows, job), AttemptsOf(all[n..], job));
  }

  lemma FirstOfNewKeys(s: Store, a: seq<Attempt>, b: seq<Attempt>)
    requires NewKeys(s, a + b)
    ensures NewKeys(s, a)
  {
    assert forall i :: 0 <= i < |a| ==> (a + b)[i] == a[i];
  }

  /** Every evaluation that a run adds is of a window of the table that it was asked for. */
  lemma AddedInScope(s: Store, job: Job, n: nat, i: nat)
    requires UniqueIds(job.table) && i < n <= |Successes(s, job)|
    ensures |Added(s, job, n)| == n
    ensures ForScope(s, Added(s, job, n)[i], job)
  {
    var w := Successes(s, job)[i];
    AddedAt(s, job, n, i);
    SuccessRows(s, job);
    PendingRows(s, job);
    PendingOnFields(s, w, job.sel);
  }

  /** They come in order of window start and then window id. */
  lemma AddedInOrder(s: Store, job: Job, n: nat, i: nat, j: nat)
    requires UniqueIds(job.table) && i < j < n <= |Successes(s, job)|
    ensures |Added(s, job, n)| == n
    ensures var a, b := Added(s, job, n)[i], Added(s, job, n)[j];
            a.start < b.start || (a.start == b.start && TextLeq(a.key.windowId, b.key.windowId))
  {
    AddedAt(s, job, n, i);
    AddedAt(s, job, n, j);
    SuccessRows(s, job);
    assert RowLeq(Successes(s, job)[i], Successes(s, job)[j]);
  }

  lemma SuccessOnFields(s: Store, job: Job, w: WindowRow)
    requires UniqueIds(job.table) && w in job.table
    ensures w in Successes(s, job) <==>
            InScope(w, job.sel) && !EvaluatedBefore(s, w, job.sel) && job.decide(w).Some?
  {
    PendingRows(s, job);
    FilterMembers(Pending(s, job), Succeeds(job));
    PendingOnFields(s, w, job.sel);
  }

  /** A run without a cap gives a window of the table one evaluation if it was asked for it, its inputs
      were not evaluated before under this policy and model, and it does not raise; otherwise none. */
  lemma EachWindowOnce(s: Store, job: Job, w: WindowRow)
    requires UniqueIds(job.table) && w in job.table
    ensures |Filter(Added(s, job, |Successes(s, job)|), IsOf(w, job.sel))|
            == if InScope(w, job.sel) && !EvaluatedBefore(s, w, job.sel) && job.decide(w).Some? then 1 else 0
  {
    var rows, n := Successes(s, job), |Successes(s, job)|;
    var added := Added(s, job, n);
    SuccessOnFields(s, job, w);
    AddedCount(s, job, n);
    forall j | 0 <= j < n && rows[j] != w ensures !IsOf(w, job.sel)(added[j]) {
      AddedAt(s, job, n, j);
      SuccessRows(s, job);
      PendingRows(s, job);
    }
    if w in rows {
      var i :| 0 <= i < n && rows[i] == w;
      AddedAt(s, job, n, i);
      SuccessRows(s, job);
      FilterOne(added, i, IsOf(w, job.sel));
    } else {
      FilterNone(added, IsOf(w, job.sel));
    }
  }

  lemma AddedCount(s: Store, job: Job, n: nat)
    requires UniqueIds(job.table) && n <= |Successes(s, job)|
    ensures |Added(s, job, n)| == n
  {
    if n > 0 {
      AddedAt(s, job, n, 0);
    } else {
      assert AttemptsOf([], job) == [];
    }
  }

  /** A run groups the hits of every fingerprint into sessions. */
  lemma RunSessions(s: Store, job: Job, fp: Fingerprint, first: int, i: nat, j: nat)
    requires UniqueIds(job.table) && Quiet(s.findings, fp, None, first)
    requires forall w :: w in Pending(s, job) ==> first <= w.start
    requires i < j < |AttemptsOf(Pending(s, job), job)|
    requires Hits(AttemptsOf(Pending(s, job), job)[i], fp) && Hits(AttemptsOf(Pending(s, job), job)[j], fp)
    ensures var attempts := AttemptsOf(Pending(s, job), job);
            && |EvaluateAll(s, Pending(s, job), job).evaluations| == |s.evaluations| + |attempts|
            && (StoredFinding(s, attempts, i) == StoredFinding(s, attempts, j)
                <==> SessionAt(attempts, fp, i) == SessionAt(attempts, fp, j))
  {
    var attempts := AttemptsOf(Pending(s, job), job);
    RunInOrder(s, job);
    assert InOrder(s, attempts, fp, first) by {
      StartsOfAttempts(Pending(s, job), job, first);
    }
    SessionsExact(s, attempts, fp, first, i, j);
  }

  lemma {:induction false} StartsOfAttempts(rows: seq<WindowRow>, job: Job, first: int)
    requires forall w :: w in rows ==> first <= w.start
    ensures forall i :: 0 <= i < |AttemptsOf(rows, job)| ==> first <= AttemptsOf(rows, job)[i].start
  {
    if rows != [] {
      StartsOfAttempts(rows[..|rows| - 1], job, first);
      assert rows[|rows| - 1] in rows;
    }
  }
}
