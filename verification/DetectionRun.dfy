/**
 The loop of one detection run over the stored tables.
 */
module DetectionRuns {
  import opened Sequences
  import opened Tables
  import opened Findings
  import opened Sessions
  import opened FindingStores
  import opened Drain

  datatype RunStatus = Success | Partial

  /** What the loop keeps: the windows persisted so far are the first of those that do not raise,
      and the rest of them are still pending. */
  ghost predicate Draining(s: Store, now: Store, done: seq<WindowRow>, job: Job) {
    && Successes(s, job) == done + Successes(now, job)
    && now == EvaluateAll(s, done, job)
    && Failures(now, job) == Failures(s, job)
  }

  lemma DrainingStep(s: Store, now: Store, done: seq<WindowRow>, job: Job, limit: nat)
    requires UniqueIds(job.table) && Draining(s, now, done, job)
    ensures var first, next := FirstRows(Pending(now, job), limit), Batch(now, job, limit);
            && Draining(s, next, done + Filter(first, Succeeds(job)), job)
            && (|first| < limit ==> Successes(next, job) == [])
  {
    var first, next := FirstRows(Pending(now, job), limit), Batch(now, job, limit);
    var more := Filter(first, Succeeds(job));
    BatchProgress(now, job, limit);
    Regroup(done, more, Successes(next, job));
    BatchStores(s, done, first, job);
    if |first| < limit {
      LastBatch(now, job, limit);
    }
  }

  lemma Regroup<T>(a: seq<T>, b: seq<T>, c: seq<T>)
    ensures a + (b + c) == (a + b) + c
  {
  }

  lemma BatchStores(s: Store, done: seq<WindowRow>, first: seq<WindowRow>, job: Job)
    ensures EvaluateAll(EvaluateAll(s, done, job), first, job) == EvaluateAll(s, done + Filter(first, Succeeds(job)), job)
  {
    AttemptsOfSuccesses(first, job);
    EvaluateConcat(s, done, Filter(first, Succeeds(job)), job);
  }

  /** After a batch that was not full nothing is left that does not raise. */
  lemma LastBatch(now: Store, job: Job, limit: nat)
    requires UniqueIds(job.table) && |FirstRows(Pending(now, job), limit)| < limit
    ensures Successes(Batch(now, job, limit), job) == []
  {
    var first := FirstRows(Pending(now, job), limit);
    assert first == Pending(now, job);
    BatchProgress(now, job, limit);
    assert Successes(now, job) == Filter(first, Succeeds(job));
  }

  lemma BatchShrinks(s: Store, now: Store, done: seq<WindowRow>, job: Job, limit: nat)
    requires UniqueIds(job.table) && Draining(s, now, done, job)
    requires Continues(now, job, limit) && |Failures(s, job)| < limit
    ensures |Pending(Batch(now, job, limit), job)| < |Pending(now, job)|
  {
    FullBatchAdvances(now, job, limit);
  }

  lemma DrainingEnd(s: Store, now: Store, done: seq<WindowRow>, job: Job)
    requires UniqueIds(job.table) && Draining(s, now, done, job)
    ensures |done| <= |Successes(s, job)| && now == EvaluateAll(s, Successes(s, job)[..|done|], job)
    ensures AddsInScope(s, now, job)
    ensures Successes(now, job) == [] ==> |done| == |Successes(s, job)| && CoversScope(now, job)
  {
    assert Successes(s, job)[..|done|] == done;
    RunAddsInScope(s, job, |done|);
    if Successes(now, job) == [] {
      assert Successes(s, job) == done;
      RunCoversScope(s, job);
    }
  }

  lemma OneMoreRow(s: Store, rows: seq<WindowRow>, i: nat, job: Job)
    requires i < |rows|
    ensures EvaluateAll(s, rows[..i + 1], job) ==
            if job.decide(rows[i]).Some?
            then Persisted(EvaluateAll(s, rows[..i], job), AttemptFor(job, rows[i], job.decide(rows[i]).value))
            else EvaluateAll(s, rows[..i], job)
    ensures |Filter(rows[..i + 1], Succeeds(job))| ==
            |Filter(rows[..i], Succeeds(job))| + if job.decide(rows[i]).Some? then 1 else 0
  {
    assert rows[..i + 1][..i] == rows[..i];
  }

  /** Evaluates the windows of a batch one by one; a window that raises is passed over. */
  method EvaluateBatch(store: FindingStore, windows: seq<WindowRow>, job: Job) returns (evaluated: nat, raised: bool)
    modifies store
    ensures store.Snapshot() == EvaluateAll(old(store.Snapshot()), windows, job)
    ensures evaluated == |Filter(windows, Succeeds(job))| && (raised <==> evaluated < |windows|)
  {
    evaluated, raised := 0, false;
    for i := 0 to |windows|
      invariant store.Snapshot() == EvaluateAll(old(store.Snapshot()), windows[..i], job)
      invariant evaluated == |Filter(windows[..i], Succeeds(job))| && (raised <==> evaluated < i)
    {
      OneMoreRow(old(store.Snapshot()), windows, i, job);
      var verdict := job.decide(windows[i]);
      if verdict.Some? {
        var outcome := store.PersistEvaluation(AttemptFor(job, windows[i], verdict.value));
        evaluated := evaluated + 1;
      } else {
        raised := true;
      }
    }
    assert windows[..|windows|] == windows;
  }

  /** Reads one batch of pending windows and evaluates it. */
  method RunBatch(store: FindingStore, job: Job, limit: nat, ghost s: Store, ghost done: seq<WindowRow>)
    returns (read: nat, evaluated: nat, raised: bool, ghost all: seq<WindowRow>)
    requires UniqueIds(job.table) && Draining(s, store.Snapshot(), done, job)
    modifies store
    ensures Draining(s, store.Snapshot(), all, job)
    ensures |all| == |done| + evaluated && evaluated <= read <= limit && (raised <==> evaluated < read)
    ensures read < limit ==> Successes(store.Snapshot(), job) == []
    ensures read == limit && |Failures(s, job)| < limit ==>
              |Pending(store.Snapshot(), job)| < |Pending(old(store.Snapshot()), job)|
  {
    var windows := FirstRows(Pending(store.Snapshot(), job), limit);
    DrainingStep(s, store.Snapshot(), done, job, limit);
    if |windows| == limit && |Failures(s, job)| < limit {
      BatchShrinks(s, store.Snapshot(), done, job, limit);
    }
    read, all := |windows|, done + Filter(windows, Succeeds(job));
    evaluated, raised := EvaluateBatch(store, windows, job);
  }

  /** Every evaluation that was added is of a window that the run was asked for, not evaluated before. */
  ghost predicate AddsInScope(s: Store, after: Store, job: Job) {
    && |s.evaluations| <= |after.evaluations| && after.evaluations[..|s.evaluations|] == s.evaluations
    && forall i :: |s.evaluations| <= i < |after.evaluations| ==> ForScope(s, after.evaluations[i], job)
  }

  /** Every window that the run was asked for and that does not raise is evaluated. */
  ghost predicate CoversScope(after: Store, job: Job) {
    forall w :: w in job.table && InScope(w, job.sel) && job.decide(w).Some? ==> EvaluatedBefore(after, w, job.sel)
  }

  lemma RunAddsInScope(s: Store, job: Job, n: nat)
    requires UniqueIds(job.table) && n <= |Successes(s, job)|
    ensures AddsInScope(s, EvaluateAll(s, Successes(s, job)[..n], job), job)
  {
    var after := EvaluateAll(s, Successes(s, job)[..n], job);
    EvaluationsKept(s, AttemptsOf(Successes(s, job)[..n], job));
    AddedCount(s, job, n);
    forall i | |s.evaluations| <= i < |after.evaluations| ensures ForScope(s, after.evaluations[i], job) {
      AddedInScope(s, job, n, i - |s.evaluations|);
      assert Added(s, job, n)[i - |s.evaluations|] == after.evaluations[i];
    }
  }

  lemma RunCoversScope(s: Store, job: Job)
    requires UniqueIds(job.table)
    ensures CoversScope(EvaluateAll(s, Successes(s, job), job), job)
  {
    forall w | w in job.table && InScope(w, job.sel) && job.decide(w).Some?
      ensures EvaluatedBefore(EvaluateAll(s, Successes(s, job), job), w, job.sel)
    {
      ScopeCovered(s, job, w);
    }
  }

  lemma ScopeCovered(s: Store, job: Job, w: WindowRow)
    requires UniqueIds(job.table) && w in job.table && InScope(w, job.sel) && job.decide(w).Some?
    ensures EvaluatedBefore(EvaluateAll(s, Successes(s, job), job), w, job.sel)
  {
    var rows, n := Successes(s, job), |Successes(s, job)|;
    var after := EvaluateAll(s, rows, job);
    EvaluationsKept(s, AttemptsOf(rows, job));
    SuccessOnFields(s, job, w);
    if w in rows {
      var i :| 0 <= i < n && rows[i] == w;
      assert rows[..n] == rows;
      AddedAt(s, job, n, i);
      assert Added(s, job, n)[i] == after.evaluations[|s.evaluations| + i];
    } else {
      var e :| e in s.evaluations && IsOf(w, job.sel)(e);
      var i :| 0 <= i < |s.evaluations| && s.evaluations[i] == e;
      assert after.evaluations[..|s.evaluations|][i] == e;
    }
  }

  /** Reads and evaluates batches of pending windows. Without a cap it ends because fewer windows
      raise than fit in a batch; the windows evaluated are the first ones, in order, of those that
      do not raise, and all of them unless the cap was reached. Only windows that the run was asked for
      are evaluated, and without a cap or short of it all of them. */
  method RunProfileOnce(store: FindingStore, table: seq<WindowRow>, sel: Selection, decide: Engine, batchSize: int,
                        maxWindows: Option<int>)
    returns (run: nat, evaluated: nat, processed: nat, status: RunStatus)
    requires UniqueIds(table)
    requires maxWindows.None? ==>
               var failures := Failures(Started(store.Snapshot()), Job(table, |store.runs|, sel, decide));
               failures == [] || |failures| < batchSize
    modifies store
    ensures var s, job := Started(old(store.Snapshot())), Job(table, |old(store.runs)|, sel, decide);
            && run == job.run
            && evaluated <= |Successes(s, job)|
            && store.Snapshot() == EvaluateAll(s, Successes(s, job)[..evaluated], job)
            && (maxWindows.None? || processed < maxWindows.value ==> evaluated == |Successes(s, job)|)
            && (status == Partial <==> processed > evaluated)
            && AddsInScope(s, store.Snapshot(), job)
            && (maxWindows.None? || processed < maxWindows.value ==> CoversScope(store.Snapshot(), job))
    ensures evaluated <= processed
    ensures maxWindows.Some? ==> processed <= Max(0, maxWindows.value)
  {
    run := store.StartRun();
    var job := Job(table, run, sel, decide);
    ghost var s, done := store.Snapshot(), [];
    var hadError := false;
    processed, evaluated := 0, 0;
    while maxWindows.None? || processed < maxWindows.value
      invariant Draining(s, store.Snapshot(), done, job)
      invariant |done| == evaluated <= processed && (hadError <==> evaluated < processed)
      invariant maxWindows.Some? ==> processed <= Max(0, maxWindows.value)
      decreases if maxWindows.Some? then maxWindows.value - processed else |Pending(store.Snapshot(), job)|
    {
      var limit := BatchLimit(batchSize);
      if maxWindows.Some? && maxWindows.value - processed < limit {
        limit := maxWindows.value - processed;
      }
      var read, persisted, raised;
      read, persisted, raised, done := RunBatch(store, job, limit, s, done);
      processed, evaluated, hadError := processed + read, evaluated + persisted, hadError || raised;
      if read < limit {
        break;
      }
    }
    DrainingEnd(s, store.Snapshot(), done, job);
    status := if hadError then Partial else Success;
  }
}
