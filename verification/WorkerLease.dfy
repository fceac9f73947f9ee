/**
 The worker lease: one row per worker key, taken over, renewed, stopped and released by owners
 that act in any order. Every step is one statement or transaction on the lease table. Times are
 seconds.
 */
module WorkerLease {
  import opened Sequences

  datatype WorkerStatus = Running | Idle | Stopping | Stopped | Failed

  datatype Row = Row(
    worker: string, owner: string, status: WorkerStatus, stopRequested: bool, expires: Option<int>, heartbeatAt: int)

  type Leases = map<string, Row>

  /** What an owner keeps of its lease. */
  datatype Lease = Lease(worker: string, owner: string, key: string)

  datatype Step =
    | Acquire(key: string, owner: string, newWorker: string, interval: int, leaseSeconds: int, now: int)
    | Heartbeat(lease: Lease, interval: int, idle: bool, now: int)
    | Stop(key: string, confirm: bool, now: int)
    | Poll(lease: Lease)
    | Release(lease: Lease, failed: bool, now: int)

  function RenewedUntil(now: int, interval: int): int { now + Max(interval * 2, 30) }

  predicate Live(status: WorkerStatus) { status == Running || status == Idle }

  /** A row that keeps everybody else out. */
  predicate Active(row: Row, now: int) {
    Live(row.status) && !row.stopRequested && (row.expires.None? || row.expires.value > now)
  }

  const MIN_INTERVAL := 5

  /** Whether an acquisition goes through. */
  predicate Granted(rows: Leases, key: string, interval: int, now: int) {
    interval >= MIN_INTERVAL && (key in rows ==> !Active(rows[key], now))
  }

  predicate Holds(rows: Leases, lease: Lease) {
    lease.key in rows && rows[lease.key].worker == lease.worker && rows[lease.key].owner == lease.owner
  }

  predicate StopSeen(rows: Leases, lease: Lease) {
    exists k :: k in rows && rows[k].worker == lease.worker && rows[k].owner == lease.owner && rows[k].stopRequested
  }

  function WorkerOf(rows: Leases, key: string, newWorker: string): string {
    if key in rows then rows[key].worker else newWorker
  }

  function Take(rows: Leases, step: Step): Leases {
    match step
    case Acquire(key, owner, newWorker, interval, leaseSeconds, now) =>
      if Granted(rows, key, interval, now)
      then
        var expires := now + Max(leaseSeconds, interval);
        rows[key := Row(WorkerOf(rows, key, newWorker), owner, Running, false, Some(expires), now)]
      else rows
    case Heartbeat(lease, interval, idle, now) =>
      if Holds(rows, lease)
      then rows[lease.key := rows[lease.key].(status := if idle then Idle else Running,
                                              expires := Some(RenewedUntil(now, interval)), heartbeatAt := now)]
      else rows
    case Stop(key, confirm, now) =>
      if confirm && key in rows && Live(rows[key].status)
      then rows[key := rows[key].(status := Stopping, stopRequested := true, heartbeatAt := now)]
      else rows
    case Poll(_) => rows
    case Release(lease, failed, now) =>
      if Holds(rows, lease)
      then rows[lease.key := rows[lease.key].(status := if failed then Failed else Stopped, stopRequested := false,
                                              expires := Some(now), heartbeatAt := now)]
      else rows
  }

  /** What the caller of a step is told. */
  predicate Answer(rows: Leases, step: Step) {
    match step
    case Acquire(key, _, _, interval, _, now) => Granted(rows, key, interval, now)
    case Heartbeat(lease, _, _, _) => Holds(rows, lease)
    case Stop(_, confirm, _) => confirm
    case Poll(lease) => StopSeen(rows, lease)
    case Release(_, _, _) => true
  }

  function TakeAll(rows: Leases, steps: seq<Step>): Leases {
    if steps == [] then rows else Take(TakeAll(rows, steps[..|steps| - 1]), steps[|steps| - 1])
  }

  // --- A displaced owner -------------------------------------------------------------------

  /** No row belongs to the owner. */
  ghost predicate Gone(rows: Leases, owner: string) {
    forall k :: k in rows ==> rows[k].owner != owner
  }

  /** Fresh ids: nobody acquires under an owner's id again. */
  ghost predicate NeverAcquires(steps: seq<Step>, owner: string) {
    forall n :: 0 <= n < |steps| && steps[n].Acquire? ==> steps[n].owner != owner
  }

  predicate ActsFor(step: Step, owner: string) {
    (step.Heartbeat? || step.Poll? || step.Release?) && step.lease.owner == owner
  }

  lemma {:induction false} StaysGone(rows: Leases, steps: seq<Step>, owner: string)
    requires Gone(rows, owner) && NeverAcquires(steps, owner)
    ensures Gone(TakeAll(rows, steps), owner)
  {
    if steps != [] {
      StaysGone(rows, steps[..|steps| - 1], owner);
    }
  }

  /** Once displaced, an owner's heartbeats, polls and releases change nothing and see nothing, in
      every later interleaving: heartbeats and stop polls answer no for ever. */
  lemma DisplacedForever(rows: Leases, steps: seq<Step>, owner: string, n: nat)
    requires Gone(rows, owner) && NeverAcquires(steps, owner)
    requires n < |steps| && ActsFor(steps[n], owner)
    ensures var now := TakeAll(rows, steps[..n]);
            Take(now, steps[n]) == now && (!steps[n].Release? ==> !Answer(now, steps[n]))
  {
    StaysGone(rows, steps[..n], owner);
  }

  // --- Fresh ids ---------------------------------------------------------------------------

  /** No two rows share an owner or a worker id. */
  ghost predicate OneRowEach(rows: Leases) {
    forall j, k :: j in rows && k in rows && j != k ==> rows[j].owner != rows[k].owner && rows[j].worker != rows[k].worker
  }

  ghost predicate FreshStep(rows: Leases, step: Step) {
    step.Acquire? ==> forall k :: k in rows ==> rows[k].owner != step.owner && rows[k].worker != step.newWorker
  }

  ghost predicate FreshRun(rows: Leases, steps: seq<Step>) {
    forall n :: 0 <= n < |steps| ==> FreshStep(TakeAll(rows, steps[..n]), steps[n])
  }

  lemma {:induction false} RowsStaySeparate(rows: Leases, steps: seq<Step>)
    requires OneRowEach(rows) && FreshRun(rows, steps)
    ensures OneRowEach(TakeAll(rows, steps))
  {
    if steps != [] {
      var n := |steps| - 1;
      FreshPrefix(rows, steps, n);
      RowsStaySeparate(rows, steps[..n]);
      assert FreshStep(TakeAll(rows, steps[..n]), steps[n]);
      StepStaysSeparate(TakeAll(rows, steps[..n]), steps[n]);
    }
  }

  lemma StepStaysSeparate(rows: Leases, step: Step)
    requires OneRowEach(rows) && FreshStep(rows, step)
    ensures OneRowEach(Take(rows, step))
  {
  }

  lemma FreshPrefix(rows: Leases, steps: seq<Step>, n: nat)
    requires FreshRun(rows, steps) && n <= |steps|
    ensures FreshRun(rows, steps[..n])
  {
    forall m | 0 <= m < n ensures FreshStep(TakeAll(rows, steps[..n][..m]), steps[..n][m]) {
      assert steps[..n][..m] == steps[..m];
      assert FreshStep(TakeAll(rows, steps[..m]), steps[m]);
    }
  }

  /** A takeover leaves no row of the previous owner behind. */
  lemma TakeoverDisplaces(rows: Leases, step: Step)
    requires OneRowEach(rows) && FreshStep(rows, step) && step.Acquire? && step.key in rows && Answer(rows, step)
    ensures Gone(Take(rows, step), rows[step.key].owner)
  {
  }

  // --- What displaces an owner -------------------------------------------------------------

  predicate Beats(step: Step, lease: Lease) { step.Heartbeat? && step.lease == lease }

  /** When a lease runs out, reckoned from its owner's own heartbeats alone: two intervals after the
      last one, but no less than 30 seconds. */
  function LeaseEnd(end: int, steps: seq<Step>, lease: Lease): int {
    if steps == [] then end
    else
      var last := steps[|steps| - 1];
      if !Beats(last, lease) then LeaseEnd(end, steps[..|steps| - 1], lease)
      else if last.interval > 15 then last.now + last.interval + last.interval
      else last.now + 30
  }

  /** The three ways to lose a lease: giving it up, a stop request, or a takeover after it ran out. */
  predicate Loses(end: int, steps: seq<Step>, lease: Lease, n: nat)
    requires n < |steps|
  {
    match steps[n]
    case Release(l, _, _) => l == lease
    case Stop(key, confirm, _) => key == lease.key && confirm
    case Acquire(key, _, _, _, _, now) => key == lease.key && LeaseEnd(end, steps[..n], lease) <= now
    case Heartbeat(_, _, _, _) => false
    case Poll(_) => false
  }

  /** The lease is held by its owner, live, not asked to stop, and runs out at the given time. */
  ghost predicate HeldUntil(rows: Leases, lease: Lease, end: int) {
    && Holds(rows, lease) && Live(rows[lease.key].status)
    && !rows[lease.key].stopRequested && rows[lease.key].expires == Some(end)
  }

  lemma {:induction false} KeptUnlessLost(rows: Leases, steps: seq<Step>, lease: Lease, end: int)
    requires HeldUntil(rows, lease, end)
    requires forall n :: 0 <= n < |steps| ==> !Loses(end, steps, lease, n)
    ensures HeldUntil(TakeAll(rows, steps), lease, LeaseEnd(end, steps, lease))
  {
    if steps != [] {
      var m := |steps| - 1;
      forall n | 0 <= n < m ensures !Loses(end, steps[..m], lease, n) {
        assert steps[..m][..n] == steps[..n];
        assert !Loses(end, steps, lease, n);
      }
      KeptUnlessLost(rows, steps[..m], lease, end);
      assert !Loses(end, steps, lease, m);
    }
  }

  /** An owner that acquired a lease still holds it at the end of every interleaving unless it
      released it, was asked to stop, or let it run out before somebody else asked for it. */
  lemma DisplacedOnlyByCause(rows: Leases, acquire: Step, steps: seq<Step>)
    requires acquire.Acquire? && Answer(rows, acquire)
    ensures var lease, end := Granting(rows, acquire), FirstEnd(acquire);
            || (exists n :: 0 <= n < |steps| && Loses(end, steps, lease, n))
            || HeldUntil(TakeAll(Take(rows, acquire), steps), lease, LeaseEnd(end, steps, lease))
  {
    var lease, end := Granting(rows, acquire), FirstEnd(acquire);
    if forall n :: 0 <= n < |steps| ==> !Loses(end, steps, lease, n) {
      KeptUnlessLost(Take(rows, acquire), steps, lease, end);
    }
  }

  lemma HeldAnswers(rows: Leases, step: Step, lease: Lease, end: int)
    requires HeldUntil(rows, lease, end) && OneRowEach(rows)
    requires step.Acquire? && step.key == lease.key ==> step.now < end
    ensures step.Heartbeat? && step.lease == lease ==> Answer(rows, step)
    ensures step.Poll? && step.lease == lease ==> !Answer(rows, step)
    ensures step.Acquire? && step.key == lease.key ==> !Answer(rows, step)
  {
  }

  function Granting(rows: Leases, acquire: Step): Lease
    requires acquire.Acquire?
  {
    Lease(WorkerOf(rows, acquire.key, acquire.newWorker), acquire.owner, acquire.key)
  }

  function FirstEnd(acquire: Step): int
    requires acquire.Acquire?
  {
    if acquire.leaseSeconds > acquire.interval then acquire.now + acquire.leaseSeconds else acquire.now + acquire.interval
  }

  /** While nothing of that kind happens, every heartbeat of the owner is answered yes, every stop
      poll no, and everybody else is refused. */
  lemma UndisturbedWorker(rows: Leases, acquire: Step, steps: seq<Step>, n: nat)
    requires acquire.Acquire? && Answer(rows, acquire) && OneRowEach(rows) && FreshRun(rows, [acquire] + steps)
    requires forall m :: 0 <= m < |steps| ==> !Loses(FirstEnd(acquire), steps, Granting(rows, acquire), m)
    requires n < |steps|
    ensures var now, lease := TakeAll(Take(rows, acquire), steps[..n]), Granting(rows, acquire);
            && (steps[n].Heartbeat? && steps[n].lease == lease ==> Answer(now, steps[n]))
            && (steps[n].Poll? && steps[n].lease == lease ==> !Answer(now, steps[n]))
            && (steps[n].Acquire? && steps[n].key == lease.key ==> !Answer(now, steps[n]))
  {
    var lease, end := Granting(rows, acquire), FirstEnd(acquire);
    forall m | 0 <= m < n ensures !Loses(end, steps[..n], lease, m) {
      assert steps[..n][..m] == steps[..m];
      assert !Loses(end, steps, lease, m);
    }
    KeptUnlessLost(Take(rows, acquire), steps[..n], lease, end);
    SeparateAfter(rows, acquire, steps, n);
    assert !Loses(end, steps, lease, n);
    HeldAnswers(TakeAll(Take(rows, acquire), steps[..n]), steps[n], lease, LeaseEnd(end, steps[..n], lease));
  }

  lemma SeparateAfter(rows: Leases, acquire: Step, steps: seq<Step>, n: nat)
    requires OneRowEach(rows) && FreshRun(rows, [acquire] + steps) && n <= |steps|
    ensures OneRowEach(TakeAll(Take(rows, acquire), steps[..n]))
  {
    TakeFirst(rows, acquire, steps[..n]);
    FreshPrefix(rows, [acquire] + steps, n + 1);
    assert ([acquire] + steps)[..n + 1] == [acquire] + steps[..n];
    RowsStaySeparate(rows, [acquire] + steps[..n]);
  }

  lemma {:induction false} TakeFirst(rows: Leases, step: Step, steps: seq<Step>)
    ensures TakeAll(rows, [step] + steps) == TakeAll(Take(rows, step), steps)
  {
    if steps == [] {
      assert [step] + steps == [step];
      assert TakeAll(rows, [step][..0]) == rows;
    } else {
      var n := |steps| - 1;
      assert ([step] + steps)[..|[step] + steps| - 1] == [step] + steps[..n];
      TakeFirst(rows, step, steps[..n]);
    }
  }

  // --- When a lease is open to others ------------------------------------------------------

  /** Steps that change what others are told about a lease that runs out at the given time. */
  predicate Disturbs(step: Step, lease: Lease, end: int) {
    match step
    case Release(l, _, _) => l == lease
    case Stop(key, confirm, _) => key == lease.key && confirm
    case Acquire(key, _, _, interval, _, now) => key == lease.key && interval >= 5 && end <= now
    case Heartbeat(l, _, _, _) => l == lease
    case Poll(_) => false
  }

  lemma {:induction false} HeldUndisturbed(rows: Leases, steps: seq<Step>, lease: Lease, end: int)
    requires HeldUntil(rows, lease, end) && forall n :: 0 <= n < |steps| ==> !Disturbs(steps[n], lease, end)
    ensures HeldUntil(TakeAll(rows, steps), lease, end)
  {
    if steps != [] {
      HeldUndisturbed(rows, steps[..|steps| - 1], lease, end);
    }
  }

  /** A valid acquisition of a held lease goes through exactly when the lease has run out. */
  lemma OpenAfterEnd(rows: Leases, steps: seq<Step>, lease: Lease, end: int, next: Step)
    requires HeldUntil(rows, lease, end) && forall n :: 0 <= n < |steps| ==> !Disturbs(steps[n], lease, end)
    requires next.Acquire? && next.key == lease.key
    ensures Answer(TakeAll(rows, steps), next) <==> next.interval >= 5 && end <= next.now
  {
    HeldUndisturbed(rows, steps, lease, end);
  }

  /** After a heartbeat that was answered yes, and as long as its owner neither releases nor beats again
      and is not asked to stop, others get the lease exactly from two intervals and 30 seconds after it. */
  lemma OpenAfterHeartbeat(rows: Leases, lease: Lease, interval: int, idle: bool, t: int, steps: seq<Step>, next: Step)
    requires Answer(rows, Heartbeat(lease, interval, idle, t)) && !rows[lease.key].stopRequested
    requires forall n :: 0 <= n < |steps| ==> !Disturbs(steps[n], lease, if interval > 15 then t + 2 * interval else t + 30)
    requires next.Acquire? && next.key == lease.key
    ensures Answer(TakeAll(Take(rows, Heartbeat(lease, interval, idle, t)), steps), next)
            <==> next.interval >= 5 && next.now >= t + 2 * interval && next.now >= t + 30
  {
    OpenAfterEnd(Take(rows, Heartbeat(lease, interval, idle, t)), steps, lease,
                 if interval > 15 then t + 2 * interval else t + 30, next);
  }

  /** A granted lease without any heartbeat is open to others exactly from its lease time and one interval
      after it was acquired. */
  lemma OpenAfterGrant(rows: Leases, acquire: Step, steps: seq<Step>, next: Step)
    requires acquire.Acquire? && Answer(rows, acquire) && next.Acquire? && next.key == acquire.key
    requires forall n :: 0 <= n < |steps| ==> !Disturbs(steps[n], Granting(rows, acquire), FirstEnd(acquire))
    ensures Answer(TakeAll(Take(rows, acquire), steps), next)
            <==> next.interval >= 5 && next.now >= acquire.now + acquire.leaseSeconds
                 && next.now >= acquire.now + acquire.interval
  {
    OpenAfterEnd(Take(rows, acquire), steps, Granting(rows, acquire), FirstEnd(acquire), next);
  }

  /** Nothing keeps an acquisition with an interval of at least five seconds from a key that nobody holds,
      whose owner was asked to stop, or whose owner has released it. */
  lemma OpenWithoutOwner(rows: Leases, next: Step, lease: Lease)
    requires next.Acquire?
    requires next.key in rows ==>
               || rows[next.key].stopRequested
               || (lease.key == next.key && exists before, failed, now :: Holds(before, lease)
                                                                         && rows == Take(before, Release(lease, failed, now)))
    ensures Answer(rows, next) <==> next.interval >= 5
    ensures next.interval < 5 ==> Take(rows, next) == rows
  {
  }

  // --- A punctual worker -------------------------------------------------------------------

  function TimeOf(step: Step): Option<int> {
    match step
    case Acquire(_, _, _, _, _, now) => Some(now)
    case Heartbeat(_, _, _, now) => Some(now)
    case Stop(_, _, now) => Some(now)
    case Poll(_) => None
    case Release(_, _, now) => Some(now)
  }

  /** The steps happen in order of time. */
  ghost predicate InTimeOrder(steps: seq<Step>) {
    forall i, j :: 0 <= i < j < |steps| && TimeOf(steps[i]).Some? && TimeOf(steps[j]).Some?
                   ==> TimeOf(steps[i]).value <= TimeOf(steps[j]).value
  }

  function LastBeat(steps: seq<Step>, lease: Lease): Option<int> {
    if steps == [] then None
    else if Beats(steps[|steps| - 1], lease) then Some(steps[|steps| - 1].now)
    else LastBeat(steps[..|steps| - 1], lease)
  }

  /** A time comes less than 30 seconds after the owner's last heartbeat, or before the granted lease
      ends when there was none. */
  ghost predicate Soon(acquire: Step, before: seq<Step>, lease: Lease, t: int)
    requires acquire.Acquire?
  {
    match LastBeat(before, lease)
    case None => t < acquire.now + acquire.leaseSeconds || t < acquire.now + acquire.interval
    case Some(beat) => t < beat + 30
  }

  /** Every heartbeat of the owner comes soon after the one before it. */
  ghost predicate Punctual(acquire: Step, steps: seq<Step>, lease: Lease)
    requires acquire.Acquire?
  {
    forall n :: 0 <= n < |steps| && Beats(steps[n], lease) ==> Soon(acquire, steps[..n], lease, steps[n].now)
  }

  /** The owner releases the lease or is asked to stop. */
  predicate GivesUp(step: Step, lease: Lease) {
    (step.Release? && step.lease == lease) || (step.Stop? && step.key == lease.key && step.confirm)
  }

  lemma {:induction false} SoonIsBeforeEnd(acquire: Step, before: seq<Step>, lease: Lease, t: int)
    requires acquire.Acquire? && Soon(acquire, before, lease, t)
    ensures t < LeaseEnd(FirstEnd(acquire), before, lease)
  {
    if before != [] && !Beats(before[|before| - 1], lease) {
      SoonIsBeforeEnd(acquire, before[..|before| - 1], lease, t);
    }
  }

  /** Up to the next heartbeat, or to a moment soon after the last one, every moment is soon after it. */
  lemma {:induction false} SoonUntil(acquire: Step, steps: seq<Step>, lease: Lease, m: nat, n: nat, t: int)
    requires acquire.Acquire? && InTimeOrder(steps) && Punctual(acquire, steps, lease)
    requires m <= n < |steps| && TimeOf(steps[n]).Some? && Soon(acquire, steps[..n], lease, TimeOf(steps[n]).value)
    requires t <= TimeOf(steps[n]).value
    requires forall j :: m <= j < |steps| && TimeOf(steps[j]).Some? ==> t <= TimeOf(steps[j]).value
    ensures Soon(acquire, steps[..m], lease, t)
    decreases n - m
  {
    if m < n && !Beats(steps[m], lease) {
      SoonUntil(acquire, steps, lease, m + 1, n, t);
      assert steps[..m + 1][..m] == steps[..m];
    }
  }

  /** A worker whose heartbeats come less than 30 seconds apart, the first one before its granted lease
      ends, and that neither releases nor is asked to stop, keeps everybody else out up to less than 30
      seconds after its last heartbeat, in every interleaving. */
  lemma PunctualWorker(rows: Leases, acquire: Step, steps: seq<Step>, n: nat)
    requires acquire.Acquire? && Answer(rows, acquire) && InTimeOrder(steps)
    requires Punctual(acquire, steps, Granting(rows, acquire))
    requires forall m :: 0 <= m < |steps| ==> !GivesUp(steps[m], Granting(rows, acquire))
    requires n < |steps| && steps[n].Acquire? && steps[n].key == acquire.key
    requires Soon(acquire, steps[..n], Granting(rows, acquire), steps[n].now)
    ensures !Answer(TakeAll(Take(rows, acquire), steps[..n]), steps[n])
    ensures Answer(TakeAll(Take(rows, acquire), steps[..n]), Heartbeat(Granting(rows, acquire), 0, true, 0))
  {
    var lease, end := Granting(rows, acquire), FirstEnd(acquire);
    forall m | 0 <= m < n ensures !Loses(end, steps[..n], lease, m) {
      assert steps[..n][..m] == steps[..m];
      assert !GivesUp(steps[m], lease);
      if steps[m].Acquire? {
        SoonUntil(acquire, steps, lease, m, n, steps[m].now);
        SoonIsBeforeEnd(acquire, steps[..m], lease, steps[m].now);
      }
    }
    KeptUnlessLost(Take(rows, acquire), steps[..n], lease, end);
    SoonIsBeforeEnd(acquire, steps[..n], lease, steps[n].now);
  }

  // --- Stop requests -----------------------------------------------------------------------

  /** A step that ends a stop request: its owner's release, or a takeover. */
  predicate EndsStop(step: Step, lease: Lease) {
    || (step.Release? && step.lease == lease)
    || (step.Acquire? && step.key == lease.key && step.interval >= MIN_INTERVAL)
  }

  ghost predicate StopPending(rows: Leases, lease: Lease) {
    Holds(rows, lease) && rows[lease.key].stopRequested
  }

  lemma {:induction false} StopStays(rows: Leases, steps: seq<Step>, lease: Lease)
    requires StopPending(rows, lease) && forall n :: 0 <= n < |steps| ==> !EndsStop(steps[n], lease)
    ensures StopPending(TakeAll(rows, steps), lease)
  {
    if steps != [] {
      StopStays(rows, steps[..|steps| - 1], lease);
    }
  }

  lemma StopTakesEffect(rows: Leases, lease: Lease, now: int)
    requires Holds(rows, lease) && Live(rows[lease.key].status)
    ensures StopPending(Take(rows, Stop(lease.key, true, now)), lease)
  {
  }

  /** From the stop call on a live lease, the request stays until the owner releases or somebody takes
      over, in every interleaving; heartbeats do not clear it, and every poll of the owner sees it. */
  lemma StopNotLost(rows: Leases, lease: Lease, now: int, steps: seq<Step>)
    requires Holds(rows, lease) && Live(rows[lease.key].status)
    requires forall n :: 0 <= n < |steps| ==> !EndsStop(steps[n], lease)
    ensures var after := TakeAll(Take(rows, Stop(lease.key, true, now)), steps);
            StopPending(after, lease) && Answer(after, Poll(lease))
  {
    var after := TakeAll(Take(rows, Stop(lease.key, true, now)), steps);
    StopTakesEffect(rows, lease, now);
    StopStays(Take(rows, Stop(lease.key, true, now)), steps, lease);
    assert after[lease.key].stopRequested;
  }

  /** Either way of ending a stop request does end it. */
  lemma StopEnds(rows: Leases, step: Step, lease: Lease)
    requires StopPending(rows, lease) && FreshStep(rows, step)
    ensures !StopPending(Take(rows, step), lease) <==> EndsStop(step, lease)
  {
  }

  // --- A released lease --------------------------------------------------------------------

  /** A released lease can be taken again at any time until its former owner sends another
      heartbeat, which revives it: the row is open to others exactly when no heartbeat followed. */
  lemma {:induction false} ReleasedUntilHeartbeat(rows: Leases, steps: seq<Step>, lease: Lease)
    requires Holds(rows, lease) && !Live(rows[lease.key].status)
    requires forall n :: 0 <= n < |steps| && (steps[n].Acquire? || steps[n].Stop?) ==> steps[n].key != lease.key
    requires forall n :: 0 <= n < |steps| && steps[n].Release? ==> steps[n].lease != lease
    ensures var now := TakeAll(rows, steps);
            && Holds(now, lease)
            && (Live(now[lease.key].status) <==>
                exists n :: 0 <= n < |steps| && steps[n].Heartbeat? && steps[n].lease == lease)
  {
    if steps != [] {
      ReleasedUntilHeartbeat(rows, steps[..|steps| - 1], lease);
    }
  }

  /** A heartbeat that arrives after the release revives the row and keeps the next owner out for two
      intervals, and for no less than 30 seconds. */
  lemma LateHeartbeatBlocks(rows: Leases, lease: Lease, failed: bool, released: int, late: int, interval: int, idle: bool,
                            next: Step)
    requires Holds(rows, lease) && next.Acquire? && next.key == lease.key && next.interval >= 5
    ensures var open := Take(rows, Release(lease, failed, released));
            && Answer(open, next)
            && (Answer(Take(open, Heartbeat(lease, interval, idle, late)), next)
                <==> next.now >= late + 2 * interval && next.now >= late + 30)
  {
  }

  // --- What a step does to the rows --------------------------------------------------------

  function KeyOf(step: Step): Option<string> {
    match step
    case Acquire(key, _, _, _, _, _) => Some(key)
    case Heartbeat(lease, _, _, _) => Some(lease.key)
    case Stop(key, _, _) => Some(key)
    case Poll(_) => None
    case Release(lease, _, _) => Some(lease.key)
  }

  /** A step touches no row but that of its key, and only a granted acquisition changes whose it is: the
      new owner goes on under the worker id that the key already has. */
  lemma OwnershipAfter(rows: Leases, step: Step)
    ensures forall k :: KeyOf(step) != Some(k) ==> (k in Take(rows, step) <==> k in rows)
    ensures forall k :: KeyOf(step) != Some(k) && k in rows ==> Take(rows, step)[k] == rows[k]
    ensures forall k :: k in rows && (step.Acquire? ==> !Answer(rows, step)) ==>
              k in Take(rows, step) && Take(rows, step)[k].owner == rows[k].owner
              && Take(rows, step)[k].worker == rows[k].worker
    ensures step.Acquire? && Answer(rows, step) ==>
              && step.key in Take(rows, step) && Take(rows, step)[step.key].owner == step.owner
              && Take(rows, step)[step.key].worker == if step.key in rows then rows[step.key].worker else step.newWorker
  {
  }

  /** The status tells what was done last: acquired or beating rows run or idle, a stop marks live rows
      only, a release says whether the worker failed and clears the mark. */
  lemma StatusAfter(rows: Leases, step: Step, lease: Lease)
    requires Holds(rows, lease)
    ensures var before, after := rows[lease.key], Take(rows, step);
            && (step.Heartbeat? && step.lease == lease ==>
                  after[lease.key].status == (if step.idle then Idle else Running)
                  && after[lease.key].stopRequested == before.stopRequested)
            && (step.Release? && step.lease == lease ==>
                  after[lease.key].status == (if step.failed then Failed else Stopped) && !after[lease.key].stopRequested)
            && (step.Stop? && step.key == lease.key ==>
                  if step.confirm && (before.status == Running || before.status == Idle)
                  then after[lease.key].status == Stopping && after[lease.key].stopRequested
                  else after == rows)
            && (step.Acquire? && step.key == lease.key && Answer(rows, step) ==>
                  after[lease.key].status == Running && !after[lease.key].stopRequested)
  {
  }

  // --- The table ---------------------------------------------------------------------------

  class LeaseTable {
    var rows: Leases

    constructor ()
      ensures rows == map[]
    {
      rows := map[];
    }

    method AcquireLease(key: string, owner: string, newWorker: string, interval: int, leaseSeconds: int, now: int)
      returns (lease: Option<Lease>)
      modifies this
      ensures rows == Take(old(rows), Acquire(key, owner, newWorker, interval, leaseSeconds, now))
      ensures lease.Some? <==> Answer(old(rows), Acquire(key, owner, newWorker, interval, leaseSeconds, now))
      ensures lease.Some? ==> Holds(rows, lease.value) && lease.value.owner == owner && lease.value.key == key
      ensures lease.Some? ==>
                rows[key].expires == Some(if leaseSeconds > interval then now + leaseSeconds else now + interval)
    {
      if interval < MIN_INTERVAL {
        return None;
      }
      var expires := now + Max(leaseSeconds, interval);
      var worker := newWorker;
      if key in rows {
        var row := rows[key];
        if Live(row.status) && !row.stopRequested && (row.expires.None? || row.expires.value > now) {
          return None;
        }
        worker := row.worker;
      }
      rows := rows[key := Row(worker, owner, Running, false, Some(expires), now)];
      return Some(Lease(worker, owner, key));
    }

    method SendHeartbeat(lease: Lease, interval: int, idle: bool, now: int) returns (renewed: bool)
      modifies this
      ensures rows == Take(old(rows), Heartbeat(lease, interval, idle, now))
      ensures renewed == Answer(old(rows), Heartbeat(lease, interval, idle, now))
      ensures renewed ==> lease.key in rows && rows[lease.key].stopRequested == old(rows)[lease.key].stopRequested
                          && rows[lease.key].expires == Some(if interval > 15 then now + interval + interval else now + 30)
    {
      renewed := lease.key in rows && rows[lease.key].worker == lease.worker && rows[lease.key].owner == lease.owner;
      if renewed {
        rows := rows[lease.key := rows[lease.key].(heartbeatAt := now, status := if idle then Idle else Running,
                                                   expires := Some(now + Max(interval * 2, 30)))];
      }
    }

    method StopWorker(key: string, confirm: bool, now: int) returns (accepted: bool)
      modifies this
      ensures rows == Take(old(rows), Stop(key, confirm, now)) && accepted == confirm
    {
      if !confirm {
        return false;
      }
      if key in rows && Live(rows[key].status) {
        rows := rows[key := rows[key].(status := Stopping, stopRequested := true, heartbeatAt := now)];
      }
      return true;
    }

    method ReleaseLease(lease: Lease, failed: bool, now: int)
      modifies this
      ensures rows == Take(old(rows), Release(lease, failed, now))
    {
      if lease.key in rows && rows[lease.key].worker == lease.worker && rows[lease.key].owner == lease.owner {
        rows := rows[lease.key := rows[lease.key].(heartbeatAt := now, status := if failed then Failed else Stopped,
                                                   stopRequested := false, expires := Some(now))];
      }
    }

    method IsStopRequested(lease: Lease) returns (requested: bool)
      ensures requested == Answer(rows, Poll(lease))
    {
      requested :=
        exists k :: k in rows && rows[k].worker == lease.worker && rows[k].owner == lease.owner && rows[k].stopRequested;
    }
  }
}
