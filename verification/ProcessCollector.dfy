/**
 The process collector: what one poll emits for the difference of two process snapshots, and what
 the events of many polls, some of them failed, add up to.
 */
module ProcessCollectors {
  import opened Sequences

  datatype Snapshot = Snapshot(pid: int, createTime: real, name: string)

  /** A process is told apart by its pid and the time it was created. */
  datatype Identity = Identity(pid: int, createTime: real)

  /** A snapshot: processes under their pid, and the order they are visited in. */
  datatype Processes = Processes(order: seq<int>, at: map<int, Snapshot>)

  ghost predicate WellFormed(p: Processes) {
    && Distinct(p.order)
    && (forall pid :: pid in p.order <==> pid in p.at)
    && (forall pid :: pid in p.at ==> p.at[pid].pid == pid)
  }

  datatype Action = Started | Stopped

  datatype Event = Event(action: Action, process: Snapshot)

  function IdentityOf(s: Snapshot): Identity { Identity(s.pid, s.createTime) }

  // --- The difference of two snapshots -----------------------------------------------------

  function ChangeAt(previous: Processes, s: Snapshot): seq<Event> {
    if s.pid !in previous.at then [Event(Started, s)]
    else if previous.at[s.pid].createTime != s.createTime
    then [Event(Stopped, previous.at[s.pid]), Event(Started, s)]
    else []
  }

  /** The events for the first n processes of the new snapshot. */
  function Arrivals(previous: Processes, current: Processes, n: nat): seq<Event>
    requires n <= |current.order| && forall pid :: pid in current.order ==> pid in current.at
  {
    if n == 0 then []
    else Arrivals(previous, current, n - 1) + ChangeAt(previous, current.at[current.order[n - 1]])
  }

  function Departure(previous: Processes, current: Processes, pid: int): seq<Event>
    requires pid in previous.at
  {
    if pid in current.at then [] else [Event(Stopped, previous.at[pid])]
  }

  /** The events for the first n processes of the old snapshot. */
  function Departures(previous: Processes, current: Processes, n: nat): seq<Event>
    requires n <= |previous.order| && forall pid :: pid in previous.order ==> pid in previous.at
  {
    if n == 0 then []
    else
      assert previous.order[n - 1] in previous.order;
      Departures(previous, current, n - 1) + Departure(previous, current, previous.order[n - 1])
  }

  function Diff(previous: Processes, current: Processes): seq<Event>
    requires forall pid :: pid in previous.order ==> pid in previous.at
    requires forall pid :: pid in current.order ==> pid in current.at
  {
    Arrivals(previous, current, |current.order|) + Departures(previous, current, |previous.order|)
  }

  method DiffProcessSnapshots(previous: Processes, current: Processes) returns (events: seq<Event>)
    requires WellFormed(previous) && WellFormed(current)
    ensures events == Diff(previous, current)
  {
    events := [];
    for n := 0 to |current.order|
      invariant events == Arrivals(previous, current, n)
    {
      var pid := current.order[n];
      var snapshot := current.at[pid];
      if pid !in previous.at {
        events := events + [Event(Started, snapshot)];
      } else if previous.at[pid].createTime != snapshot.createTime {
        events := events + [Event(Stopped, previous.at[pid])];
        events := events + [Event(Started, snapshot)];
      }
    }
    ghost var arrivals := events;
    for n := 0 to |previous.order|
      invariant events == arrivals + Departures(previous, current, n)
    {
      var pid := previous.order[n];
      if pid !in current.at {
        events := events + [Event(Stopped, previous.at[pid])];
      }
    }
  }

  // --- Replaying events --------------------------------------------------------------------

  function Apply(live: set<Identity>, e: Event): set<Identity> {
    if e.action == Started then live + {IdentityOf(e.process)} else live - {IdentityOf(e.process)}
  }

  function Replay(live: set<Identity>, events: seq<Event>): set<Identity> {
    if events == [] then live else Apply(Replay(live, events[..|events| - 1]), events[|events| - 1])
  }

  function Live(p: Processes): set<Identity> {
    set pid <- p.at.Keys :: IdentityOf(p.at[pid])
  }

  /** A process that starts was not running, and one that stops was. */
  predicate Fits(live: set<Identity>, e: Event) {
    (e.action == Started) <==> IdentityOf(e.process) !in live
  }

  ghost predicate Consistent(live: set<Identity>, events: seq<Event>) {
    forall n :: 0 <= n < |events| ==> Fits(Replay(live, events[..n]), events[n])
  }

  lemma {:induction false} ReplayConcat(live: set<Identity>, a: seq<Event>, b: seq<Event>)
    ensures Replay(live, a + b) == Replay(Replay(live, a), b)
  {
    if b == [] {
      assert a + b == a;
    } else {
      ReplayConcat(live, a, b[..|b| - 1]);
      assert (a + b)[..|a + b| - 1] == a + b[..|b| - 1];
    }
  }

  lemma ConsistentConcat(live: set<Identity>, a: seq<Event>, b: seq<Event>)
    requires Consistent(live, a) && Consistent(Replay(live, a), b)
    ensures Consistent(live, a + b)
  {
    forall n | 0 <= n < |a + b| ensures Fits(Replay(live, (a + b)[..n]), (a + b)[n]) {
      if n < |a| {
        assert (a + b)[..n] == a[..n];
        assert Fits(Replay(live, a[..n]), a[n]);
      } else {
        assert (a + b)[..n] == a + b[..n - |a|];
        ReplayConcat(live, a, b[..n - |a|]);
        assert Fits(Replay(Replay(live, a), b[..n - |a|]), b[n - |a|]);
      }
    }
  }

  // --- One diff ----------------------------------------------------------------------------

  predicate At(p: Processes, id: Identity) { id.pid in p.at && p.at[id.pid].createTime == id.createTime }

  lemma LiveAt(p: Processes, id: Identity)
    requires WellFormed(p)
    ensures id in Live(p) <==> At(p, id)
  {
    if At(p, id) {
      assert id == IdentityOf(p.at[id.pid]);
    }
  }

  /** Half way through the arrivals: the pids visited are as in the new snapshot, the others as in
      the old one. */
  predicate MidArrivals(previous: Processes, current: Processes, n: nat, id: Identity)
    requires n <= |current.order|
  {
    if id.pid in current.order[..n] then At(current, id) else At(previous, id)
  }

  /** Half way through the departures: the old processes visited are gone unless they are in the
      new snapshot. */
  predicate MidDepartures(previous: Processes, current: Processes, n: nat, id: Identity)
    requires n <= |previous.order|
  {
    if id.pid in current.at then At(current, id) else At(previous, id) && id.pid !in previous.order[..n]
  }

  lemma NextIsNew(order: seq<int>, n: nat)
    requires Distinct(order) && n < |order|
    ensures order[n] !in order[..n]
    ensures forall pid :: pid in order[..n + 1] <==> pid in order[..n] || pid == order[n]
  {
    assert order[..n + 1] == order[..n] + [order[n]];
  }

  lemma {:induction false} ArrivalsReplay(previous: Processes, current: Processes, n: nat)
    requires WellFormed(previous) && WellFormed(current) && n <= |current.order|
    ensures forall id :: id in Replay(Live(previous), Arrivals(previous, current, n))
                         <==> MidArrivals(previous, current, n, id)
    ensures Consistent(Live(previous), Arrivals(previous, current, n))
  {
    if n == 0 {
      forall id ensures id in Live(previous) <==> At(previous, id) { LiveAt(previous, id); }
    } else {
      ArrivalsReplay(previous, current, n - 1);
      NextIsNew(current.order, n - 1);
      assert current.order[n - 1] in current.order;
      ArrivalStep(previous, current, n - 1, Replay(Live(previous), Arrivals(previous, current, n - 1)));
      var more := ChangeAt(previous, current.at[current.order[n - 1]]);
      ReplayConcat(Live(previous), Arrivals(previous, current, n - 1), more);
      ConsistentConcat(Live(previous), Arrivals(previous, current, n - 1), more);
    }
  }

  lemma ArrivalStep(previous: Processes, current: Processes, n: nat, live: set<Identity>)
    requires WellFormed(previous) && WellFormed(current) && n < |current.order|
    requires current.order[n] !in current.order[..n] && current.order[n] in current.at
    requires forall pid :: pid in current.order[..n + 1] <==> pid in current.order[..n] || pid == current.order[n]
    requires forall id :: id in live <==> MidArrivals(previous, current, n, id)
    ensures var more := ChangeAt(previous, current.at[current.order[n]]);
            && (forall id :: id in Replay(live, more) <==> MidArrivals(previous, current, n + 1, id))
            && Consistent(live, more)
  {
    var s := current.at[current.order[n]];
    var more := ChangeAt(previous, s);
    assert s.pid == current.order[n];
    assert MidArrivals(previous, current, n, IdentityOf(s)) <==> At(previous, IdentityOf(s));
    if s.pid !in previous.at {
      OneEvent(live, more[0]);
    } else if previous.at[s.pid].createTime != s.createTime {
      assert MidArrivals(previous, current, n, IdentityOf(previous.at[s.pid]));
      TwoEvents(live, more[0], more[1]);
    }
  }

  lemma OneEvent(live: set<Identity>, e: Event)
    ensures Replay(live, [e]) == Apply(live, e)
    ensures Consistent(live, [e]) <==> Fits(live, e)
  {
    assert [e][..0] == [];
    if Consistent(live, [e]) {
      assert Fits(Replay(live, [e][..0]), [e][0]);
    }
  }

  lemma TwoEvents(live: set<Identity>, d: Event, e: Event)
    requires Fits(live, d) && Fits(Apply(live, d), e)
    ensures Replay(live, [d, e]) == Apply(Apply(live, d), e) && Consistent(live, [d, e])
  {
    OneEvent(live, d);
    OneEvent(Apply(live, d), e);
    assert [d, e] == [d] + [e];
    ReplayConcat(live, [d], [e]);
    ConsistentConcat(live, [d], [e]);
  }

  lemma {:induction false} DeparturesReplay(previous: Processes, current: Processes, n: nat, live: set<Identity>)
    requires WellFormed(previous) && WellFormed(current) && n <= |previous.order|
    requires forall id :: id in live <==> MidDepartures(previous, current, 0, id)
    ensures forall id :: id in Replay(live, Departures(previous, current, n)) <==> MidDepartures(previous, current, n, id)
    ensures Consistent(live, Departures(previous, current, n))
  {
    if n > 0 {
      DeparturesReplay(previous, current, n - 1, live);
      NextIsNew(previous.order, n - 1);
      assert previous.order[n - 1] in previous.order;
      DepartureStep(previous, current, n - 1, Replay(live, Departures(previous, current, n - 1)));
      var more := Departure(previous, current, previous.order[n - 1]);
      ReplayConcat(live, Departures(previous, current, n - 1), more);
      ConsistentConcat(live, Departures(previous, current, n - 1), more);
    }
  }

  lemma DepartureStep(previous: Processes, current: Processes, n: nat, live: set<Identity>)
    requires WellFormed(previous) && WellFormed(current) && n < |previous.order|
    requires previous.order[n] !in previous.order[..n] && previous.order[n] in previous.at
    requires forall pid :: pid in previous.order[..n + 1] <==> pid in previous.order[..n] || pid == previous.order[n]
    requires forall id :: id in live <==> MidDepartures(previous, current, n, id)
    ensures var more := Departure(previous, current, previous.order[n]);
            && (forall id :: id in Replay(live, more) <==> MidDepartures(previous, current, n + 1, id))
            && Consistent(live, more)
  {
    var pid := previous.order[n];
    if pid !in current.at {
      assert MidDepartures(previous, current, n, IdentityOf(previous.at[pid]));
      OneEvent(live, Event(Stopped, previous.at[pid]));
    }
  }

  /** The events of one poll lead from the old snapshot to the new one, and each of them fits: a
      process that starts was not running, even when its pid was, and one that stops was. */
  lemma DiffReplays(previous: Processes, current: Processes)
    requires WellFormed(previous) && WellFormed(current)
    ensures Replay(Live(previous), Diff(previous, current)) == Live(current)
    ensures Consistent(Live(previous), Diff(previous, current))
  {
    var n, m := |current.order|, |previous.order|;
    var arrivals, departures := Arrivals(previous, current, n), Departures(previous, current, m);
    var middle := Replay(Live(previous), arrivals);
    ArrivalsReplay(previous, current, n);
    assert current.order[..n] == current.order && previous.order[..m] == previous.order && previous.order[..0] == [];
    DeparturesReplay(previous, current, m, middle);
    ReplayConcat(Live(previous), arrivals, departures);
    ConsistentConcat(Live(previous), arrivals, departures);
    forall id ensures id in Replay(middle, departures) <==> id in Live(current) {
      LiveAt(current, id);
    }
  }

  // --- Which events a poll emits -----------------------------------------------------------

  /** The process is in the snapshot, the same run of it. */
  predicate Runs(p: Processes, s: Snapshot) { s.pid in p.at && p.at[s.pid].createTime == s.createTime }

  /** Every event reports a process as its snapshot shows it: one of the new snapshot that did not run before, or
      one of the old snapshot that does not run any more. */
  ghost predicate Reports(previous: Processes, current: Processes, e: Event) {
    match e.action
    case Started => e.process.pid in current.at && current.at[e.process.pid] == e.process && !Runs(previous, e.process)
    case Stopped => e.process.pid in previous.at && previous.at[e.process.pid] == e.process && !Runs(current, e.process)
  }

  lemma {:induction false} ArrivalsExactly(previous: Processes, current: Processes, n: nat, e: Event)
    requires WellFormed(previous) && WellFormed(current) && n <= |current.order|
    ensures e in Arrivals(previous, current, n) <==>
            e.process.pid in current.order[..n] && Reports(previous, current, e)
  {
    if n > 0 {
      ArrivalsExactly(previous, current, n - 1, e);
      assert current.order[n - 1] in current.order;
      NextIsNew(current.order, n - 1);
    }
  }

  lemma {:induction false} DeparturesExactly(previous: Processes, current: Processes, n: nat, e: Event)
    requires WellFormed(previous) && WellFormed(current) && n <= |previous.order|
    ensures e in Departures(previous, current, n) <==>
            e.process.pid in previous.order[..n] && e.process.pid !in current.at && Reports(previous, current, e)
  {
    if n > 0 {
      DeparturesExactly(previous, current, n - 1, e);
      assert previous.order[n - 1] in previous.order;
      NextIsNew(previous.order, n - 1);
    }
  }

  /** A poll reports exactly the processes that came and went. */
  lemma DiffExactly(previous: Processes, current: Processes, e: Event)
    requires WellFormed(previous) && WellFormed(current)
    ensures e in Diff(previous, current) <==> Reports(previous, current, e)
  {
    ArrivalsExactly(previous, current, |current.order|, e);
    DeparturesExactly(previous, current, |previous.order|, e);
    assert current.order[..|current.order|] == current.order && previous.order[..|previous.order|] == previous.order;
  }

  /** When a pid was reused, the old process stops right before the new one starts. */
  lemma ReuseInOrder(previous: Processes, current: Processes, pid: int)
    requires WellFormed(previous) && WellFormed(current) && pid in previous.at && pid in current.at
    requires previous.at[pid].createTime != current.at[pid].createTime
    ensures exists i :: 0 <= i < |Diff(previous, current)| - 1
                        && Diff(previous, current)[i] == Event(Stopped, previous.at[pid])
                        && Diff(previous, current)[i + 1] == Event(Started, current.at[pid])
  {
    var n :| 0 <= n < |current.order| && current.order[n] == pid;
    var i := |Arrivals(previous, current, n)|;
    ArrivalsGrow(previous, current, n + 1, |current.order|);
    var events := Arrivals(previous, current, n + 1);
    assert events[i] == Event(Stopped, previous.at[pid]) && events[i + 1] == Event(Started, current.at[pid]);
    assert Diff(previous, current)[..|events|] == events;
  }

  lemma {:induction false} ArrivalsGrow(previous: Processes, current: Processes, m: nat, n: nat)
    requires WellFormed(previous) && WellFormed(current) && m <= n <= |current.order|
    ensures |Arrivals(previous, current, m)| <= |Arrivals(previous, current, n)|
    ensures Arrivals(previous, current, n)[..|Arrivals(previous, current, m)|] == Arrivals(previous, current, m)
    decreases n
  {
    if m < n {
      ArrivalsGrow(previous, current, m, n - 1);
    }
  }

  // --- Many polls --------------------------------------------------------------------------

  /** One poll: the snapshot taken, or none when taking it failed. */
  type Poll = Option<Processes>

  ghost predicate AllWellFormed(polls: seq<Poll>) {
    forall n :: 0 <= n < |polls| && polls[n].Some? ==> WellFormed(polls[n].value)
  }

  /** The snapshot the collector compares with next: failed polls leave it alone. */
  function LastGood(start: Processes, polls: seq<Poll>): Processes {
    if polls == [] then start
    else if polls[|polls| - 1].Some? then polls[|polls| - 1].value
    else LastGood(start, polls[..|polls| - 1])
  }

  lemma {:induction false} LastGoodWellFormed(start: Processes, polls: seq<Poll>)
    requires WellFormed(start) && AllWellFormed(polls)
    ensures WellFormed(LastGood(start, polls))
  {
    if polls != [] && polls[|polls| - 1].None? {
      LastGoodWellFormed(start, polls[..|polls| - 1]);
    }
  }

  ghost function Emitted(start: Processes, polls: seq<Poll>): seq<Event>
    requires WellFormed(start) && AllWellFormed(polls)
  {
    if polls == [] then []
    else
      var init, last := polls[..|polls| - 1], polls[|polls| - 1];
      LastGoodWellFormed(start, init);
      if last.Some? then Emitted(start, init) + Diff(LastGood(start, init), last.value) else Emitted(start, init)
  }

  /** Over any polls, failed ones included, replaying the events gives the processes of the last
      successful snapshot. */
  lemma {:induction false} PollsReplay(start: Processes, polls: seq<Poll>)
    requires WellFormed(start) && AllWellFormed(polls)
    ensures Replay(Live(start), Emitted(start, polls)) == Live(LastGood(start, polls))
    ensures Consistent(Live(start), Emitted(start, polls))
  {
    if polls != [] {
      var init, last := polls[..|polls| - 1], polls[|polls| - 1];
      PollsReplay(start, init);
      if last.Some? {
        LastGoodWellFormed(start, init);
        DiffReplays(LastGood(start, init), last.value);
        ReplayConcat(Live(start), Emitted(start, init), Diff(LastGood(start, init), last.value));
        ConsistentConcat(Live(start), Emitted(start, init), Diff(LastGood(start, init), last.value));
      }
    }
  }

  function Of(id: Identity): Event -> bool { (e: Event) => IdentityOf(e.process) == id }

  /** Starts and stops of one process take turns, beginning with a start unless it was running. */
  ghost predicate TakesTurns(events: seq<Event>, running: bool) {
    && (events != [] ==> (events[0].action == Started <==> !running))
    && forall n :: 0 <= n < |events| - 1 ==> events[n].action != events[n + 1].action
  }

  lemma {:induction false} ConsistentTakesTurns(live: set<Identity>, events: seq<Event>, id: Identity)
    requires Consistent(live, events)
    ensures var own := Filter(events, Of(id));
            && TakesTurns(own, id in live)
            && (id in Replay(live, events) <==> if own == [] then id in live else own[|own| - 1].action == Started)
  {
    if events != [] {
      var init, last := events[..|events| - 1], events[|events| - 1];
      forall n | 0 <= n < |init| ensures Fits(Replay(live, init[..n]), init[n]) {
        assert init[..n] == events[..n];
        assert Fits(Replay(live, events[..n]), events[n]);
      }
      ConsistentTakesTurns(live, init, id);
      assert Fits(Replay(live, init), last);
    }
  }

  /** The started and stopped events of every process alternate over all polls. */
  lemma EventsAlternate(start: Processes, polls: seq<Poll>, id: Identity)
    requires WellFormed(start) && AllWellFormed(polls)
    ensures TakesTurns(Filter(Emitted(start, polls), Of(id)), id in Live(start))
  {
    PollsReplay(start, polls);
    ConsistentTakesTurns(Live(start), Emitted(start, polls), id);
  }

  // --- The collector -----------------------------------------------------------------------

  class ProcessCollector {
    var previous: Processes
    var collected: nat
    var errors: seq<string>

    ghost predicate Valid()
      reads this
    {
      WellFormed(previous)
    }

    constructor ()
      ensures Valid() && previous == Processes([], map[]) && collected == 0 && errors == []
    {
      previous, collected, errors := Processes([], map[]), 0, [];
    }

    method Start(current: Processes)
      requires WellFormed(current)
      modifies this
      ensures Valid() && previous == current && errors == [] && collected == old(collected)
    {
      previous := current;
      errors := [];
    }

    /** A failed poll emits nothing and keeps the snapshot to compare with. */
    method TakePoll(poll: Poll, errorClass: string) returns (events: seq<Event>, successful: bool)
      requires Valid() && (poll.Some? ==> WellFormed(poll.value))
      modifies this
      ensures Valid() && previous == LastGood(old(previous), [poll])
      ensures events == Emitted(old(previous), [poll]) && successful == poll.Some?
      ensures collected == old(collected) + |events|
      ensures errors == old(errors) + (if successful then [] else [errorClass])
    {
      assert [poll][..0] == [];
      if poll.None? {
        errors := errors + [errorClass];
        return [], false;
      }
      events := DiffProcessSnapshots(previous, poll.value);
      previous := poll.value;
      collected := collected + |events|;
      successful := true;
    }
  }
}
