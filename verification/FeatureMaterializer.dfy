/**
 The materializer as an object over the stored tables. Each method is proved against the
 specification functions of module Materialization.
 */
module FeatureMaterializers {
  import opened Sequences
  import opened Tables
  import opened Windows
  import opened Materialization
  import opened RangeAgreement
  import opened IncrementalRuns
  import opened LateEvents

  // --- Coverage and quality of one window --------------------------------------------------

  method CollectorCoverageForWindow(observations: seq<Observation>, p: Profile, start: int, end: int)
    returns (coverage: map<string, real>)
    ensures coverage == CollectorCoverage(observations, p, start, end)
  {
    if end - start <= 0 {
      return map[];
    }
    var byCollector: map<string, int> := map[];
    var i := 0;
    while i < |observations|
      invariant 0 <= i <= |observations|
      invariant byCollector == CoveredTime(observations[..i], p, start, end)
    {
      var o := observations[i];
      assert observations[..i + 1][..i] == observations[..i];
      if o.user == Some(p.user) && o.host == Some(p.host) && o.successfulPoll {
        var overlapStart, overlapEnd := Max(o.observedAt, start), Min(o.observedAt + EffectiveInterval(o), end);
        if overlapEnd > overlapStart {
          var covered := if o.collector in byCollector then byCollector[o.collector] else 0;
          byCollector := byCollector[o.collector := covered + (overlapEnd - overlapStart)];
        }
      }
      i := i + 1;
    }
    assert observations[..i] == observations;
    coverage := map c | c in byCollector :: Fraction(byCollector[c], end - start);
  }

  method QualityOfWindow(kind: DatasetKind, group: seq<Event>, k: WindowKey, observations: seq<Observation>, w: int)
    returns (quality: Quality)
    ensures quality == QualityForWindow(kind, group, k, observations, w)
    ensures quality.status == Good ==> quality.reasons == [ChecksPassed]
    ensures kind == Synthetic ==> quality.status == if group != [] then Good else Insufficient
    ensures kind == Real ==> Graded(quality.status, quality.collectorCoverage)
    ensures kind == Real ==> quality.collectorCoverage ==
                             CollectorCoverage(observations, k.profile, k.start, k.start + Length(w))
  {
    var end := k.start + Length(w);
    var total := (end - k.start) as real / SECOND as real;
    if kind == Synthetic {
      if group != [] {
        return Quality(Good, [ChecksPassed], map[], 1.0, 0.0);
      }
      return Quality(Insufficient, [NoSyntheticTelemetry], map[], 0.0, total);
    }
    var coverage := CollectorCoverageForWindow(observations, k.profile, k.start, end);
    GradeExactly(coverage, total);
    var system, process := CoverageOf(coverage, SYSTEM_COLLECTOR), CoverageOf(coverage, PROCESS_COLLECTOR);
    var heartbeat := HeartbeatCoverage(coverage);
    var status, reasons: seq<Reason> := Insufficient, [];
    if heartbeat <= 0.0 {
      reasons := [NoObservations];
    } else if system >= 0.8 && process >= 0.8 {
      status := Good;
      if CoverageOf(coverage, NETWORK_COLLECTOR) < 0.8 {
        status, reasons := Degraded, [NetworkBelow80Percent];
      }
    } else if system >= 0.5 && process >= 0.5 {
      status, reasons := Degraded, [CorePartial];
    } else {
      reasons := [CoreInsufficient];
    }
    ghost var graded := reasons;
    assert (status, graded) == GradeByCoverage(coverage);
    if SYSTEM_COLLECTOR !in coverage {
      reasons := reasons + [SystemMetricsDidNotPoll];
    }
    if PROCESS_COLLECTOR !in coverage {
      reasons := reasons + [ProcessDidNotPoll];
    }
    assert reasons == graded + Unpolled(coverage);
    quality := Quality(status, if reasons == [] then [ChecksPassed] else reasons, coverage, heartbeat,
                       GapSeconds(heartbeat, total));
  }

  // --- The novelty baseline ----------------------------------------------------------------

  ghost predicate IsBaseline(baseline: map<Profile, Novelty>, rows: seq<Event>) {
    forall p :: Lookup(baseline, p) == BaselineOf(rows, p)
  }

  lemma BaselineStep(baseline: map<Profile, Novelty>, rows: seq<Event>, e: Event)
    requires IsBaseline(baseline, rows)
    ensures IsBaseline(Remember(baseline, ProfileOf(e), [e]), rows + [e])
  {
    forall p ensures Lookup(Remember(baseline, ProfileOf(e), [e]), p) == BaselineOf(rows + [e], p) {
      FilterAppend(rows, e, OfProfile(p));
      var mine := Filter(rows, OfProfile(p));
      assert NoveltyOf(mine + [e]) == NoveltyOf(mine).Union(NoveltyOf([e]));
      assert Lookup(baseline, p) == BaselineOf(rows, p);
    }
  }

  /** The names each profile used before a time, as the novelty query returns them. */
  method FeatureNoveltyBaseline(events: seq<Event>, before: int) returns (baseline: map<Profile, Novelty>)
    ensures IsBaseline(baseline, Filter(events, KnownBefore(before)))
  {
    baseline := NamesByProfile(Filter(events, KnownBefore(before)));
  }

  method NamesByProfile(rows: seq<Event>) returns (baseline: map<Profile, Novelty>)
    ensures IsBaseline(baseline, rows)
  {
    baseline := map[];
    var i := 0;
    while i < |rows|
      invariant 0 <= i <= |rows|
      invariant IsBaseline(baseline, rows[..i])
    {
      assert rows[..i + 1] == rows[..i] + [rows[i]];
      BaselineStep(baseline, rows[..i], rows[i]);
      baseline := Remember(baseline, ProfileOf(rows[i]), [rows[i]]);
      i := i + 1;
    }
    assert rows[..i] == rows;
  }

  // --- Building the windows of a range -----------------------------------------------------

  /** The seen sets hold the baseline and the windows visited so far. */
  ghost predicate SeenSince(seen: map<Profile, Novelty>, baseline: map<Profile, Novelty>, events: seq<Event>,
                            done: set<WindowKey>, w: int)
    requires w > 0
  {
    forall p :: Lookup(seen, p) == Lookup(baseline, p).Union(NoveltyOf(Filter(events, Visited(p, done, w))))
  }

  lemma SeenSinceStart(baseline: map<Profile, Novelty>, events: seq<Event>, w: int)
    requires w > 0
    ensures SeenSince(baseline, baseline, events, {}, w)
  {
    forall p: Profile ensures NoveltyOf(Filter(events, Visited(p, {}, w))) == NothingSeen {
      VisitNone(events, p, w);
    }
    forall p: Profile ensures Lookup(baseline, p).Union(NothingSeen) == Lookup(baseline, p) { }
  }

  lemma SeenSinceStep(seen: map<Profile, Novelty>, baseline: map<Profile, Novelty>, events: seq<Event>,
                      done: set<WindowKey>, k: WindowKey, w: int)
    requires w > 0 && SeenSince(seen, baseline, events, done, w)
    ensures SeenSince(Remember(seen, k.profile, Filter(events, InWindow(k, w))), baseline, events, done + {k}, w)
  {
    var seen' := Remember(seen, k.profile, Filter(events, InWindow(k, w)));
    forall p
      ensures Lookup(seen', p) == Lookup(baseline, p).Union(NoveltyOf(Filter(events, Visited(p, done + {k}, w))))
    {
      VisitStep(events, done, k, p, w);
      var base, before, here := Lookup(baseline, p), NoveltyOf(Filter(events, Visited(p, done, w))),
                                NoveltyOf(Filter(events, InWindow(k, w)));
      assert Lookup(seen, p) == base.Union(before);
      UnionAssociative(base, before, here);
    }
  }

  lemma UnionAssociative(a: Novelty, b: Novelty, c: Novelty)
    ensures a.Union(b).Union(c) == a.Union(b.Union(c))
  {
  }

  lemma EmptyBaseline()
    ensures IsBaseline(map[], [])
  {
    forall p: Profile ensures BaselineOf([], p) == NothingSeen { }
  }

  lemma KeepStep(window: WindowKey -> Window, done: set<WindowKey>, k: WindowKey, r: Range)
    ensures Keep(window, done + {k}, r) ==
            if InRange(k.start, r) then Keep(window, done, r)[k := window(k)] else Keep(window, done, r)
  {
  }

  lemma StartOrder()
    ensures TotalOrder(StartLeq)
  {
  }

  lemma NextInOrder(done: set<WindowKey>, todo: set<WindowKey>, k: WindowKey)
    requires done !! todo && IsLeast(k, todo, StartLeq)
    requires forall a, b :: a in done && b in todo ==> a.start <= b.start
    ensures InProfileOrder(done, todo)
    ensures forall j :: j in todo && j.profile == k.profile ==> k.start <= j.start
    ensures forall a, b :: a in done + {k} && b in todo - {k} ==> a.start <= b.start
  {
    forall a, b | a in done && b in todo && a.profile == b.profile ensures a.start < b.start {
      assert a != b;
    }
    forall b | b in todo ensures StartLeq(k, b) { }
  }

  lemma NextWindow(seen: map<Profile, Novelty>, baseline: map<Profile, Novelty>, known: seq<Event>, events: seq<Event>,
                   done: set<WindowKey>, todo: set<WindowKey>, k: WindowKey, w: int)
    requires w > 0 && SeenSince(seen, baseline, events, done, w) && IsBaseline(baseline, known)
    requires k in todo && EventKeys(events, w) <= done + todo && InProfileOrder(done, todo)
    requires forall j :: j in todo && j.profile == k.profile ==> k.start <= j.start
    ensures Lookup(seen, k.profile) ==
            BaselineOf(known, k.profile).Union(NoveltyOf(Filter(events, EarlierThan(k, w))))
  {
    VisitedIsEarlier(events, done, todo, k, w);
    assert Lookup(baseline, k.profile) == BaselineOf(known, k.profile);
  }

  /** Visits the windows oldest first, growing the seen sets, and keeps those of the range. */
  method BuildWindows(kind: DatasetKind, events: seq<Event>, observations: seq<Observation>, r: Range,
                      baseline: map<Profile, Novelty>, ghost known: seq<Event>, w: int)
    returns (windows: Table)
    requires w > 0 && Sorted(events, EventLeq) && IsBaseline(baseline, known)
    ensures windows == Built(kind, events, observations, r, known, w)
    ensures forall k :: k in windows ==> Describes(windows[k].features, Filter(events, InWindow(k, w)), k.start, w)
  {
    var grouped := GroupEventsByProfileWindow(events, w);
    SortByIdentity(events, EventLeq);
    var keys := grouped.Keys + if kind == Real then ObservationKeys(observations, w) else {};
    windows := VisitWindows(kind, events, grouped, observations, keys, r, baseline, known, w);
    BuiltDescribed(kind, events, observations, r, known, w);
  }

  lemma BuiltDescribed(kind: DatasetKind, events: seq<Event>, observations: seq<Observation>, r: Range, known: seq<Event>,
                       w: int)
    requires w > 0
    ensures var windows := Built(kind, events, observations, r, known, w);
            forall k :: k in windows ==> Describes(windows[k].features, Filter(events, InWindow(k, w)), k.start, w)
  {
    forall k | k in Built(kind, events, observations, r, known, w)
      ensures Describes(Built(kind, events, observations, r, known, w)[k].features, Filter(events, InWindow(k, w)), k.start, w)
    {
      GroupDescribed(Filter(events, InWindow(k, w)), k.start, w,
                     BaselineOf(known, k.profile).Union(NoveltyOf(Filter(events, EarlierThan(k, w)))));
    }
  }

  ghost predicate Visiting(seen: map<Profile, Novelty>, baseline: map<Profile, Novelty>, events: seq<Event>,
                           done: set<WindowKey>, todo: set<WindowKey>, w: int)
    requires w > 0
  {
    && EventKeys(events, w) <= done + todo && done !! todo
    && (forall a, b :: a in done && b in todo ==> a.start <= b.start)
    && SeenSince(seen, baseline, events, done, w)
  }

  lemma VisitingStep(seen: map<Profile, Novelty>, baseline: map<Profile, Novelty>, known: seq<Event>,
                     events: seq<Event>, done: set<WindowKey>, todo: set<WindowKey>, k: WindowKey, w: int)
    requires w > 0 && Visiting(seen, baseline, events, done, todo, w) && IsBaseline(baseline, known)
    requires IsLeast(k, todo, StartLeq)
    ensures Visiting(Remember(seen, k.profile, Filter(events, InWindow(k, w))), baseline, events,
                     done + {k}, todo - {k}, w)
    ensures Lookup(seen, k.profile) ==
            BaselineOf(known, k.profile).Union(NoveltyOf(Filter(events, EarlierThan(k, w))))
  {
    NextInOrder(done, todo, k);
    NextWindow(seen, baseline, known, events, done, todo, k, w);
    SeenSinceStep(seen, baseline, events, done, k, w);
    assert (done + {k}) + (todo - {k}) == done + todo;
  }

  method OldestKey(keys: set<WindowKey>) returns (k: WindowKey)
    requires keys != {}
    ensures IsLeast(k, keys, StartLeq)
  {
    StartOrder();
    LeastExists(keys, StartLeq);
    k :| IsLeast(k, keys, StartLeq);
  }

  /** Visits the oldest window left: builds it when it lies in the range, and remembers its names. */
  method VisitOldest(kind: DatasetKind, ghost events: seq<Event>, grouped: map<WindowKey, seq<Event>>,
                     observations: seq<Observation>, r: Range, ghost baseline: map<Profile, Novelty>,
                     ghost known: seq<Event>, ghost done: set<WindowKey>, todo: set<WindowKey>, windows: Table,
                     seen: map<Profile, Novelty>, w: int)
    returns (k: WindowKey, more: Table, seenNow: map<Profile, Novelty>)
    requires w > 0 && IsGrouping(grouped, events, w) && IsBaseline(baseline, known) && todo != {}
    requires Visiting(seen, baseline, events, done, todo, w)
    requires windows == Keep(WindowFor(kind, events, observations, known, w), done, r)
    ensures k in todo && Visiting(seenNow, baseline, events, done + {k}, todo - {k}, w)
    ensures more == Keep(WindowFor(kind, events, observations, known, w), done + {k}, r)
  {
    k := OldestKey(todo);
    var group := GroupAt(grouped, k);
    GroupAtKey(grouped, events, k, w);
    VisitingStep(seen, baseline, known, events, done, todo, k, w);
    KeptNext(kind, events, observations, known, done, k, Lookup(seen, k.profile), r, w);
    more := AddWindow(kind, k, group, Lookup(seen, k.profile), observations, r, windows, w);
    seenNow := Remember(seen, k.profile, group);
  }

  method VisitWindows(kind: DatasetKind, ghost events: seq<Event>, grouped: map<WindowKey, seq<Event>>,
                      observations: seq<Observation>, keys: set<WindowKey>, r: Range, baseline: map<Profile, Novelty>,
                      ghost known: seq<Event>, w: int)
    returns (windows: Table)
    requires w > 0 && IsGrouping(grouped, events, w) && IsBaseline(baseline, known)
    requires EventKeys(events, w) <= keys
    ensures windows == Keep(WindowFor(kind, events, observations, known, w), keys, r)
  {
    var seen, todo := baseline, keys;
    ghost var done: set<WindowKey> := {};
    windows := map[];
    SeenSinceStart(baseline, events, w);
    while todo != {}
      invariant done + todo == keys
      invariant Visiting(seen, baseline, events, done, todo, w)
      invariant windows == Keep(WindowFor(kind, events, observations, known, w), done, r)
      decreases todo
    {
      var k;
      k, windows, seen := VisitOldest(kind, events, grouped, observations, r, baseline, known, done, todo, windows, seen, w);
      done, todo := done + {k}, todo - {k};
    }
  }

  function KeepOne(windows: Table, k: WindowKey, window: Window, r: Range): Table {
    if InRange(k.start, r) then windows[k := window] else windows
  }

  lemma KeptNext(kind: DatasetKind, events: seq<Event>, observations: seq<Observation>, known: seq<Event>,
                 done: set<WindowKey>, k: WindowKey, seen: Novelty, r: Range, w: int)
    requires w > 0
    requires seen == BaselineOf(known, k.profile).Union(NoveltyOf(Filter(events, EarlierThan(k, w))))
    ensures var window := WindowFor(kind, events, observations, known, w);
            Keep(window, done + {k}, r) ==
            KeepOne(Keep(window, done, r), k, MakeWindow(kind, k, Filter(events, InWindow(k, w)), seen, observations, w), r)
  {
    WindowForKey(kind, events, observations, known, k, seen, w);
    KeepStep(WindowFor(kind, events, observations, known, w), done, k, r);
  }

  /** Builds the window when it lies in the range. */
  method AddWindow(kind: DatasetKind, k: WindowKey, group: seq<Event>, seen: Novelty, observations: seq<Observation>,
                   r: Range, windows: Table, w: int)
    returns (more: Table)
    requires w > 0
    ensures more == KeepOne(windows, k, MakeWindow(kind, k, group, seen, observations, w), r)
  {
    more := windows;
    if InRange(k.start, r) {
      var built := BuildWindow(kind, k, group, seen, observations, w);
      more := windows[k := built];
    }
  }

  lemma WindowForKey(kind: DatasetKind, events: seq<Event>, observations: seq<Observation>, known: seq<Event>,
                     k: WindowKey, seen: Novelty, w: int)
    requires w > 0
    requires seen == BaselineOf(known, k.profile).Union(NoveltyOf(Filter(events, EarlierThan(k, w))))
    ensures WindowFor(kind, events, observations, known, w)(k) ==
            MakeWindow(kind, k, Filter(events, InWindow(k, w)), seen, observations, w)
  {
  }

  method BuildWindow(kind: DatasetKind, k: WindowKey, group: seq<Event>, seen: Novelty,
                     observations: seq<Observation>, w: int)
    returns (window: Window)
    requires w > 0
    ensures window == MakeWindow(kind, k, group, seen, observations, w)
  {
    var quality := QualityOfWindow(kind, group, k, observations, w);
    window := Window(FeatureValuesForGroup(group, k.start, w, seen), |group|, TypesOf(group), SourcesOf(group),
                     quality, SourceEvents(group));
  }

  function GroupAt(grouped: map<WindowKey, seq<Event>>, k: WindowKey): seq<Event> {
    if k in grouped then grouped[k] else []
  }

  lemma GroupAtKey(grouped: map<WindowKey, seq<Event>>, events: seq<Event>, k: WindowKey, w: int)
    requires w > 0 && IsGrouping(grouped, events, w)
    ensures GroupAt(grouped, k) == Filter(events, InWindow(k, w))
  {
    if k !in grouped {
      FilterNone(events, InWindow(k, w));
    }
  }

  // --- Classifying new events --------------------------------------------------------------

  datatype Classified = Classified(starts: set<int>, unbounded: bool, within: nat, outside: nat,
                                   late: map<LateKey, LateRecord>)

  ghost predicate IsClassified(r: Classified, late: map<LateKey, LateRecord>, kind: DatasetKind, events: seq<Event>,
                               boundary: Option<int>, watermark: Option<int>, w: int)
    requires w > 0
  {
    && r.starts == AffectedStarts(events, [], boundary, w)
    && (r.unbounded <==> exists e :: e in events && LateWithinPolicy(e, boundary, watermark))
    && r.within == |Filter(events, InsidePolicyLate(boundary, watermark))|
    && r.outside == |Filter(events, OutsidePolicy(boundary))|
    && r.late == RecordLate(late, kind, events, boundary, watermark)
  }

  /** What one more new event changes: a late one outside the policy is only counted and recorded. */
  function ClassifyOne(r: Classified, kind: DatasetKind, e: Event, boundary: Option<int>, watermark: Option<int>, w: int)
    : Classified
    requires w > 0
  {
    var recorded := r.(late := RecordOne(r.late, kind, e, boundary, watermark));
    if OutOfPolicy(e, boundary) then recorded.(outside := r.outside + 1)
    else
      var touched := recorded.(starts := r.starts + {AlignWindowStart(e.timestamp, w)});
      if LateWithinPolicy(e, boundary, watermark) then touched.(within := r.within + 1, unbounded := true) else touched
  }

  lemma ClassifyStep(r: Classified, late: map<LateKey, LateRecord>, kind: DatasetKind, events: seq<Event>, e: Event,
                     boundary: Option<int>, watermark: Option<int>, w: int)
    requires w > 0 && IsClassified(r, late, kind, events, boundary, watermark, w)
    ensures IsClassified(ClassifyOne(r, kind, e, boundary, watermark, w), late, kind, events + [e], boundary, watermark, w)
  {
    FilterAppend(events, e, InsidePolicyLate(boundary, watermark));
    FilterAppend(events, e, OutsidePolicy(boundary));
    assert (events + [e])[..|events|] == events;
    assert e in events + [e];
    assert AffectedStarts(events + [e], [], boundary, w) ==
           AffectedStarts(events, [], boundary, w) + if OutOfPolicy(e, boundary) then {} else {AlignWindowStart(e.timestamp, w)};
  }

  method ClassifyNewEvents(late: map<LateKey, LateRecord>, kind: DatasetKind, events: seq<Event>,
                           boundary: Option<int>, watermark: Option<int>, w: int)
    returns (r: Classified)
    requires w > 0
    ensures IsClassified(r, late, kind, events, boundary, watermark, w)
  {
    r := Classified({}, false, 0, 0, late);
    var i := 0;
    while i < |events|
      invariant 0 <= i <= |events|
      invariant IsClassified(r, late, kind, events[..i], boundary, watermark, w)
    {
      assert events[..i + 1] == events[..i] + [events[i]];
      ClassifyStep(r, late, kind, events[..i], events[i], boundary, watermark, w);
      r := ClassifyOne(r, kind, events[i], boundary, watermark, w);
      i := i + 1;
    }
    assert events[..i] == events;
  }

  method AddPolledStarts(starts: set<int>, events: seq<Event>, polled: seq<Observation>, boundary: Option<int>, w: int)
    returns (all: set<int>)
    requires w > 0 && starts == AffectedStarts(events, [], boundary, w)
    ensures all == AffectedStarts(events, polled, boundary, w)
  {
    all := starts;
    var i := 0;
    while i < |polled|
      invariant 0 <= i <= |polled|
      invariant all == AffectedStarts(events, polled[..i], boundary, w)
    {
      assert polled[..i + 1] == polled[..i] + [polled[i]];
      all := all + {AlignWindowStart(polled[i].observedAt, w)};
      i := i + 1;
    }
    assert polled[..i] == polled;
  }

  // --- Replacing rows ----------------------------------------------------------------------

  /** Row by row, later rows winning. */
  method Upsert<K(!new), V>(kept: map<K, V>, rows: map<K, V>) returns (table: map<K, V>, upserted: nat)
    ensures table == kept + rows && upserted == |rows|
  {
    var todo := rows.Keys;
    table, upserted := kept, 0;
    while todo != {}
      invariant todo <= rows.Keys && upserted + |todo| == |rows.Keys|
      invariant Upserting(table, kept, rows, todo)
      decreases todo
    {
      var k :| k in todo;
      UpsertingStep(table, kept, rows, todo, k);
      table, todo, upserted := table[k := rows[k]], todo - {k}, upserted + 1;
    }
    assert table == kept + rows;
  }

  /** The rows that are done are in the table, and every other key is as it was. */
  ghost predicate Upserting<K(!new), V>(table: map<K, V>, kept: map<K, V>, rows: map<K, V>, todo: set<K>) {
    && (forall k :: k in table <==> k in kept || (k in rows && k !in todo))
    && (forall k :: k in table ==> table[k] == if k in rows && k !in todo then rows[k] else kept[k])
  }

  lemma UpsertingStep<K(!new), V>(table: map<K, V>, kept: map<K, V>, rows: map<K, V>, todo: set<K>, k: K)
    requires todo <= rows.Keys && k in todo && Upserting(table, kept, rows, todo)
    ensures Upserting(table[k := rows[k]], kept, rows, todo - {k})
  {
  }

  // --- Late events of a call -----------------------------------------------------------------

  /** The range holds the window of every new event in policy and of every new poll, and has no end after a late
      event. */
  ghost predicate Reaches(c: Config, watermark: Option<int>, added: seq<Event>, polled: seq<Observation>, r: Range)
    requires c.windowMinutes > 0
  {
    && (forall e :: e in added && OnTime(c, watermark, e) ==>
          && InRange(AlignWindowStart(e.timestamp, c.windowMinutes), r)
          && (watermark.Some? && e.timestamp < watermark.value ==> r.end.None?))
    && forall o :: o in polled ==> InRange(AlignWindowStart(o.observedAt, c.windowMinutes), r)
  }

  lemma RangeReaches(c: Config, watermark: Option<int>, added: seq<Event>, polled: seq<Observation>, now: int)
    requires c.windowMinutes > 0
    ensures Reaches(c, watermark, added, polled, AffectedRange(c, watermark, added, polled, now))
  {
    var w, boundary := c.windowMinutes, PolicyBoundary(c, watermark);
    var starts := AffectedStarts(added, polled, boundary, w);
    forall e | e in added && OnTime(c, watermark, e) ensures AlignWindowStart(e.timestamp, w) in starts {
      assert !OutOfPolicy(e, boundary);
    }
    forall start | start in starts ensures InRange(start, AffectedRange(c, watermark, added, polled, now)) {
      AffectedInRange(c, watermark, added, polled, now, start);
    }
  }

  /** So many new events are stamped in the late-event interval before the watermark, and before it. */
  ghost predicate CountsStamped(c: Config, watermark: Option<int>, added: seq<Event>, within: nat, outside: nat) {
    match watermark
    case None => within == 0 && outside == 0
    case Some(t) =>
      && within == |Filter(added, Stamped(Some(t - c.lateEventMinutes * MINUTE), t))|
      && outside == |Filter(added, Stamped(None, t - c.lateEventMinutes * MINUTE))|
  }

  lemma CountsByStamp(c: Config, watermark: Option<int>, added: seq<Event>)
    ensures CountsStamped(c, watermark, added, |Filter(added, InsidePolicyLate(PolicyBoundary(c, watermark), watermark))|,
                          |Filter(added, OutsidePolicy(PolicyBoundary(c, watermark)))|)
  {
    if watermark.Some? {
      LateByStamp(c, added, watermark.value);
    } else {
      NoneLate(added);
    }
  }

  /** The late counts after a call: none after a full one, and after an incremental one that read something those
      of its new events. */
  ghost predicate TellsLate(c: Config, s: Store, after: Store, kind: DatasetKind, rebuild: bool) {
    if rebuild || kind !in s.states then
      kind in after.states && after.states[kind].lateWithin == 0 && after.states[kind].lateOutside == 0
    else if HasNewRows(s, kind, s.states[kind]) && s.states[kind].watermark.Some? then
      && kind in after.states
      && CountsLate(c, s, s.states[kind], kind, s.states[kind].watermark.value, after.states[kind].lateWithin,
                    after.states[kind].lateOutside)
    else true
  }

  lemma CallTellsLate(c: Config, s: Store, kind: DatasetKind, rebuild: bool, now: int)
    requires c.windowMinutes > 0
    ensures TellsLate(c, s, Materialized(c, s, kind, rebuild, now), kind, rebuild)
  {
    if rebuild || kind !in s.states {
      NoneLateInFull(c, s, kind, rebuild, now);
    } else if HasNewRows(s, kind, s.states[kind]) {
      LateCounted(c, s, kind, now);
    }
  }

  // --- The materializer --------------------------------------------------------------------

  class FeatureMaterializer {
    const config: Config
    var events: seq<Event>
    var observations: seq<Observation>
    var windows: map<DatasetKind, Table>
    var states: map<DatasetKind, MaterializationState>
    var late: map<LateKey, LateRecord>

    function Snapshot(): Store
      reads this
    {
      Store(events, observations, windows, states, late)
    }

    constructor (config: Config)
      ensures this.config == config && Snapshot() == EmptyStore
    {
      this.config := config;
      events, observations, windows, states, late := [], [], map[], map[], map[];
    }

    /** The span of windows that new rows touch, counting and recording late events on the way. */
    method FindAffectedRange(kind: DatasetKind, watermark: Option<int>, added: seq<Event>, polled: seq<Observation>,
                             now: int)
      returns (r: Range, lateWithin: nat, lateOutside: nat)
      requires config.windowMinutes > 0
      modifies this`late
      ensures r == AffectedRange(config, watermark, added, polled, now)
      ensures var boundary := PolicyBoundary(config, watermark);
              && lateWithin == |Filter(added, InsidePolicyLate(boundary, watermark))|
              && lateOutside == |Filter(added, OutsidePolicy(boundary))|
              && late == RecordLate(old(late), kind, added, boundary, watermark)
      ensures CountsStamped(config, watermark, added, lateWithin, lateOutside)
      ensures Reaches(config, watermark, added, polled, r)
    {
      var w, boundary := config.windowMinutes, PolicyBoundary(config, watermark);
      var found := ClassifyNewEvents(late, kind, added, boundary, watermark, w);
      var affected := AddPolledStarts(found.starts, added, polled, boundary, w);
      late, lateWithin, lateOutside := found.late, found.within, found.outside;
      if affected == {} {
        var start := AlignWindowStart(now, w);
        r := Range(start, Some(start));
      } else {
        r := Range(Least(affected), if found.unbounded then None else Some(Greatest(affected) + Length(w)));
      }
      RangeReaches(config, watermark, added, polled, now);
      CountsByStamp(config, watermark, added);
    }

    /** Deletes the windows of a range (or all of them), stores the built ones and the new state. */
    method ReplaceFeatureWindows(kind: DatasetKind, range: Option<Range>, built: Table, state: MaterializationState)
      returns (deleted: nat, upserted: nat)
      modifies this`windows, this`states
      ensures var table := TableOf(old(Snapshot()), kind);
              var kept := if range.Some? then Outside(table, range.value) else map[];
              && Snapshot() == WithTable(old(Snapshot()), kind, kept + built, state)
              && deleted == |table.Keys - kept.Keys| && upserted == |built|
    {
      var table := TableOf(Snapshot(), kind);
      var kept := if range.Some? then Outside(table, range.value) else map[];
      deleted := |table.Keys - kept.Keys|;
      table, upserted := Upsert(kept, built);
      windows, states := windows[kind := table], states[kind := state];
    }

    method Ingest(rows: seq<Event>)
      requires config.windowMinutes > 0
      modifies this`events
      ensures Snapshot() == Take(config, old(Snapshot()), Step.Ingest(rows))
    {
      events := events + rows;
    }

    method Observe(polls: seq<Observation>)
      requires config.windowMinutes > 0
      modifies this`observations
      ensures Snapshot() == Take(config, old(Snapshot()), Step.Observe(polls))
    {
      observations := observations + polls;
    }

    method Materialize(kind: DatasetKind, rebuild: bool, now: int)
      requires config.windowMinutes > 0
      modifies this
      ensures Snapshot() == Take(config, old(Snapshot()), Step.Materialize(kind, rebuild, now))
      ensures kind == Synthetic && InStep(config, old(Snapshot())) ==>
                TableOf(Snapshot(), kind) == RebuiltOf(config, old(Snapshot()), kind)
      ensures TellsLate(config, old(Snapshot()), Snapshot(), kind, rebuild)
    {
      ghost var before := Snapshot();
      if kind in states && !rebuild {
        MaterializeNewRows(kind, now);
      } else {
        MaterializeAll(kind, rebuild);
      }
      if kind == Synthetic && InStep(config, before) {
        CallRebuilds(config, before, rebuild, now);
      }
      CallTellsLate(config, before, kind, rebuild, now);
    }

    method MaterializeNewRows(kind: DatasetKind, now: int)
      requires config.windowMinutes > 0 && kind in states
      modifies this
      ensures Snapshot() == Incremental(config, old(Snapshot()), kind, old(states[kind]), now)
    {
      var state, stored, polls := states[kind], EventsOf(Snapshot(), kind), ObservationsFor(Snapshot(), kind);
      var added, polled := NewEvents(Snapshot(), kind, state), NewObservations(Snapshot(), kind, state);
      if added == [] && polled == [] {
        return;
      }
      StoredEventsSorted(Snapshot(), kind);
      var r, lateWithin, lateOutside := FindAffectedRange(kind, state.watermark, added, polled, now);
      var state' := NextState(Some(state), added, polled, lateWithin, lateOutside);
      RefreshRange(kind, stored, polls, r, state');
    }

    /** Builds the windows of a range from its own rows and the novelty baseline, and replaces them. */
    method RefreshRange(kind: DatasetKind, stored: seq<Event>, polls: seq<Observation>, r: Range,
                        state: MaterializationState)
      requires config.windowMinutes > 0 && Sorted(stored, EventLeq)
      modifies this`windows, this`states
      ensures Snapshot() == WithTable(old(Snapshot()), kind, Refreshed(TableOf(old(Snapshot()), kind), kind, stored, polls, r,
                                                                       config.windowMinutes), state)
    {
      var affected, reaching := Filter(stored, Within(r)), Filter(polls, Overlapping(r));
      if affected == [] && reaching == [] {
        windows, states := windows[kind := TableOf(Snapshot(), kind)], states[kind := state];
        return;
      }
      var baseline := FeatureNoveltyBaseline(stored, r.start);
      FilterSorted(stored, Within(r), EventLeq);
      var built := BuildWindows(kind, affected, reaching, r, baseline, Filter(stored, KnownBefore(r.start)),
                                config.windowMinutes);
      var _, _ := ReplaceFeatureWindows(kind, Some(r), built, state);
    }

    method MaterializeAll(kind: DatasetKind, rebuild: bool)
      requires config.windowMinutes > 0
      modifies this
      ensures Snapshot() == Full(config, old(Snapshot()), kind, rebuild)
    {
      var stored, polls := EventsOf(Snapshot(), kind), ObservationsFor(Snapshot(), kind);
      var state' := NextState(StateOf(Snapshot(), kind), stored, polls, 0, 0);
      if stored == [] && polls == [] {
        windows, states := windows[kind := if rebuild then map[] else TableOf(Snapshot(), kind)], states[kind := state'];
        return;
      }
      var r := FullRange(stored, polls, config.windowMinutes);
      StoredEventsSorted(Snapshot(), kind);
      EmptyBaseline();
      var built := BuildWindows(kind, stored, polls, r, map[], [], config.windowMinutes);
      var _, _ := ReplaceFeatureWindows(kind, if rebuild then None else Some(r), built, state');
    }
  }

  lemma StoredEventsSorted(s: Store, kind: DatasetKind)
    ensures Sorted(EventsOf(s, kind), EventLeq)
  {
    EventOrder();
    SortBySorted(Filter(s.events, OfKind(kind)), EventLeq);
  }
}
