/**
 Whole runs of incremental materialization for real data, where windows also come from collector
 polls and carry their coverage.
 */
module RealRuns {
  import opened Sequences
  import opened Tables
  import opened Windows
  import opened Materialization
  import opened RangeAgreement
  import opened StoredWindows
  import opened IncrementalRuns

  // --- Which rows the stored table stands for ----------------------------------------------

  predicate Through(o: Observation, c: ObservationCursor) {
    o.observedAt < c.observedAt || (o.observedAt == c.observedAt && o.id <= c.observationId)
  }

  function UpToObservation(c: Option<ObservationCursor>): Observation -> bool {
    (o: Observation) => c.Some? && Through(o, c.value)
  }

  lemma ThroughOrAfter(o: Observation, c: Option<ObservationCursor>)
    ensures UpToObservation(c)(o) <==> !AfterObservation(c)(o)
  {
  }

  /** The polls that earlier calls have read. */
  ghost function Polled(s: Store): seq<Observation> {
    if Real in s.states then Filter(ObservationsFor(s, Real), UpToObservation(s.states[Real].observationCursor)) else []
  }

  /** The stored table of real data is the rebuild of the events and polls read so far. */
  ghost predicate SyncedReal(c: Config, s: Store)
    requires c.windowMinutes > 0
  {
    && TableOf(s, Real) == Rebuilt(Real, Consumed(s, Real), Polled(s), c.windowMinutes)
    && (Real in s.states ==> IsLatest(s.states[Real].watermark, Consumed(s, Real)))
  }

  ghost predicate InStepReal(c: Config, s: Store) {
    WellFormed(c, s, Real) && SyncedReal(c, s) && NewEventsOnTime(c, s, Real)
  }

  // --- Windows outside the rewritten range -------------------------------------------------

  ghost function RealRange(c: Config, s: Store, now: int): Range
    requires c.windowMinutes > 0 && Real in s.states
  {
    RangeOf(c, s, Real, s.states[Real], now)
  }

  /** The coverage of stored windows outside the rewritten range is that of all polls. */
  ghost predicate CoverageKept(c: Config, s: Store, now: int)
    requires c.windowMinutes > 0 && Real in s.states
  {
    forall k: WindowKey :: k in TableOf(s, Real) && !InRange(k.start, RealRange(c, s, now)) ==>
      CoverageAt(Polled(s), k, c.windowMinutes) == CoverageAt(ObservationsFor(s, Real), k, c.windowMinutes)
  }

  lemma NewEventsAreInRange(c: Config, s: Store, now: int, e: Event)
    requires ValidConfig(c) && Real in s.states && NewEventsOnTime(c, s, Real) && e in NewEvents(s, Real, s.states[Real])
    ensures InRange(AlignWindowStart(e.timestamp, c.windowMinutes), RealRange(c, s, now))
  {
    var state := s.states[Real];
    var starts := AffectedStarts(NewEvents(s, Real, state), NewObservations(s, Real, state),
                                 PolicyBoundary(c, state.watermark), c.windowMinutes);
    assert AlignWindowStart(e.timestamp, c.windowMinutes) in starts;
    AffectedInRange(c, state.watermark, NewEvents(s, Real, state), NewObservations(s, Real, state), now,
                    AlignWindowStart(e.timestamp, c.windowMinutes));
  }

  lemma NewPollsAreInRange(c: Config, s: Store, now: int, o: Observation)
    requires ValidConfig(c) && Real in s.states && o in NewObservations(s, Real, s.states[Real])
    ensures InRange(AlignWindowStart(o.observedAt, c.windowMinutes), RealRange(c, s, now))
  {
    var state := s.states[Real];
    var starts := AffectedStarts(NewEvents(s, Real, state), NewObservations(s, Real, state),
                                 PolicyBoundary(c, state.watermark), c.windowMinutes);
    assert AlignWindowStart(o.observedAt, c.windowMinutes) in starts;
    AffectedInRange(c, state.watermark, NewEvents(s, Real, state), NewObservations(s, Real, state), now,
                    AlignWindowStart(o.observedAt, c.windowMinutes));
  }

  lemma NewRowsInRange(c: Config, s: Store, now: int)
    requires ValidConfig(c) && Real in s.states && NewEventsOnTime(c, s, Real)
    ensures forall e :: e in NewEvents(s, Real, s.states[Real])
                        ==> InRange(AlignWindowStart(e.timestamp, c.windowMinutes), RealRange(c, s, now))
    ensures forall o :: o in NewObservations(s, Real, s.states[Real])
                        ==> InRange(AlignWindowStart(o.observedAt, c.windowMinutes), RealRange(c, s, now))
  {
    forall e | e in NewEvents(s, Real, s.states[Real])
      ensures InRange(AlignWindowStart(e.timestamp, c.windowMinutes), RealRange(c, s, now))
    {
      NewEventsAreInRange(c, s, now, e);
    }
    forall o | o in NewObservations(s, Real, s.states[Real])
      ensures InRange(AlignWindowStart(o.observedAt, c.windowMinutes), RealRange(c, s, now))
    {
      NewPollsAreInRange(c, s, now, o);
    }
  }

  /** Every stored row was read earlier or is new. */
  lemma ReadOrNew(s: Store)
    requires Real in s.states
    ensures forall e :: e in EventsOf(s, Real) ==> UpToCursor(s.states[Real].cursor)(e) || e in NewEvents(s, Real, s.states[Real])
    ensures forall o :: o in ObservationsFor(s, Real) ==>
                        UpToObservation(s.states[Real].observationCursor)(o) || o in NewObservations(s, Real, s.states[Real])
  {
    FilterMembers(EventsOf(s, Real), AfterCursor(s.states[Real].cursor));
    FilterMembers(ObservationsFor(s, Real), AfterObservation(s.states[Real].observationCursor));
    forall o: Observation { ThroughOrAfter(o, s.states[Real].observationCursor); }
  }

  lemma KeysOutside(c: Config, s: Store, now: int, k: WindowKey)
    requires ValidConfig(c) && Real in s.states && NewEventsOnTime(c, s, Real) && !InRange(k.start, RealRange(c, s, now))
    ensures k in WindowKeys(Real, Consumed(s, Real), Polled(s), c.windowMinutes)
            <==> k in WindowKeys(Real, EventsOf(s, Real), ObservationsFor(s, Real), c.windowMinutes)
  {
    NewRowsInRange(c, s, now);
    ReadOrNew(s);
    FilterMembers(EventsOf(s, Real), UpToCursor(s.states[Real].cursor));
    FilterMembers(ObservationsFor(s, Real), UpToObservation(s.states[Real].observationCursor));
  }

  lemma GroupOutside(c: Config, s: Store, now: int, k: WindowKey)
    requires ValidConfig(c) && Real in s.states && NewEventsOnTime(c, s, Real) && !InRange(k.start, RealRange(c, s, now))
    ensures Filter(Consumed(s, Real), InWindow(k, c.windowMinutes)) == Filter(EventsOf(s, Real), InWindow(k, c.windowMinutes))
  {
    NewRowsInRange(c, s, now);
    ReadOrNew(s);
    FilterNested(EventsOf(s, Real), UpToCursor(s.states[Real].cursor), InWindow(k, c.windowMinutes));
  }

  /** With new events in policy, a range that has an end lies past every event. */
  lemma NoEventBeyond(c: Config, s: Store, now: int, e: Event)
    requires ValidConfig(c) && Real in s.states && SyncedReal(c, s) && NewEventsOnTime(c, s, Real)
    requires NewEvents(s, Real, s.states[Real]) != [] && RealRange(c, s, now).end.Some? && e in EventsOf(s, Real)
    ensures AlignWindowStart(e.timestamp, c.windowMinutes) < RealRange(c, s, now).end.value
  {
    var state := s.states[Real];
    var added := NewEvents(s, Real, state);
    NewRowsInRange(c, s, now);
    ReadOrNew(s);
    if e !in added {
      FilterMembers(EventsOf(s, Real), UpToCursor(state.cursor));
      var f := added[0];
      assert f in added && !LateWithinPolicy(f, PolicyBoundary(c, state.watermark), state.watermark);
      assert e in Consumed(s, Real);
      AlignMonotone(e.timestamp, f.timestamp, c.windowMinutes);
    }
  }

  lemma EmptyGroup(start: int, w: int, a: Novelty, b: Novelty)
    requires w > 0
    ensures FeatureValuesForGroup([], start, w, a) == FeatureValuesForGroup([], start, w, b)
  {
  }

  lemma FeaturesOutside(c: Config, s: Store, now: int, k: WindowKey)
    requires ValidConfig(c) && Real in s.states && SyncedReal(c, s) && NewEventsOnTime(c, s, Real)
    requires !InRange(k.start, RealRange(c, s, now))
    ensures FeaturesAt(Consumed(s, Real), k, c.windowMinutes, NothingSeen)
         == FeaturesAt(EventsOf(s, Real), k, c.windowMinutes, NothingSeen)
  {
    var w, all, r := c.windowMinutes, EventsOf(s, Real), RealRange(c, s, now);
    var cursor := s.states[Real].cursor;
    GroupOutside(c, s, now, k);
    NewRowsInRange(c, s, now);
    ReadOrNew(s);
    if k.start < r.start || NewEvents(s, Real, s.states[Real]) == [] {
      forall e | e in all && EarlierThan(k, w)(e) ensures UpToCursor(cursor)(e) { }
      FilterNested(all, UpToCursor(cursor), EarlierThan(k, w));
    } else {
      forall e | e in all ensures !InWindow(k, w)(e) { NoEventBeyond(c, s, now, e); }
      FilterNone(all, InWindow(k, w));
      EmptyGroup(k.start, w, NothingSeen.Union(NoveltyOf(Filter(Consumed(s, Real), EarlierThan(k, w)))),
                 NothingSeen.Union(NoveltyOf(Filter(all, EarlierThan(k, w)))));
    }
  }

  /** Windows made of the same events with the same features are equal exactly when their
      collector coverage is. */
  lemma SameButCoverage(k: WindowKey, group: seq<Event>, a: Novelty, b: Novelty, x: seq<Observation>, y: seq<Observation>,
                        w: int)
    requires w > 0 && FeatureValuesForGroup(group, k.start, w, a) == FeatureValuesForGroup(group, k.start, w, b)
    ensures MakeWindow(Real, k, group, a, x, w) == MakeWindow(Real, k, group, b, y, w)
            <==> CoverageAt(x, k, w) == CoverageAt(y, k, w)
  {
    assert MakeWindow(Real, k, group, a, x, w).quality.collectorCoverage == CoverageAt(x, k, w);
    assert MakeWindow(Real, k, group, b, y, w).quality.collectorCoverage == CoverageAt(y, k, w);
  }

  /** Outside the range, the windows of the rows read so far are those of all rows exactly when the
      new polls leave their coverage alone. */
  lemma OutsideAgrees(c: Config, s: Store, now: int, k: WindowKey)
    requires ValidConfig(c) && Real in s.states && SyncedReal(c, s) && NewEventsOnTime(c, s, Real)
    requires !InRange(k.start, RealRange(c, s, now))
    ensures AgreeAt(TableOf(s, Real), RebuiltOf(c, s, Real), k) <==>
            (k in TableOf(s, Real) ==>
               CoverageAt(Polled(s), k, c.windowMinutes) == CoverageAt(ObservationsFor(s, Real), k, c.windowMinutes))
  {
    KeysOutside(c, s, now, k);
    WindowsOutside(c, s, now, k);
    AgreeByWindow(Consumed(s, Real), Polled(s), EventsOf(s, Real), ObservationsFor(s, Real), k, c.windowMinutes);
  }

  lemma AgreeByWindow(a: seq<Event>, x: seq<Observation>, b: seq<Event>, y: seq<Observation>, k: WindowKey, w: int)
    requires w > 0 && (k in WindowKeys(Real, a, x, w) <==> k in WindowKeys(Real, b, y, w))
    ensures AgreeAt(Rebuilt(Real, a, x, w), Rebuilt(Real, b, y, w), k) <==>
            (k in Rebuilt(Real, a, x, w) ==> WindowAt(Real, a, x, k, w, NothingSeen) == WindowAt(Real, b, y, k, w, NothingSeen))
  {
  }

  lemma WindowsOutside(c: Config, s: Store, now: int, k: WindowKey)
    requires ValidConfig(c) && Real in s.states && SyncedReal(c, s) && NewEventsOnTime(c, s, Real)
    requires !InRange(k.start, RealRange(c, s, now))
    ensures (WindowAt(Real, Consumed(s, Real), Polled(s), k, c.windowMinutes, NothingSeen) ==
             WindowAt(Real, EventsOf(s, Real), ObservationsFor(s, Real), k, c.windowMinutes, NothingSeen))
            <==> CoverageAt(Polled(s), k, c.windowMinutes) == CoverageAt(ObservationsFor(s, Real), k, c.windowMinutes)
  {
    var w := c.windowMinutes;
    GroupOutside(c, s, now, k);
    FeaturesOutside(c, s, now, k);
    SameButCoverage(k, Filter(EventsOf(s, Real), InWindow(k, w)),
                    NothingSeen.Union(NoveltyOf(Filter(Consumed(s, Real), EarlierThan(k, w)))),
                    NothingSeen.Union(NoveltyOf(Filter(EventsOf(s, Real), EarlierThan(k, w)))),
                    Polled(s), ObservationsFor(s, Real), w);
  }

  // --- One call ----------------------------------------------------------------------------

  lemma EqualIffCoverageKept(c: Config, s: Store, now: int)
    requires InStepReal(c, s) && Real in s.states && HasNewRows(s, Real, s.states[Real])
    ensures TableOf(Materialized(c, s, Real, false, now), Real) == RebuiltOf(c, s, Real) <==> CoverageKept(c, s, now)
  {
    var after, table, full, r :=
      TableOf(Materialized(c, s, Real, false, now), Real), TableOf(s, Real), RebuiltOf(c, s, Real), RealRange(c, s, now);
    var w := c.windowMinutes;
    IncrementalAgreesOnRange(c, s, Real, now);
    forall k: WindowKey | !InRange(k.start, r)
      ensures AgreeAt(after, table, k)
      ensures AgreeAt(table, full, k) <==>
              (k in table ==> CoverageAt(Polled(s), k, w) == CoverageAt(ObservationsFor(s, Real), k, w))
    {
      OutsideAgrees(c, s, now, k);
    }
    if CoverageKept(c, s, now) {
      ReplacedEverywhere(after, table, full, r);
    } else {
      var k: WindowKey :| k in table && !InRange(k.start, r)
                          && CoverageAt(Polled(s), k, w) != CoverageAt(ObservationsFor(s, Real), k, w);
      assert !AgreeAt(table, full, k) && AgreeAt(after, table, k);
    }
  }

  // --- What a poll adds --------------------------------------------------------------------

  /** The polls read earlier and the new ones account for their times separately. */
  lemma {:induction false} SpentSplits(observations: seq<Observation>, cursor: Option<ObservationCursor>, p: Profile, start: int,
                                       end: int, collector: string)
    ensures Spent(observations, p, start, end, collector)
         == Spent(Filter(observations, UpToObservation(cursor)), p, start, end, collector)
            + Spent(Filter(observations, AfterObservation(cursor)), p, start, end, collector)
  {
    if observations != [] {
      var init, last := observations[..|observations| - 1], observations[|observations| - 1];
      SpentSplits(init, cursor, p, start, end, collector);
      ThroughOrAfter(last, cursor);
      SpentAppend(Filter(init, UpToObservation(cursor)), last, p, start, end, collector);
      SpentAppend(Filter(init, AfterObservation(cursor)), last, p, start, end, collector);
    }
  }

  /** A share grows with its time until it is full. */
  lemma ShareGrows(a: int, b: int, total: int)
    requires 0 < a && 0 <= b && 0 < total
    ensures Fraction(a, total) == 1.0 <==> a >= total
    ensures Fraction(a, total) == Fraction(a + b, total) <==> b == 0 || Fraction(a, total) == 1.0
  {
    var x, y := a as real / total as real, (a + b) as real / total as real;
    assert x * total as real == a as real && y * total as real == (a + b) as real;
  }

  /** Storing one more poll never worsens the quality of any window that a rebuild gives. */
  lemma MorePollsNeverWorsen(s: Store, o: Observation, group: seq<Event>, k: WindowKey, w: int)
    requires w > 0
    ensures var more := s.(observations := s.observations + [o]);
            Grade(QualityForWindow(Real, group, k, ObservationsFor(s, Real), w).status)
            <= Grade(QualityForWindow(Real, group, k, ObservationsFor(more, Real), w).status)
  {
    var polls := ObservationsFor(s, Real);
    var more := Insert(polls, o, ObservationLeq);
    assert (s.observations + [o])[..|s.observations|] == s.observations;
    forall c ensures CoverageOf(CoverageAt(polls, k, w), c) <= CoverageOf(CoverageAt(more, k, w), c) {
      PollAddsCoverage(polls, o, k, w, c);
    }
    MoreCoverageNeverWorsens(CoverageAt(polls, k, w), CoverageAt(more, k, w), Length(w) as real / SECOND as real);
  }

  lemma PollAddsCoverage(polls: seq<Observation>, o: Observation, k: WindowKey, w: int, collector: string)
    requires w > 0
    ensures var more := Insert(polls, o, ObservationLeq);
            CoverageOf(CoverageAt(polls, k, w), collector) <= CoverageOf(CoverageAt(more, k, w), collector)
  {
    var more := Insert(polls, o, ObservationLeq);
    SpentInsert(polls, o, k.profile, k.start, k.start + Length(w), collector);
    CoverageByTime(polls, k, w, collector);
    CoverageByTime(more, k, w, collector);
    ShareMonotone(SpentAt(polls, k, w, collector), SpentAt(more, k, w, collector), Length(w));
  }

  /** The window is already fully covered by the collector's earlier polls. */
  predicate FullyCovered(observations: seq<Observation>, k: WindowKey, w: int, collector: string) {
    collector in CoverageAt(observations, k, w) && CoverageAt(observations, k, w)[collector] == 1.0
  }

  predicate CoversWindow(o: Observation, k: WindowKey, w: int) { Covers(o, k.profile, k.start, k.start + Length(w)) }

  lemma TimesAdd(s: Store, k: WindowKey, w: int, collector: string)
    requires Real in s.states
    ensures SpentAt(ObservationsFor(s, Real), k, w, collector)
         == SpentAt(Polled(s), k, w, collector) + SpentAt(NewObservations(s, Real, s.states[Real]), k, w, collector)
  {
    SpentSplits(ObservationsFor(s, Real), s.states[Real].observationCursor, k.profile, k.start, k.start + Length(w), collector);
  }

  /** More time leaves one collector's entry alone exactly when there is none or the window was fully covered. */
  lemma EntryKept(x: seq<Observation>, y: seq<Observation>, k: WindowKey, w: int, collector: string, more: int)
    requires w > 0 && more >= 0 && SpentAt(y, k, w, collector) == SpentAt(x, k, w, collector) + more
    ensures SameEntry(CoverageAt(x, k, w), CoverageAt(y, k, w), collector) <==>
            FullyCovered(x, k, w, collector) || more == 0
  {
    CoverageIsShare(x, k, w, collector);
    CoverageIsShare(y, k, w, collector);
    if SpentAt(x, k, w, collector) > 0 {
      ShareGrows(SpentAt(x, k, w, collector), more, Length(w));
    }
  }

  lemma KeptByTime(s: Store, k: WindowKey, w: int, collector: string)
    requires w > 0 && Real in s.states
    ensures SameEntry(CoverageAt(Polled(s), k, w), CoverageAt(ObservationsFor(s, Real), k, w), collector) <==>
            FullyCovered(Polled(s), k, w, collector) || SpentAt(NewObservations(s, Real, s.states[Real]), k, w, collector) == 0
  {
    TimesAdd(s, k, w, collector);
    EntryKept(Polled(s), ObservationsFor(s, Real), k, w, collector,
              SpentAt(NewObservations(s, Real, s.states[Real]), k, w, collector));
  }

  /** One collector's coverage of a window stays as it was exactly when none of its new polls covers
      the window or the window was fully covered before. */
  lemma CollectorKept(s: Store, k: WindowKey, w: int, collector: string)
    requires w > 0 && Real in s.states
    ensures SameEntry(CoverageAt(Polled(s), k, w), CoverageAt(ObservationsFor(s, Real), k, w), collector) <==>
            (FullyCovered(Polled(s), k, w, collector)
             || !exists o :: o in NewObservations(s, Real, s.states[Real]) && CoversWindow(o, k, w) && o.collector == collector)
  {
    KeptByTime(s, k, w, collector);
    SpentByPoll(NewObservations(s, Real, s.states[Real]), k.profile, k.start, k.start + Length(w), collector);
  }

  predicate SameEntry(a: map<string, real>, b: map<string, real>, collector: string) {
    (collector in a <==> collector in b) && (collector in a && collector in b ==> a[collector] == b[collector])
  }

  lemma SameEntries(a: map<string, real>, b: map<string, real>)
    ensures a == b <==> forall collector :: SameEntry(a, b, collector)
  {
    if forall collector :: SameEntry(a, b, collector) {
      forall collector ensures collector in a <==> collector in b { assert SameEntry(a, b, collector); }
      forall collector | collector in a ensures a[collector] == b[collector] { assert SameEntry(a, b, collector); }
    }
  }

  /** Every new poll that covers a window comes from a collector that covered it fully before. */
  ghost predicate NothingToAdd(s: Store, k: WindowKey, w: int)
    requires Real in s.states
  {
    forall o :: o in NewObservations(s, Real, s.states[Real]) && CoversWindow(o, k, w)
                ==> FullyCovered(Polled(s), k, w, o.collector)
  }

  lemma WindowKept(s: Store, k: WindowKey, w: int)
    requires w > 0 && Real in s.states
    ensures CoverageAt(Polled(s), k, w) == CoverageAt(ObservationsFor(s, Real), k, w) <==> NothingToAdd(s, k, w)
  {
    SameEntries(CoverageAt(Polled(s), k, w), CoverageAt(ObservationsFor(s, Real), k, w));
    forall collector
      ensures SameEntry(CoverageAt(Polled(s), k, w), CoverageAt(ObservationsFor(s, Real), k, w), collector) <==>
              (FullyCovered(Polled(s), k, w, collector)
               || !exists o :: o in NewObservations(s, Real, s.states[Real]) && CoversWindow(o, k, w) && o.collector == collector)
    {
      CollectorKept(s, k, w, collector);
    }
  }

  /** A window that starts after the windows of all new rows, none of which is late. */
  ghost predicate PastNewRows(c: Config, s: Store, k: WindowKey)
    requires c.windowMinutes > 0 && Real in s.states
  {
    && (forall e :: e in NewEvents(s, Real, s.states[Real]) ==>
          && AlignWindowStart(e.timestamp, c.windowMinutes) < k.start
          && (s.states[Real].watermark.Some? ==> s.states[Real].watermark.value <= e.timestamp))
    && (forall o :: o in NewObservations(s, Real, s.states[Real]) ==> AlignWindowStart(o.observedAt, c.windowMinutes) < k.start)
  }

  /** No new poll adds coverage to a stored window after all new rows. */
  ghost predicate PollsLeaveRest(c: Config, s: Store)
    requires c.windowMinutes > 0 && Real in s.states
  {
    forall k: WindowKey :: k in TableOf(s, Real) && PastNewRows(c, s, k) ==> NothingToAdd(s, k, c.windowMinutes)
  }

  /** A poll covers no window before its own. */
  lemma PollStartsBy(o: Observation, k: WindowKey, c: Config)
    requires ValidConfig(c) && CoversWindow(o, k, c.windowMinutes) && Aligned(k.start, c.windowMinutes)
    ensures AlignWindowStart(o.observedAt, c.windowMinutes) <= k.start
  {
    var w := c.windowMinutes;
    AlignCut(o.observedAt, k.start, w);
    AlignCut(o.observedAt, k.start + Length(w), w);
    if k.start < AlignWindowStart(o.observedAt, w) {
      AlignedGap(k.start, AlignWindowStart(o.observedAt, w), w);
    }
  }

  /** A window that a new poll covers lies outside the rewritten range exactly when it is past all new
      rows and none of them is late. */
  lemma OutsideIsPast(c: Config, s: Store, now: int, k: WindowKey, o: Observation)
    requires ValidConfig(c) && Real in s.states && NewEventsOnTime(c, s, Real) && Aligned(k.start, c.windowMinutes)
    requires o in NewObservations(s, Real, s.states[Real]) && CoversWindow(o, k, c.windowMinutes)
    ensures !InRange(k.start, RealRange(c, s, now)) <==> PastNewRows(c, s, k)
  {
    var state, w, r := s.states[Real], c.windowMinutes, RealRange(c, s, now);
    var added, polled, boundary := NewEvents(s, Real, state), NewObservations(s, Real, state), PolicyBoundary(c, state.watermark);
    var starts := AffectedStarts(added, polled, boundary, w);
    NewRowsInRange(c, s, now);
    PollStartsBy(o, k, c);
    assert AlignWindowStart(o.observedAt, w) in starts;
    if PastNewRows(c, s, k) {
      assert forall e :: e in added ==> !LateWithinPolicy(e, boundary, state.watermark);
      StartAligned(0, c);
      var last := Greatest(starts);
      assert last < k.start;
      EndNotPast(c, added, polled, boundary, last, k.start);
    } else if r.end.Some? && r.end.value <= k.start {
      forall e | e in added
        ensures AlignWindowStart(e.timestamp, w) < k.start && (state.watermark.Some? ==> state.watermark.value <= e.timestamp)
      {
        assert !LateWithinPolicy(e, boundary, state.watermark);
      }
    }
  }

  /** Between two different window starts lies a whole window. */
  lemma EndNotPast(c: Config, added: seq<Event>, polled: seq<Observation>, boundary: Option<int>, last: int, start: int)
    requires ValidConfig(c) && last in AffectedStarts(added, polled, boundary, c.windowMinutes)
    requires last < start && Aligned(start, c.windowMinutes)
    ensures last + Length(c.windowMinutes) <= start
  {
    var t :| AlignWindowStart(t, c.windowMinutes) == last;
    StartAligned(t, c);
    if start < last + Length(c.windowMinutes) {
      AlignedGap(last, start, c.windowMinutes);
    }
  }

  lemma KeptExactly(c: Config, s: Store, now: int)
    requires InStepReal(c, s) && Real in s.states
    ensures CoverageKept(c, s, now) <==> PollsLeaveRest(c, s)
  {
    var w := c.windowMinutes;
    forall k: WindowKey | k in TableOf(s, Real)
      ensures (!InRange(k.start, RealRange(c, s, now)) ==>
                 CoverageAt(Polled(s), k, w) == CoverageAt(ObservationsFor(s, Real), k, w))
              <==> (PastNewRows(c, s, k) ==> NothingToAdd(s, k, w))
    {
      KeptAt(c, s, now, k);
    }
  }

  lemma KeptAt(c: Config, s: Store, now: int, k: WindowKey)
    requires InStepReal(c, s) && Real in s.states && k in TableOf(s, Real)
    ensures (!InRange(k.start, RealRange(c, s, now)) ==>
               CoverageAt(Polled(s), k, c.windowMinutes) == CoverageAt(ObservationsFor(s, Real), k, c.windowMinutes))
            <==> (PastNewRows(c, s, k) ==> NothingToAdd(s, k, c.windowMinutes))
  {
    var w := c.windowMinutes;
    WindowKept(s, k, w);
    if !NothingToAdd(s, k, w) {
      var o :| o in NewObservations(s, Real, s.states[Real]) && CoversWindow(o, k, w)
               && !FullyCovered(Polled(s), k, w, o.collector);
      KeysAligned(Real, EventsOf(s, Real), ObservationsFor(s, Real), c);
      OutsideIsPast(c, s, now, k, o);
    }
  }

  // --- Exactly when a call is enough -------------------------------------------------------

  /** From a table in step, with events in policy, an incremental call stores the rebuild's table
      exactly when no new poll reaches into a stored window after all new rows that its collector had
      not fully covered before. */
  lemma RealIncrementalExact(c: Config, s: Store, now: int)
    requires InStepReal(c, s) && Real in s.states && HasNewRows(s, Real, s.states[Real])
    ensures TableOf(Materialized(c, s, Real, false, now), Real) == RebuiltOf(c, s, Real) <==> PollsLeaveRest(c, s)
  {
    EqualIffCoverageKept(c, s, now);
    KeptExactly(c, s, now);
  }

  /** A new poll that reaches into a stored window after all new rows is missed there unless its
      collector had covered the window fully before. */
  lemma ReachingPollIsMissed(c: Config, s: Store, now: int, o: Observation, k: WindowKey)
    requires InStepReal(c, s) && Real in s.states && o in NewObservations(s, Real, s.states[Real])
    requires k in TableOf(s, Real) && PastNewRows(c, s, k) && CoversWindow(o, k, c.windowMinutes)
    requires !FullyCovered(Polled(s), k, c.windowMinutes, o.collector)
    ensures TableOf(Materialized(c, s, Real, false, now), Real) != RebuiltOf(c, s, Real)
  {
    assert !NothingToAdd(s, k, c.windowMinutes);
    RealIncrementalExact(c, s, now);
  }

  // --- Staying in step ---------------------------------------------------------------------

  function PlaceOf(o: Observation): ObservationCursor { ObservationCursor(o.observedAt, o.id) }

  lemma {:induction false} LatestObservationCovers(previous: Option<ObservationCursor>, observations: seq<Observation>)
    requires observations != []
    ensures LatestObservation(previous, observations).Some?
    ensures forall o :: o in observations ==> Through(o, LatestObservation(previous, observations).value)
    ensures exists o :: o in observations && LatestObservation(previous, observations) == Some(PlaceOf(o))
    decreases |observations|
  {
    var init, last := observations[..|observations| - 1], observations[|observations| - 1];
    assert observations == init + [last];
    var latest := LatestObservation(None, init);
    if init != [] {
      LatestObservationCovers(None, init);
    }
    if init == [] || AfterObservation(latest)(last) {
      assert last in observations && LatestObservation(previous, observations) == Some(PlaceOf(last));
    } else {
      var o :| o in init && latest == Some(PlaceOf(o));
      assert o in observations;
    }
  }

  /** Once the new polls were read, all of them count as read. */
  lemma PolledAfterCall(observations: seq<Observation>, previous: Option<ObservationCursor>)
    ensures var next := LatestObservation(previous, Filter(observations, AfterObservation(previous)));
            Filter(observations, UpToObservation(next)) == observations
  {
    var added := Filter(observations, AfterObservation(previous));
    var next := LatestObservation(previous, added);
    FilterMembers(observations, AfterObservation(previous));
    if added != [] {
      LatestObservationCovers(previous, added);
      var f :| f in added && next == Some(PlaceOf(f));
      assert AfterObservation(previous)(f);
    }
    forall o | o in observations ensures UpToObservation(next)(o) {
      ThroughOrAfter(o, previous);
      if o in added {
        assert Through(o, next.value);
      } else {
        assert UpToObservation(previous)(o);
      }
    }
    FilterAll(observations, UpToObservation(next));
  }

  lemma ConsumedAfterCall(s: Store, after: Store)
    requires Real in s.states && Real in after.states && after.events == s.events
    requires after.states[Real].cursor == LatestCursor(s.states[Real].cursor, NewEvents(s, Real, s.states[Real]))
    ensures Consumed(after, Real) == EventsOf(s, Real)
  {
    var all, cursor := EventsOf(s, Real), s.states[Real].cursor;
    if NewEvents(s, Real, s.states[Real]) == [] {
      FilterMembers(all, AfterCursor(cursor));
      FilterAll(all, UpToCursor(cursor));
    } else {
      NewCursorCoversAll(all, cursor);
    }
  }

  lemma WatermarkAfterCall(s: Store, after: Store)
    requires Real in s.states && Real in after.states && IsLatest(s.states[Real].watermark, Consumed(s, Real))
    requires after.states[Real].watermark == LatestTime(s.states[Real].watermark, NewEvents(s, Real, s.states[Real]))
    ensures IsLatest(after.states[Real].watermark, EventsOf(s, Real))
  {
    var state, all := s.states[Real], EventsOf(s, Real);
    LatestTimeIsLatest(state.watermark, Consumed(s, Real), NewEvents(s, Real, state));
    FilterMembers(all, UpToCursor(state.cursor));
    FilterMembers(all, AfterCursor(state.cursor));
    LatestOfSame(LatestTime(state.watermark, NewEvents(s, Real, state)), Consumed(s, Real) + NewEvents(s, Real, state), all);
  }

  lemma IncrementalStaysInStep(c: Config, s: Store, now: int)
    requires InStepReal(c, s) && Real in s.states && HasNewRows(s, Real, s.states[Real]) && PollsLeaveRest(c, s)
    ensures var after := Materialized(c, s, Real, false, now);
            SyncedReal(c, after) && Consumed(after, Real) == EventsOf(after, Real)
  {
    var after := Materialized(c, s, Real, false, now);
    RealIncrementalExact(c, s, now);
    IncrementalEffect(c, s, Real, s.states[Real], now);
    ConsumedAfterCall(s, after);
    WatermarkAfterCall(s, after);
    PolledAfterCall(ObservationsFor(s, Real), s.states[Real].observationCursor);
  }

  lemma NoNewRows(c: Config, s: Store, now: int)
    requires c.windowMinutes > 0 && Real in s.states && !HasNewRows(s, Real, s.states[Real])
    ensures Materialized(c, s, Real, false, now) == s
    ensures Consumed(s, Real) == EventsOf(s, Real) && Polled(s) == ObservationsFor(s, Real)
  {
    var state := s.states[Real];
    ReadOrNew(s);
    FilterAll(EventsOf(s, Real), UpToCursor(state.cursor));
    FilterAll(ObservationsFor(s, Real), UpToObservation(state.observationCursor));
  }

  lemma NothingReadYet(c: Config, s: Store)
    requires c.windowMinutes > 0 && SyncedReal(c, s) && Real !in s.states
    ensures TableOf(s, Real) == map[]
  {
    assert EventKeys([], c.windowMinutes) == {} && ObservationKeys([], c.windowMinutes) == {};
  }

  lemma FullStaysInStep(c: Config, s: Store, rebuild: bool)
    requires WellFormed(c, s, Real) && SyncedReal(c, s) && (rebuild || Real !in s.states)
    ensures var after := Full(c, s, Real, rebuild);
            && TableOf(after, Real) == RebuiltOf(c, s, Real)
            && SyncedReal(c, after) && Consumed(after, Real) == EventsOf(after, Real)
  {
    var all, polls, after := EventsOf(s, Real), ObservationsFor(s, Real), Full(c, s, Real, rebuild);
    if Real !in s.states {
      NothingReadYet(c, s);
    }
    FullStoresRebuilt(c, s, Real, rebuild);
    var state := StateOf(s, Real);
    CursorAfterFull(all, if state.Some? then state.value.cursor else None);
    PolledAfterFull(polls, if state.Some? then state.value.observationCursor else None);
    WatermarkAfterFull(s);
  }

  lemma PolledAfterFull(polls: seq<Observation>, previous: Option<ObservationCursor>)
    ensures Filter(polls, UpToObservation(LatestObservation(previous, polls))) == polls
  {
    if polls != [] {
      LatestObservationCovers(previous, polls);
      FilterAll(polls, UpToObservation(LatestObservation(previous, polls)));
    }
  }

  lemma WatermarkAfterFull(s: Store)
    requires Real in s.states ==> IsLatest(s.states[Real].watermark, Consumed(s, Real))
    ensures IsLatest(LatestTime(if Real in s.states then s.states[Real].watermark else None, EventsOf(s, Real)), EventsOf(s, Real))
  {
    var all, seen := EventsOf(s, Real), Consumed(s, Real);
    var watermark := if Real in s.states then s.states[Real].watermark else None;
    LatestTimeIsLatest(watermark, seen, all);
    if Real in s.states {
      FilterMembers(all, UpToCursor(s.states[Real].cursor));
    }
    LatestOfSame(LatestTime(watermark, all), seen + all, all);
  }

  lemma AllReadIsOnTime(c: Config, s: Store)
    requires Consumed(s, Real) == EventsOf(s, Real)
    ensures NewEventsOnTime(c, s, Real)
  {
    if Real in s.states {
      FilterMembers(EventsOf(s, Real), UpToCursor(s.states[Real].cursor));
      FilterMembers(EventsOf(s, Real), AfterCursor(s.states[Real].cursor));
    }
  }

  // --- Runs --------------------------------------------------------------------------------

  /** Polls recorded later lie past the stored cursor. */
  ghost predicate PastObservationCursor(s: Store, polls: seq<Observation>) {
    Real in s.states && s.states[Real].observationCursor.Some? ==>
      forall o :: o in polls ==> !Through(o, s.states[Real].observationCursor.value)
  }

  /** Real events arrive accepted, past the cursor and in policy; polls arrive past their cursor, at
      most one a second; and no poll reaches unread into a stored window after all new rows when an
      incremental call reads it. */
  ghost predicate ArrivesInStep(c: Config, s: Store, step: Step)
    requires c.windowMinutes > 0
  {
    match step
    case Ingest(rows) =>
      && Accepted(rows) && PastStoredCursor(s, rows, Real)
      && (Real in s.states ==>
            forall e :: e in rows && !e.synthetic ==> OnTime(c, s.states[Real].watermark, e))
    case Observe(polls) => PollsAtLeastOneSecond(polls) && PastObservationCursor(s, polls)
    case Materialize(kind, rebuild, now) => kind == Real && !rebuild && Real in s.states ==> PollsLeaveRest(c, s)
  }

  ghost predicate RunInStep(c: Config, s: Store, steps: seq<Step>)
    requires c.windowMinutes > 0
    decreases |steps|
  {
    steps == [] || (ArrivesInStep(c, s, steps[0]) && RunInStep(c, Take(c, s, steps[0]), steps[1..]))
  }

  lemma ObservationOrder()
    ensures TotalOrder(ObservationLeq)
  {
  }

  lemma PolledAfterObserve(s: Store, polls: seq<Observation>)
    requires PastObservationCursor(s, polls)
    ensures Polled(s.(observations := s.observations + polls)) == Polled(s)
  {
    if Real in s.states {
      var cursor := s.states[Real].observationCursor;
      ObservationOrder();
      FilterSortBy(s.observations + polls, ObservationLeq, UpToObservation(cursor));
      FilterSortBy(s.observations, ObservationLeq, UpToObservation(cursor));
      FilterConcat(s.observations, polls, UpToObservation(cursor));
      FilterNone(polls, UpToObservation(cursor));
      assert Filter(s.observations, UpToObservation(cursor)) + [] == Filter(s.observations, UpToObservation(cursor));
    }
  }

  lemma IngestStays(c: Config, s: Store, rows: seq<Event>)
    requires InStepReal(c, s) && ArrivesInStep(c, s, Ingest(rows))
    ensures InStepReal(c, s.(events := s.events + rows))
  {
    var after := s.(events := s.events + rows);
    ConsumedAfterIngest(s, rows, Real);
    EventsAfterIngest(s, rows, Real);
    if Real in s.states {
      FilterMembers(EventsOf(s, Real), AfterCursor(s.states[Real].cursor));
      FilterMembers(EventsOf(after, Real), AfterCursor(s.states[Real].cursor));
    }
  }

  lemma ObserveStays(c: Config, s: Store, polls: seq<Observation>)
    requires InStepReal(c, s) && ArrivesInStep(c, s, Observe(polls))
    ensures InStepReal(c, s.(observations := s.observations + polls))
  {
    var after := s.(observations := s.observations + polls);
    PolledAfterObserve(s, polls);
    assert EventsOf(after, Real) == EventsOf(s, Real);
    SortByPermutes(s.observations, ObservationLeq);
    SortByPermutes(after.observations, ObservationLeq);
  }

  lemma RealCallStays(c: Config, s: Store, rebuild: bool, now: int)
    requires InStepReal(c, s) && ArrivesInStep(c, s, Materialize(Real, rebuild, now))
    ensures InStepReal(c, Materialized(c, s, Real, rebuild, now))
    ensures TableOf(Materialized(c, s, Real, rebuild, now), Real) == RebuiltOf(c, s, Real)
  {
    MaterializedStaysWellFormed(c, s, Real, rebuild, now);
    if Real !in s.states || rebuild {
      FullStaysInStep(c, s, rebuild);
      AllReadIsOnTime(c, Full(c, s, Real, rebuild));
    } else if HasNewRows(s, Real, s.states[Real]) {
      RealIncrementalExact(c, s, now);
      IncrementalStaysInStep(c, s, now);
      AllReadIsOnTime(c, Materialized(c, s, Real, false, now));
    } else {
      NoNewRows(c, s, now);
    }
  }

  lemma SyntheticCallStays(c: Config, s: Store, rebuild: bool, now: int)
    requires InStepReal(c, s)
    ensures InStepReal(c, Materialized(c, s, Synthetic, rebuild, now))
  {
    var after := Materialized(c, s, Synthetic, rebuild, now);
    OtherKindUntouched(c, s, Synthetic, rebuild, now, Real);
    assert EventsOf(after, Real) == EventsOf(s, Real) && ObservationsFor(after, Real) == ObservationsFor(s, Real);
  }

  lemma {:induction false} RunStaysReal(c: Config, s: Store, steps: seq<Step>)
    requires InStepReal(c, s) && RunInStep(c, s, steps)
    ensures InStepReal(c, Run(c, s, steps))
    decreases |steps|
  {
    if steps != [] {
      match steps[0] {
        case Ingest(rows) => IngestStays(c, s, rows);
        case Observe(polls) => ObserveStays(c, s, polls);
        case Materialize(kind, rebuild, now) =>
          if kind == Real { RealCallStays(c, s, rebuild, now); } else { SyntheticCallStays(c, s, rebuild, now); }
      }
      RunStaysReal(c, Take(c, s, steps[0]), steps[1..]);
    }
  }

  lemma EmptyInStepReal(c: Config)
    requires ValidConfig(c)
    ensures InStepReal(c, EmptyStore)
  {
    assert EventsOf(EmptyStore, Real) == [] && ObservationsFor(EmptyStore, Real) == [];
    assert EventKeys([], c.windowMinutes) == {} && ObservationKeys([], c.windowMinutes) == {};
  }

  /** Whole runs of real data: after any run in step, an incremental call stores exactly what a rebuild
      would if and only if no poll it reads adds to a stored window after all rows it reads. */
  lemma RealIncrementalEqualsRebuild(c: Config, steps: seq<Step>, now: int)
    requires ValidConfig(c) && RunInStep(c, EmptyStore, steps)
    ensures var s := Run(c, EmptyStore, steps);
            TableOf(Materialized(c, s, Real, false, now), Real) == RebuiltOf(c, s, Real)
            <==> (Real in s.states ==> PollsLeaveRest(c, s))
  {
    var s := Run(c, EmptyStore, steps);
    EmptyInStepReal(c);
    RunStaysReal(c, EmptyStore, steps);
    if Real in s.states && HasNewRows(s, Real, s.states[Real]) {
      RealIncrementalExact(c, s, now);
    } else {
      RealCallStays(c, s, false, now);
    }
  }

  // --- A poll that is missed ---------------------------------------------------------------

  /** An event one second into the second quarter of an hour, and a minute-long poll one second
      before it. */
  const EARLY_EVENT := Event("e", 901 * SECOND, "user", "host", "agent", SystemMetrics(0.0, 0.0), false, 0)
  const REACHING_POLL := Observation(1, "metrics", Some("user"), Some("host"), 899 * SECOND, true, 60 * SECOND)

  const SECOND_QUARTER := WindowKey(Profile("user", "host"), 900 * SECOND)

  function BeforePoll(): Store { EmptyStore.(events := [EARLY_EVENT]) }

  lemma ExampleTimes()
    ensures AlignWindowStart(901 * SECOND, 15) == 900 * SECOND && AlignWindowStart(899 * SECOND, 15) == 0
    ensures Length(15) == 900 * SECOND
  {
  }

  lemma ExampleRows(s: Store)
    requires s == Materialized(DEFAULTS, BeforePoll(), Real, false, 0).(observations := [REACHING_POLL])
    ensures Real in s.states && NewEvents(s, Real, s.states[Real]) == []
    ensures NewObservations(s, Real, s.states[Real]) == [REACHING_POLL] && Polled(s) == []
  {
    var before := BeforePoll();
    assert Filter([EARLY_EVENT], OfKind(Real)) == [EARLY_EVENT];
    assert EventsOf(before, Real) == [EARLY_EVENT] && EventsOf(s, Real) == [EARLY_EVENT];
    assert ObservationsFor(before, Real) == [] && ObservationsFor(s, Real) == [REACHING_POLL];
    assert s.states[Real].cursor == Some(CursorOf(EARLY_EVENT)) && s.states[Real].observationCursor == None;
    TextLeqTotal("e", "e");
  }

  lemma ExamplePast(s: Store)
    requires Real in s.states && NewEvents(s, Real, s.states[Real]) == []
    requires NewObservations(s, Real, s.states[Real]) == [REACHING_POLL]
    ensures PastNewRows(DEFAULTS, s, SECOND_QUARTER)
  {
    ExampleTimes();
  }

  lemma ExampleIngested()
    ensures InStepReal(DEFAULTS, BeforePoll())
  {
    EmptyInStepReal(DEFAULTS);
    IngestStays(DEFAULTS, EmptyStore, [EARLY_EVENT]);
    assert EmptyStore.events + [EARLY_EVENT] == [EARLY_EVENT];
  }

  lemma ExampleInStep(before: Store)
    requires before == Materialized(DEFAULTS, BeforePoll(), Real, false, 0)
    ensures InStepReal(DEFAULTS, before) && TableOf(before, Real) == RebuiltOf(DEFAULTS, BeforePoll(), Real)
  {
    ExampleIngested();
    RealCallStays(DEFAULTS, BeforePoll(), false, 0);
  }

  lemma ExampleStored(before: Store)
    requires TableOf(before, Real) == RebuiltOf(DEFAULTS, BeforePoll(), Real)
    ensures SECOND_QUARTER in TableOf(before, Real)
  {
    ExampleEvents();
    ExampleKey();
    assert SECOND_QUARTER in EventKeys(EventsOf(BeforePoll(), Real), 15);
  }

  lemma ExampleEvents()
    ensures EventsOf(BeforePoll(), Real) == [EARLY_EVENT]
  {
    assert Filter([EARLY_EVENT], OfKind(Real)) == [EARLY_EVENT];
  }

  lemma ExampleKey()
    ensures KeyOf(EARLY_EVENT, 15) == SECOND_QUARTER
  {
    ExampleTimes();
  }

  lemma ExampleCovers()
    ensures CoversWindow(REACHING_POLL, SECOND_QUARTER, 15) && !FullyCovered([], SECOND_QUARTER, 15, REACHING_POLL.collector)
  {
    ExampleTimes();
  }

  lemma ExampleState(before: Store)
    requires before == Materialized(DEFAULTS, BeforePoll(), Real, false, 0)
    ensures Real in before.states && before.states[Real].observationCursor == None && before.observations == []
  {
  }

  lemma ExampleObserved(before: Store)
    requires InStepReal(DEFAULTS, before) && Real in before.states
    requires before.states[Real].observationCursor == None && before.observations == []
    ensures InStepReal(DEFAULTS, before.(observations := [REACHING_POLL]))
  {
    assert before.observations + [REACHING_POLL] == [REACHING_POLL];
    ObserveStays(DEFAULTS, before, [REACHING_POLL]);
  }

  /** Real data in the default configuration can miss a poll: after it, the incremental table is not
      the rebuild's. */
  lemma PollMissed()
    ensures var s := Materialized(DEFAULTS, BeforePoll(), Real, false, 0).(observations := [REACHING_POLL]);
            InStepReal(DEFAULTS, s) && TableOf(Materialized(DEFAULTS, s, Real, false, 0), Real) != RebuiltOf(DEFAULTS, s, Real)
  {
    var before := Materialized(DEFAULTS, BeforePoll(), Real, false, 0);
    var s := before.(observations := [REACHING_POLL]);
    ExampleInStep(before);
    ExampleStored(before);
    ExampleState(before);
    ExampleObserved(before);
    ExampleRows(s);
    ExamplePast(s);
    ExampleCovers();
    MissedIn(s);
  }

  lemma MissedIn(s: Store)
    requires InStepReal(DEFAULTS, s) && Real in s.states && SECOND_QUARTER in TableOf(s, Real)
    requires NewObservations(s, Real, s.states[Real]) == [REACHING_POLL]
    requires PastNewRows(DEFAULTS, s, SECOND_QUARTER) && CoversWindow(REACHING_POLL, SECOND_QUARTER, 15)
    requires Polled(s) == [] && !FullyCovered([], SECOND_QUARTER, 15, REACHING_POLL.collector)
    ensures TableOf(Materialized(DEFAULTS, s, Real, false, 0), Real) != RebuiltOf(DEFAULTS, s, Real)
  {
    assert REACHING_POLL in NewObservations(s, Real, s.states[Real]);
    ReachingPollIsMissed(DEFAULTS, s, 0, REACHING_POLL, SECOND_QUARTER);
  }
}
