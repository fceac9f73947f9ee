/**
 One incremental call agrees with a full rebuild on the range it rewrites and leaves every
 other window alone, for synthetic and for real data.
 */
module RangeAgreement {
  import opened Sequences
  import opened Tables
  import opened Windows
  import opened Materialization

  /** Ingestion rejects an empty process name. */
  ghost predicate Accepted(events: seq<Event>) {
    forall e :: e in events && e.payload.Process? ==> e.payload.name != ""
  }

  /** Collectors poll no more than once a second. */
  ghost predicate PollsAtLeastOneSecond(observations: seq<Observation>) {
    forall o :: o in observations ==> o.interval >= SECOND
  }

  /** Every stored window of a kind has an event or a poll behind it. */
  ghost predicate Backed(s: Store, kind: DatasetKind, w: int)
    requires w > 0
  {
    TableOf(s, kind).Keys <= WindowKeys(kind, EventsOf(s, kind), ObservationsFor(s, kind), w)
  }

  ghost predicate WellFormed(c: Config, s: Store, kind: DatasetKind) {
    && ValidConfig(c) && Accepted(s.events) && PollsAtLeastOneSecond(ObservationsFor(s, kind))
    && Backed(s, kind, c.windowMinutes)
  }

  ghost predicate AlignedRange(r: Range, w: int)
    requires w > 0
  {
    Aligned(r.start, w) && (r.end.Some? ==> Aligned(r.end.value, w))
  }

  // --- The range ---------------------------------------------------------------------------

  lemma StartAligned(t: int, c: Config)
    requires ValidConfig(c)
    ensures Aligned(AlignWindowStart(t, c.windowMinutes), c.windowMinutes)
    ensures Aligned(AlignWindowStart(t, c.windowMinutes) + Length(c.windowMinutes), c.windowMinutes)
  {
    MultipleAligned(0, c.windowMinutes);
    AlignCut(t, 0, c.windowMinutes);
    AlignCut(t, AlignWindowStart(t, c.windowMinutes), c.windowMinutes);
  }

  lemma AffectedRangeAligned(c: Config, watermark: Option<int>, events: seq<Event>, observations: seq<Observation>,
                             now: int)
    requires ValidConfig(c)
    ensures AlignedRange(AffectedRange(c, watermark, events, observations, now), c.windowMinutes)
  {
    forall t { StartAligned(t, c); }
  }

  /** The range reaches over every window that a new row touches. */
  lemma AffectedInRange(c: Config, watermark: Option<int>, events: seq<Event>, observations: seq<Observation>, now: int,
                        start: int)
    requires c.windowMinutes > 0
    requires start in AffectedStarts(events, observations, PolicyBoundary(c, watermark), c.windowMinutes)
    ensures InRange(start, AffectedRange(c, watermark, events, observations, now))
  {
  }

  /** An aligned range contains a time exactly when it contains the start of its window. */
  lemma InRangeCut(t: int, r: Range, w: int)
    requires w > 0 && MINUTES_PER_DAY % w == 0 && AlignedRange(r, w)
    ensures InRange(t, r) <==> InRange(AlignWindowStart(t, w), r)
  {
    AlignCut(t, r.start, w);
    if r.end.Some? {
      AlignCut(t, r.end.value, w);
    }
  }

  // --- What a window is made of ------------------------------------------------------------

  lemma GroupInRange(events: seq<Event>, r: Range, k: WindowKey, w: int)
    requires w > 0 && MINUTES_PER_DAY % w == 0 && AlignedRange(r, w) && InRange(k.start, r)
    ensures Filter(Filter(events, Within(r)), InWindow(k, w)) == Filter(events, InWindow(k, w))
  {
    forall e | e in events && InWindow(k, w)(e) ensures Within(r)(e) { InRangeCut(e.timestamp, r, w); }
    FilterNested(events, Within(r), InWindow(k, w));
  }

  /** Seeding the seen sets from the novelty query is the same as having visited every earlier window. */
  lemma SeenInRange(events: seq<Event>, r: Range, k: WindowKey, w: int)
    requires w > 0 && MINUTES_PER_DAY % w == 0 && AlignedRange(r, w) && InRange(k.start, r) && Accepted(events)
    ensures BaselineOf(Filter(events, KnownBefore(r.start)), k.profile)
              .Union(NoveltyOf(Filter(Filter(events, Within(r)), EarlierThan(k, w)))) ==
            NothingSeen.Union(NoveltyOf(Filter(events, EarlierThan(k, w))))
  {
    var known := Filter(events, KnownBefore(r.start));
    var affected := Filter(events, Within(r));
    var before, recent, earlier :=
      Filter(known, OfProfile(k.profile)), Filter(affected, EarlierThan(k, w)), Filter(events, EarlierThan(k, w));
    FilterMembers(events, KnownBefore(r.start));
    FilterMembers(known, OfProfile(k.profile));
    FilterMembers(events, Within(r));
    FilterMembers(affected, EarlierThan(k, w));
    FilterMembers(events, EarlierThan(k, w));
    forall e | e in before ensures e in earlier { AlignContains(e.timestamp, w); }
    forall e | e in earlier && TypeOf(e) in {ProcessEvent, NetworkEvent} ensures e in before || e in recent {
      InRangeCut(e.timestamp, r, w);
      AlignCut(e.timestamp, r.start, w);
    }
    var a, b, all := NoveltyOf(before), NoveltyOf(recent), NoveltyOf(earlier);
    assert a.processes + b.processes == all.processes;
    assert a.remotes + b.remotes == all.remotes;
  }

  /** Polls that do not reach into the range cover none of its windows. */
  lemma {:induction false} CoverageInRange(observations: seq<Observation>, r: Range, p: Profile, start: int, end: int)
    requires PollsAtLeastOneSecond(observations) && r.start <= start && (r.end.Some? ==> end <= r.end.value)
    ensures CoveredTime(Filter(observations, Overlapping(r)), p, start, end) == CoveredTime(observations, p, start, end)
  {
    if observations != [] {
      var init, last := observations[..|observations| - 1], observations[|observations| - 1];
      CoverageInRange(init, r, p, start, end);
      var kept := Filter(init, Overlapping(r));
      if Overlapping(r)(last) {
        assert (kept + [last])[..|kept|] == kept;
      }
    }
  }

  lemma QualityInRange(kind: DatasetKind, group: seq<Event>, k: WindowKey, observations: seq<Observation>, r: Range, w: int)
    requires w > 0 && PollsAtLeastOneSecond(observations) && AlignedRange(r, w) && Aligned(k.start, w)
    requires InRange(k.start, r)
    ensures QualityForWindow(kind, group, k, Filter(observations, Overlapping(r)), w) ==
            QualityForWindow(kind, group, k, observations, w)
  {
    if r.end.Some? && r.end.value < k.start + Length(w) {
      AlignedGap(k.start, r.end.value, w);
    }
    CoverageInRange(observations, r, k.profile, k.start, k.start + Length(w));
  }

  lemma KeysAligned(kind: DatasetKind, events: seq<Event>, observations: seq<Observation>, c: Config)
    requires ValidConfig(c)
    ensures forall k :: k in WindowKeys(kind, events, observations, c.windowMinutes) ==> Aligned(k.start, c.windowMinutes)
  {
    forall t { StartAligned(t, c); }
  }

  lemma KeysInRange(kind: DatasetKind, events: seq<Event>, observations: seq<Observation>, r: Range, k: WindowKey, w: int)
    requires w > 0 && MINUTES_PER_DAY % w == 0 && AlignedRange(r, w) && InRange(k.start, r)
    requires PollsAtLeastOneSecond(observations)
    ensures k in WindowKeys(kind, Filter(events, Within(r)), Filter(observations, Overlapping(r)), w) <==>
            k in WindowKeys(kind, events, observations, w)
  {
    FilterMembers(events, Within(r));
    FilterMembers(observations, Overlapping(r));
    forall e | e in events && KeyOf(e, w) == k ensures Within(r)(e) { InRangeCut(e.timestamp, r, w); }
    forall o | o in observations && Identified(o) && ObservationKey(o, w) == k ensures Overlapping(r)(o) {
      InRangeCut(o.observedAt, r, w);
    }
  }

  /** The windows built from the range alone are those of the full rebuild. */
  lemma BuiltIsRebuilt(c: Config, kind: DatasetKind, events: seq<Event>, observations: seq<Observation>, r: Range)
    requires ValidConfig(c) && AlignedRange(r, c.windowMinutes)
    requires Accepted(events) && PollsAtLeastOneSecond(observations)
    ensures var w := c.windowMinutes;
            var full := Rebuilt(kind, events, observations, w);
            var built := Built(kind, Filter(events, Within(r)), Filter(observations, Overlapping(r)), r,
                               Filter(events, KnownBefore(r.start)), w);
            IsCut(built, full, r)
  {
    var w := c.windowMinutes;
    var affected, polled := Filter(events, Within(r)), Filter(observations, Overlapping(r));
    var known := Filter(events, KnownBefore(r.start));
    var full, built := Rebuilt(kind, events, observations, w), Built(kind, affected, polled, r, known, w);
    forall k ensures k in built <==> k in full && InRange(k.start, r) {
      if InRange(k.start, r) { KeysInRange(kind, events, observations, r, k, w); }
    }
    forall k | k in built ensures built[k] == full[k] {
      KeysAligned(kind, events, observations, c);
      WindowInRange(kind, events, observations, r, k, w);
    }
  }

  lemma WindowInRange(kind: DatasetKind, events: seq<Event>, observations: seq<Observation>, r: Range, k: WindowKey, w: int)
    requires w > 0 && MINUTES_PER_DAY % w == 0 && AlignedRange(r, w) && InRange(k.start, r) && Aligned(k.start, w)
    requires Accepted(events) && PollsAtLeastOneSecond(observations)
    ensures WindowAt(kind, Filter(events, Within(r)), Filter(observations, Overlapping(r)), k, w,
                     BaselineOf(Filter(events, KnownBefore(r.start)), k.profile)) ==
            WindowAt(kind, events, observations, k, w, NothingSeen)
  {
    GroupInRange(events, r, k, w);
    SeenInRange(events, r, k, w);
    QualityInRange(kind, Filter(events, InWindow(k, w)), k, observations, r, w);
  }

  // --- One call ----------------------------------------------------------------------------

  lemma EventsAccepted(s: Store, kind: DatasetKind)
    requires Accepted(s.events)
    ensures Accepted(EventsOf(s, kind))
  {
    FilterMembers(s.events, OfKind(kind));
    SortByPermutes(Filter(s.events, OfKind(kind)), EventLeq);
  }

  ghost function RebuiltOf(c: Config, s: Store, kind: DatasetKind): Table
    requires c.windowMinutes > 0
  {
    Rebuilt(kind, EventsOf(s, kind), ObservationsFor(s, kind), c.windowMinutes)
  }

  ghost predicate AgreeAt(a: Table, b: Table, k: WindowKey) {
    (k in a <==> k in b) && (k in a && k in b ==> a[k] == b[k])
  }

  /** `built` is `full` cut down to a range. */
  ghost predicate IsCut(built: Table, full: Table, r: Range) {
    && (forall k :: k in built <==> k in full && InRange(k.start, r))
    && (forall k :: k in built ==> built[k] == full[k])
  }

  ghost predicate Replaces(after: Table, table: Table, full: Table, r: Range) {
    && (forall k: WindowKey :: InRange(k.start, r) ==> AgreeAt(after, full, k))
    && (forall k: WindowKey :: !InRange(k.start, r) ==> AgreeAt(after, table, k))
  }

  lemma ReplaceRange(table: Table, built: Table, full: Table, r: Range)
    requires IsCut(built, full, r)
    ensures Replaces(Outside(table, r) + built, table, full, r)
  {
  }

  lemma NothingInRange(table: Table, full: Table, r: Range)
    requires table.Keys <= full.Keys && forall k :: k in full ==> !InRange(k.start, r)
    ensures Replaces(table, table, full, r)
  {
  }

  lemma EmptyUnion(table: Table, r: Range)
    ensures map[] + table == table && Outside(map[], r) == map[]
  {
  }

  /** Refreshing a range puts the rebuild's windows there and touches nothing else. */
  lemma RefreshedAgrees(c: Config, table: Table, kind: DatasetKind, events: seq<Event>, observations: seq<Observation>,
                        r: Range)
    requires ValidConfig(c) && Accepted(events) && PollsAtLeastOneSecond(observations)
    requires AlignedRange(r, c.windowMinutes)
    requires table.Keys <= WindowKeys(kind, events, observations, c.windowMinutes)
    ensures Replaces(Refreshed(table, kind, events, observations, r, c.windowMinutes), table,
                     Rebuilt(kind, events, observations, c.windowMinutes), r)
  {
    var w := c.windowMinutes;
    var affected, polled := Filter(events, Within(r)), Filter(observations, Overlapping(r));
    var full := Rebuilt(kind, events, observations, w);
    if affected == [] && polled == [] {
      forall k: WindowKey | InRange(k.start, r) ensures k !in WindowKeys(kind, events, observations, w) {
        KeysInRange(kind, events, observations, r, k, w);
      }
      NothingInRange(table, full, r);
    } else {
      BuiltIsRebuilt(c, kind, events, observations, r);
      ReplaceRange(table, Built(kind, affected, polled, r, Filter(events, KnownBefore(r.start)), w), full, r);
    }
  }

  ghost predicate HasNewRows(s: Store, kind: DatasetKind, state: MaterializationState) {
    NewEvents(s, kind, state) != [] || NewObservations(s, kind, state) != []
  }

  lemma IncrementalEffect(c: Config, s: Store, kind: DatasetKind, state: MaterializationState, now: int)
    requires c.windowMinutes > 0 && HasNewRows(s, kind, state)
    ensures var after := Incremental(c, s, kind, state, now);
            && TableOf(after, kind) == Refreshed(TableOf(s, kind), kind, EventsOf(s, kind), ObservationsFor(s, kind),
                                                 RangeOf(c, s, kind, state, now), c.windowMinutes)
            && after.events == s.events && after.observations == s.observations
            && kind in after.states
            && after.states[kind].watermark == LatestTime(state.watermark, NewEvents(s, kind, state))
            && after.states[kind].cursor == LatestCursor(state.cursor, NewEvents(s, kind, state))
            && after.states[kind].observationCursor ==
               LatestObservation(state.observationCursor, NewObservations(s, kind, state))
  {
  }

  /** A call for one dataset kind leaves the other kind's windows and state alone. */
  lemma OtherKindUntouched(c: Config, s: Store, kind: DatasetKind, rebuild: bool, now: int, other: DatasetKind)
    requires c.windowMinutes > 0 && other != kind
    ensures var after := Materialized(c, s, kind, rebuild, now);
            && TableOf(after, other) == TableOf(s, other) && StateOf(after, other) == StateOf(s, other)
            && after.events == s.events && after.observations == s.observations
  {
    if kind in s.states && !rebuild {
      IncrementalOtherKind(c, s, kind, s.states[kind], now, other);
    } else {
      FullOtherKind(c, s, kind, rebuild, other);
    }
  }

  lemma FullOtherKind(c: Config, s: Store, kind: DatasetKind, rebuild: bool, other: DatasetKind)
    requires c.windowMinutes > 0 && other != kind
    ensures var after := Full(c, s, kind, rebuild);
            && TableOf(after, other) == TableOf(s, other) && StateOf(after, other) == StateOf(s, other)
            && after.events == s.events && after.observations == s.observations
  {
  }

  lemma IncrementalOtherKind(c: Config, s: Store, kind: DatasetKind, state: MaterializationState, now: int,
                             other: DatasetKind)
    requires c.windowMinutes > 0 && other != kind
    ensures var after := Incremental(c, s, kind, state, now);
            && TableOf(after, other) == TableOf(s, other) && StateOf(after, other) == StateOf(s, other)
            && after.events == s.events && after.observations == s.observations
  {
  }

  /** The rewritten range holds exactly the rebuild's windows, everything else is as before: for
      any new rows, also ones too late for the policy. */
  lemma IncrementalAgreesOnRange(c: Config, s: Store, kind: DatasetKind, now: int)
    requires WellFormed(c, s, kind) && kind in s.states
    requires HasNewRows(s, kind, s.states[kind])
    ensures var r := RangeOf(c, s, kind, s.states[kind], now);
            var after := Materialized(c, s, kind, false, now);
            Replaces(TableOf(after, kind), TableOf(s, kind), RebuiltOf(c, s, kind), r)
  {
    AffectedRangeAligned(c, s.states[kind].watermark, NewEvents(s, kind, s.states[kind]),
                         NewObservations(s, kind, s.states[kind]), now);
    EventsAccepted(s, kind);
    RefreshedAgrees(c, TableOf(s, kind), kind, EventsOf(s, kind), ObservationsFor(s, kind),
                    RangeOf(c, s, kind, s.states[kind], now));
    IncrementalEffect(c, s, kind, s.states[kind], now);
  }

  lemma BuiltFromScratch(c: Config, kind: DatasetKind, events: seq<Event>, observations: seq<Observation>)
    requires ValidConfig(c) && (events != [] || observations != [])
    ensures Built(kind, events, observations, FullRange(events, observations, c.windowMinutes), [], c.windowMinutes) ==
            Rebuilt(kind, events, observations, c.windowMinutes)
  {
    var w, r := c.windowMinutes, FullRange(events, observations, c.windowMinutes);
    forall k | k in WindowKeys(kind, events, observations, w)
      ensures InRange(k.start, r) && BaselineOf([], k.profile) == NothingSeen
    {
      FirstWindow(kind, events, observations, k, w);
    }
  }

  lemma FirstWindow(kind: DatasetKind, events: seq<Event>, observations: seq<Observation>, k: WindowKey, w: int)
    requires w > 0 && MINUTES_PER_DAY % w == 0 && k in WindowKeys(kind, events, observations, w)
    ensures TimesOf(events, observations) != {}
    ensures AlignWindowStart(Least(TimesOf(events, observations)), w) <= k.start
  {
    var t :| t in TimesOf(events, observations) && AlignWindowStart(t, w) == k.start;
    AlignMonotone(Least(TimesOf(events, observations)), t, w);
  }

  /** A rebuild, and a first call over an empty table, store exactly the reference table. */
  lemma FullStoresRebuilt(c: Config, s: Store, kind: DatasetKind, rebuild: bool)
    requires ValidConfig(c) && (rebuild || TableOf(s, kind) == map[])
    ensures TableOf(Full(c, s, kind, rebuild), kind) == RebuiltOf(c, s, kind)
  {
    var events, observations := EventsOf(s, kind), ObservationsFor(s, kind);
    if events != [] || observations != [] {
      BuiltFromScratch(c, kind, events, observations);
      EmptyUnion(RebuiltOf(c, s, kind), FullRange(events, observations, c.windowMinutes));
    }
  }

  lemma RefreshedBacked(c: Config, table: Table, kind: DatasetKind, events: seq<Event>, observations: seq<Observation>,
                        r: Range)
    requires ValidConfig(c) && table.Keys <= WindowKeys(kind, events, observations, c.windowMinutes)
    ensures Refreshed(table, kind, events, observations, r, c.windowMinutes).Keys
         <= WindowKeys(kind, events, observations, c.windowMinutes)
  {
    FilterMembers(events, Within(r));
    FilterMembers(observations, Overlapping(r));
    assert WindowKeys(kind, Filter(events, Within(r)), Filter(observations, Overlapping(r)), c.windowMinutes)
        <= WindowKeys(kind, events, observations, c.windowMinutes);
  }

  lemma FullBacked(c: Config, table: Table, kind: DatasetKind, events: seq<Event>, observations: seq<Observation>,
                   rebuild: bool)
    requires ValidConfig(c) && table.Keys <= WindowKeys(kind, events, observations, c.windowMinutes)
    ensures FullTable(table, kind, events, observations, rebuild, c.windowMinutes).Keys
         <= WindowKeys(kind, events, observations, c.windowMinutes)
  {
  }

  /** Every call keeps each stored window backed by an event or a poll. */
  lemma MaterializedStaysWellFormed(c: Config, s: Store, kind: DatasetKind, rebuild: bool, now: int)
    requires WellFormed(c, s, kind)
    ensures WellFormed(c, Materialized(c, s, kind, rebuild, now), kind)
  {
    var table, events, observations := TableOf(s, kind), EventsOf(s, kind), ObservationsFor(s, kind);
    if kind in s.states && !rebuild {
      var state := s.states[kind];
      if HasNewRows(s, kind, state) {
        RefreshedBacked(c, table, kind, events, observations, RangeOf(c, s, kind, state, now));
        IncrementalEffect(c, s, kind, state, now);
      }
    } else {
      FullBacked(c, table, kind, events, observations, rebuild);
    }
  }

  /** The in-memory builder and the materializer visit profiles in different orders but give every
      window the same features. */
  lemma BuildersAgree(table: seq<WindowFeatures>, events: seq<Event>, w: int)
    requires w > 0 && IsFeatureTable(table, events, w)
    ensures var full := Rebuilt(Synthetic, events, [], w);
            && TableKeys(table) == full.Keys
            && forall row :: row in table ==> row.features == full[row.key].features
  {
    forall row | row in table ensures row.features == Rebuilt(Synthetic, events, [], w)[row.key].features {
      assert row.key in TableKeys(table);
    }
  }
}
