/**
 What feature materialization keeps and computes: the stored tables, the window a full rebuild
 would store at each key, and the effect of one `materialize` call, incremental or full.
 */
module Materialization {
  import opened Sequences
  import opened Tables
  import opened Windows

  // --- Configuration and stored tables -----------------------------------------------------

  datatype Config = Config(windowMinutes: int, lateEventMinutes: int)

  ghost predicate ValidConfig(c: Config) {
    0 < c.windowMinutes && MINUTES_PER_DAY % c.windowMinutes == 0 && 0 <= c.lateEventMinutes
  }

  /** One poll of a collector; `interval` is the configured polling interval in microseconds. */
  datatype Observation = Observation(
    id: nat, collector: string, user: Option<string>, host: Option<string>,
    observedAt: int, successfulPoll: bool, interval: int)

  datatype Reason =
    | ChecksPassed | NoSyntheticTelemetry | NoObservations | NetworkBelow80Percent
    | CorePartial | CoreInsufficient | SystemMetricsDidNotPoll | ProcessDidNotPoll

  datatype Quality = Quality(
    status: QualityStatus, reasons: seq<Reason>, collectorCoverage: map<string, real>,
    heartbeatCoverage: real, gapSeconds: real)

  /** What the source-event hash is taken of. */
  datatype SourceEvent = SourceEvent(id: string, timestamp: int, kind: EventType)

  /** A stored window, apart from its key (the window id is an injective hash of the key). */
  datatype Window = Window(
    features: FeatureValues, eventCount: nat, eventTypes: multiset<EventType>, sources: multiset<string>,
    quality: Quality, sourceEvents: seq<SourceEvent>)

  datatype Cursor = Cursor(ingestedAt: int, eventId: string)
  datatype ObservationCursor = ObservationCursor(observedAt: int, observationId: nat)

  datatype MaterializationState = MaterializationState(
    watermark: Option<int>, cursor: Option<Cursor>, observationCursor: Option<ObservationCursor>,
    lateWithin: nat, lateOutside: nat)

  datatype LateKey = LateKey(kind: DatasetKind, eventId: string)
  datatype LateRecord = LateRecord(timestamp: int, ingestedAt: int, boundary: int, withinPolicy: bool)

  type Table = map<WindowKey, Window>

  datatype Store = Store(
    events: seq<Event>, observations: seq<Observation>, windows: map<DatasetKind, Table>,
    states: map<DatasetKind, MaterializationState>, late: map<LateKey, LateRecord>)

  const EmptyStore := Store([], [], map[], map[], map[])

  function TableOf(s: Store, kind: DatasetKind): Table {
    if kind in s.windows then s.windows[kind] else map[]
  }

  function StateOf(s: Store, kind: DatasetKind): Option<MaterializationState> {
    if kind in s.states then Some(s.states[kind]) else None
  }

  // --- Reading the tables ------------------------------------------------------------------

  function OfKind(kind: DatasetKind): Event -> bool { (e: Event) => e.synthetic == (kind == Synthetic) }

  /** The events of a kind, ordered by time and then id. */
  function EventsOf(s: Store, kind: DatasetKind): seq<Event> {
    SortBy(Filter(s.events, OfKind(kind)), EventLeq)
  }

  predicate ObservationLeq(a: Observation, b: Observation) {
    a.observedAt < b.observedAt || (a.observedAt == b.observedAt && a.id <= b.id)
  }

  /** Collector observations count for real data only. */
  function ObservationsFor(s: Store, kind: DatasetKind): seq<Observation> {
    if kind == Real then SortBy(s.observations, ObservationLeq) else []
  }

  predicate PastCursor(e: Event, c: Cursor) {
    c.ingestedAt < e.ingestedAt || (c.ingestedAt == e.ingestedAt && !TextLeq(e.id, c.eventId))
  }

  function AfterCursor(c: Option<Cursor>): Event -> bool {
    (e: Event) => c.None? || PastCursor(e, c.value)
  }

  function AfterObservation(c: Option<ObservationCursor>): Observation -> bool {
    (o: Observation) => c.None? || c.value.observedAt < o.observedAt
      || (c.value.observedAt == o.observedAt && c.value.observationId < o.id)
  }

  /** The half-open span of window starts that a call rewrites; no end means all later ones. */
  datatype Range = Range(start: int, end: Option<int>)

  predicate InRange(t: int, r: Range) {
    r.start <= t && (r.end.None? || t < r.end.value)
  }

  function Within(r: Range): Event -> bool { (e: Event) => InRange(e.timestamp, r) }

  /** Observations whose polling interval reaches into the range, by their configured interval. */
  function Overlapping(r: Range): Observation -> bool {
    (o: Observation) => (r.end.None? || o.observedAt < r.end.value) && o.observedAt + o.interval > r.start
  }

  // --- The window stored at a key ----------------------------------------------------------

  function EffectiveInterval(o: Observation): int {
    if o.interval > SECOND then o.interval else SECOND
  }

  function OverlapTime(o: Observation, start: int, end: int): int {
    Min(o.observedAt + EffectiveInterval(o), end) - Max(o.observedAt, start)
  }

  predicate Covers(o: Observation, p: Profile, start: int, end: int) {
    o.user == Some(p.user) && o.host == Some(p.host) && o.successfulPoll && OverlapTime(o, start, end) > 0
  }

  /** Time inside [start, end) that each collector's successful polls of a profile account for. */
  function CoveredTime(observations: seq<Observation>, p: Profile, start: int, end: int): map<string, int> {
    if observations == [] then map[]
    else
      AddCovered(CoveredTime(observations[..|observations| - 1], p, start, end),
                 observations[|observations| - 1], p, start, end)
  }

  function AddCovered(covered: map<string, int>, o: Observation, p: Profile, start: int, end: int): map<string, int> {
    if Covers(o, p, start, end) then
      covered[o.collector := (if o.collector in covered then covered[o.collector] else 0) + OverlapTime(o, start, end)]
    else covered
  }

  function Fraction(covered: int, total: int): real
    requires total > 0
  {
    if covered >= total then 1.0 else covered as real / total as real
  }

  function CollectorCoverage(observations: seq<Observation>, p: Profile, start: int, end: int): map<string, real> {
    if end - start <= 0 then map[]
    else
      var covered := CoveredTime(observations, p, start, end);
      map c | c in covered :: Fraction(covered[c], end - start)
  }

  predicate AtLeast(a: real, b: real) { a >= b }

  /** The best coverage of any collector, 0 when none polled. */
  function HeartbeatCoverage(coverage: map<string, real>): (r: real)
    ensures if coverage == map[] then r == 0.0 else IsLeast(r, coverage.Values, AtLeast)
  {
    if coverage == map[] then 0.0
    else
      var c :| c in coverage;
      assert coverage[c] in coverage.Values;
      LeastExists(coverage.Values, AtLeast);
      var r :| IsLeast(r, coverage.Values, AtLeast);
      r
  }

  const SYSTEM_COLLECTOR := "windows.system_metrics.psutil"
  const PROCESS_COLLECTOR := "windows.process.psutil"
  const NETWORK_COLLECTOR := "windows.network.psutil"

  function CoverageOf(coverage: map<string, real>, collector: string): real {
    if collector in coverage then coverage[collector] else 0.0
  }

  function QualityForWindow(kind: DatasetKind, group: seq<Event>, k: WindowKey, observations: seq<Observation>,
                            w: int): Quality {
    var end := k.start + Length(w);
    var total := (end - k.start) as real / SECOND as real;
    if kind == Synthetic then
      if group != [] then Quality(Good, [ChecksPassed], map[], 1.0, 0.0)
      else Quality(Insufficient, [NoSyntheticTelemetry], map[], 0.0, total)
    else
      QualityFromCoverage(CollectorCoverage(observations, k.profile, k.start, end), total)
  }

  /** The grade of a real window and the reason for it, as far as the polls go that there were. */
  function GradeByCoverage(coverage: map<string, real>): (QualityStatus, seq<Reason>) {
    var system, process := CoverageOf(coverage, SYSTEM_COLLECTOR), CoverageOf(coverage, PROCESS_COLLECTOR);
    if HeartbeatCoverage(coverage) <= 0.0 then (Insufficient, [NoObservations])
    else if system >= 0.8 && process >= 0.8 then
      if CoverageOf(coverage, NETWORK_COLLECTOR) < 0.8 then (Degraded, [NetworkBelow80Percent]) else (Good, [])
    else if system >= 0.5 && process >= 0.5 then (Degraded, [CorePartial])
    else (Insufficient, [CoreInsufficient])
  }

  /** The core collectors that did not poll at all. */
  function Unpolled(coverage: map<string, real>): seq<Reason> {
    (if SYSTEM_COLLECTOR in coverage then [] else [SystemMetricsDidNotPoll])
    + (if PROCESS_COLLECTOR in coverage then [] else [ProcessDidNotPoll])
  }

  function GapSeconds(heartbeat: real, totalSeconds: real): real {
    var gap := (1.0 - heartbeat) * totalSeconds;
    if gap < 0.0 then 0.0 else gap
  }

  function QualityFromCoverage(coverage: map<string, real>, totalSeconds: real): Quality {
    var reasons := GradeByCoverage(coverage).1 + Unpolled(coverage);
    var heartbeat := HeartbeatCoverage(coverage);
    Quality(GradeByCoverage(coverage).0, if reasons == [] then [ChecksPassed] else reasons, coverage, heartbeat,
            GapSeconds(heartbeat, totalSeconds))
  }

  /** What a grade means: good needs 80% of all three collectors, and less than half of a core one
      is insufficient. */
  ghost predicate Graded(status: QualityStatus, coverage: map<string, real>) {
    && (status == Good <==> CoreAtLeast(coverage, 0.8) && CoverageOf(coverage, NETWORK_COLLECTOR) >= 0.8)
    && (status == Insufficient <==> !CoreAtLeast(coverage, 0.5))
  }

  predicate CoreAtLeast(coverage: map<string, real>, share: real) {
    CoverageOf(coverage, SYSTEM_COLLECTOR) >= share && CoverageOf(coverage, PROCESS_COLLECTOR) >= share
  }

  lemma HeartbeatIsBest(coverage: map<string, real>, collector: string)
    ensures HeartbeatCoverage(coverage) > 0.0 || CoverageOf(coverage, collector) <= 0.0
    ensures collector in coverage ==> coverage[collector] <= HeartbeatCoverage(coverage)
  {
    if collector in coverage {
      assert coverage[collector] in coverage.Values;
      assert AtLeast(HeartbeatCoverage(coverage), coverage[collector]);
    }
  }

  lemma GradeExactly(coverage: map<string, real>, totalSeconds: real)
    ensures Graded(QualityFromCoverage(coverage, totalSeconds).status, coverage)
    ensures QualityFromCoverage(coverage, totalSeconds).reasons == [ChecksPassed]
            <==> QualityFromCoverage(coverage, totalSeconds).status == Good
  {
    HeartbeatIsBest(coverage, SYSTEM_COLLECTOR);
    assert HeartbeatCoverage(coverage) <= 0.0 ==> !CoreAtLeast(coverage, 0.5);
    var graded := GradeByCoverage(coverage);
    if graded.0 == Good {
      assert Unpolled(coverage) == [];
    } else {
      assert (graded.1 + Unpolled(coverage))[0] == graded.1[0] != ChecksPassed;
    }
  }

  /** Which reasons a grade comes with. */
  lemma ReasonsExactly(coverage: map<string, real>, totalSeconds: real)
    ensures var reasons := QualityFromCoverage(coverage, totalSeconds).reasons;
            && (NoObservations in reasons <==> HeartbeatCoverage(coverage) <= 0.0)
            && (NetworkBelow80Percent in reasons <==>
                  CoreAtLeast(coverage, 0.8) && CoverageOf(coverage, NETWORK_COLLECTOR) < 0.8)
            && (CorePartial in reasons <==> CoreAtLeast(coverage, 0.5) && !CoreAtLeast(coverage, 0.8))
            && (CoreInsufficient in reasons <==> HeartbeatCoverage(coverage) > 0.0 && !CoreAtLeast(coverage, 0.5))
            && (SystemMetricsDidNotPoll in reasons <==> "windows.system_metrics.psutil" !in coverage)
            && (ProcessDidNotPoll in reasons <==> "windows.process.psutil" !in coverage)
  {
    HeartbeatIsBest(coverage, SYSTEM_COLLECTOR);
    var graded, unpolled := GradeByCoverage(coverage), Unpolled(coverage);
    assert forall reason :: reason in graded.1 + unpolled <==> reason in graded.1 || reason in unpolled;
    if graded.1 == [] {
      assert unpolled == [];
    } else {
      assert (graded.1 + unpolled)[0] == graded.1[0];
    }
  }

  /** The gap is the share of the window that the best collector did not cover; there is none exactly when some
      collector covered all of it. */
  lemma GapExactly(coverage: map<string, real>, totalSeconds: real)
    requires totalSeconds > 0.0 && forall c :: c in coverage ==> 0.0 <= coverage[c] <= 1.0
    ensures 0.0 <= QualityFromCoverage(coverage, totalSeconds).gapSeconds <= totalSeconds
    ensures QualityFromCoverage(coverage, totalSeconds).gapSeconds == 0.0
            <==> exists c :: c in coverage && coverage[c] == 1.0
    ensures var quality := QualityFromCoverage(coverage, totalSeconds);
            && (forall c :: c in coverage ==> coverage[c] <= quality.heartbeatCoverage)
            && (quality.heartbeatCoverage in coverage.Values || (coverage == map[] && quality.heartbeatCoverage == 0.0))
            && quality.gapSeconds == totalSeconds - quality.heartbeatCoverage * totalSeconds
  {
    var best := HeartbeatCoverage(coverage);
    forall c | c in coverage ensures coverage[c] <= best { HeartbeatIsBest(coverage, c); }
    if coverage != map[] {
      assert best in coverage.Values;
      var c :| c in coverage && coverage[c] == best;
    }
    GapTime(best, totalSeconds);
  }

  lemma GapTime(heartbeat: real, totalSeconds: real)
    requires 0.0 <= heartbeat <= 1.0 && totalSeconds > 0.0
    ensures 0.0 <= GapSeconds(heartbeat, totalSeconds) <= totalSeconds
    ensures GapSeconds(heartbeat, totalSeconds) == 0.0 <==> heartbeat == 1.0
    ensures GapSeconds(heartbeat, totalSeconds) == totalSeconds - heartbeat * totalSeconds
  {
    var gap := (1.0 - heartbeat) * totalSeconds;
    assert gap == totalSeconds - heartbeat * totalSeconds;
    assert 0.0 <= heartbeat * totalSeconds <= totalSeconds;
    assert heartbeat < 1.0 ==> gap > 0.0;
  }

  function Grade(status: QualityStatus): nat {
    match status
    case Good => 2
    case Degraded => 1
    case Insufficient => 0
  }

  lemma MoreCoverageNeverWorsens(a: map<string, real>, b: map<string, real>, totalSeconds: real)
    requires forall c :: CoverageOf(a, c) <= CoverageOf(b, c)
    ensures Grade(QualityFromCoverage(a, totalSeconds).status) <= Grade(QualityFromCoverage(b, totalSeconds).status)
  {
    GradeExactly(a, totalSeconds);
    GradeExactly(b, totalSeconds);
  }

  function TypesOf(group: seq<Event>): multiset<EventType> {
    if group == [] then multiset{} else TypesOf(group[..|group| - 1]) + multiset{TypeOf(group[|group| - 1])}
  }

  function SourcesOf(group: seq<Event>): multiset<string> {
    if group == [] then multiset{} else SourcesOf(group[..|group| - 1]) + multiset{group[|group| - 1].source}
  }

  predicate IdLeq(a: Event, b: Event) { TextLeq(a.id, b.id) }

  function SourceEvents(group: seq<Event>): seq<SourceEvent> {
    var sorted := SortBy(group, IdLeq);
    seq(|sorted|, i requires 0 <= i < |sorted| => SourceEvent(sorted[i].id, sorted[i].timestamp, TypeOf(sorted[i])))
  }

  function MakeWindow(kind: DatasetKind, k: WindowKey, group: seq<Event>, seen: Novelty,
                      observations: seq<Observation>, w: int): Window
    requires w > 0
  {
    Window(FeatureValuesForGroup(group, k.start, w, seen), |group|, TypesOf(group), SourcesOf(group),
           QualityForWindow(kind, group, k, observations, w), SourceEvents(group))
  }

  /** The window of a table of events and observations, given what was seen before the table. */
  function WindowAt(kind: DatasetKind, events: seq<Event>, observations: seq<Observation>, k: WindowKey, w: int,
                    baseline: Novelty): Window
    requires w > 0
  {
    MakeWindow(kind, k, Filter(events, InWindow(k, w)),
               baseline.Union(NoveltyOf(Filter(events, EarlierThan(k, w)))), observations, w)
  }

  predicate Identified(o: Observation) {
    o.user.Some? && o.user.value != "" && o.host.Some? && o.host.value != ""
  }

  function ObservationKey(o: Observation, w: int): WindowKey
    requires w > 0 && Identified(o)
  {
    WindowKey(Profile(o.user.value, o.host.value), AlignWindowStart(o.observedAt, w))
  }

  function ObservationKeys(observations: seq<Observation>, w: int): set<WindowKey>
    requires w > 0
  {
    set o <- observations | Identified(o) :: ObservationKey(o, w)
  }

  /** The windows that exist: those with an event and, for real data, those with a poll. */
  function WindowKeys(kind: DatasetKind, events: seq<Event>, observations: seq<Observation>, w: int): set<WindowKey>
    requires w > 0
  {
    EventKeys(events, w) + if kind == Real then ObservationKeys(observations, w) else {}
  }

  /** The reference definition: the table a full rebuild stores. */
  function Rebuilt(kind: DatasetKind, events: seq<Event>, observations: seq<Observation>, w: int): Table
    requires w > 0
  {
    map k | k in WindowKeys(kind, events, observations, w) :: WindowAt(kind, events, observations, k, w, NothingSeen)
  }

  // --- One materialize call ----------------------------------------------------------------

  /** Events before a time whose names the novelty query returns. */
  function KnownBefore(before: int): Event -> bool {
    (e: Event) => e.timestamp < before && (e.payload.Network? || (e.payload.Process? && e.payload.name != ""))
  }

  function BaselineOf(known: seq<Event>, p: Profile): Novelty { NoveltyOf(Filter(known, OfProfile(p))) }

  /** The window stored at each key of a range. */
  function WindowFor(kind: DatasetKind, events: seq<Event>, observations: seq<Observation>, known: seq<Event>, w: int)
    : WindowKey -> Window
    requires w > 0
  {
    (k: WindowKey) => WindowAt(kind, events, observations, k, w, BaselineOf(known, k.profile))
  }

  /** The windows of a range among some keys. */
  function Keep(window: WindowKey -> Window, keys: set<WindowKey>, r: Range): Table {
    map k | k in keys && InRange(k.start, r) :: window(k)
  }

  /** The windows of a range, built from the events and observations of the range alone. */
  function Built(kind: DatasetKind, events: seq<Event>, observations: seq<Observation>, r: Range,
                 known: seq<Event>, w: int): Table
    requires w > 0
  {
    Keep(WindowFor(kind, events, observations, known, w), WindowKeys(kind, events, observations, w), r)
  }

  function Outside(table: Table, r: Range): Table {
    map k | k in table && !InRange(k.start, r) :: table[k]
  }

  function PolicyBoundary(c: Config, watermark: Option<int>): Option<int> {
    if watermark.None? then None else Some(watermark.value - c.lateEventMinutes * MINUTE)
  }

  predicate OutOfPolicy(e: Event, boundary: Option<int>) { boundary.Some? && e.timestamp < boundary.value }

  predicate LateWithinPolicy(e: Event, boundary: Option<int>, watermark: Option<int>) {
    !OutOfPolicy(e, boundary) && watermark.Some? && e.timestamp < watermark.value
  }

  function OutsidePolicy(boundary: Option<int>): Event -> bool { (e: Event) => OutOfPolicy(e, boundary) }

  function InsidePolicyLate(boundary: Option<int>, watermark: Option<int>): Event -> bool {
    (e: Event) => LateWithinPolicy(e, boundary, watermark)
  }

  /** Window starts that new rows touch, out-of-policy events not counted. */
  function AffectedStarts(events: seq<Event>, observations: seq<Observation>, boundary: Option<int>, w: int): set<int>
    requires w > 0
  {
    (set e <- events | !OutOfPolicy(e, boundary) :: AlignWindowStart(e.timestamp, w))
    + (set o <- observations :: AlignWindowStart(o.observedAt, w))
  }

  predicate IntGeq(a: int, b: int) { a >= b }

  function Least(s: set<int>): (r: int)
    requires s != {}
    ensures IsLeast(r, s, IntLeq)
  {
    LeastExists(s, IntLeq);
    var r :| IsLeast(r, s, IntLeq);
    r
  }

  function Greatest(s: set<int>): (r: int)
    requires s != {}
    ensures IsLeast(r, s, IntGeq)
  {
    LeastExists(s, IntGeq);
    var r :| IsLeast(r, s, IntGeq);
    r
  }

  /** The range an incremental call rewrites: bounded by the new rows, unless one is late. */
  function AffectedRange(c: Config, watermark: Option<int>, events: seq<Event>, observations: seq<Observation>,
                         now: int): Range
    requires c.windowMinutes > 0
  {
    var boundary := PolicyBoundary(c, watermark);
    var starts := AffectedStarts(events, observations, boundary, c.windowMinutes);
    if starts == {} then
      var start := AlignWindowStart(now, c.windowMinutes);
      Range(start, Some(start))
    else
      Range(Least(starts),
            if exists e :: e in events && LateWithinPolicy(e, boundary, watermark) then None
            else Some(Greatest(starts) + Length(c.windowMinutes)))
  }

  /** Late events are written down once per event id. */
  function RecordLate(late: map<LateKey, LateRecord>, kind: DatasetKind, events: seq<Event>, boundary: Option<int>,
                      watermark: Option<int>): map<LateKey, LateRecord> {
    if events == [] then late
    else
      RecordOne(RecordLate(late, kind, events[..|events| - 1], boundary, watermark), kind,
                events[|events| - 1], boundary, watermark)
  }

  function RecordOne(late: map<LateKey, LateRecord>, kind: DatasetKind, e: Event, boundary: Option<int>,
                     watermark: Option<int>): map<LateKey, LateRecord> {
    var key := LateKey(kind, e.id);
    if boundary.None? || key in late then late
    else if OutOfPolicy(e, boundary) then late[key := LateRecord(e.timestamp, e.ingestedAt, boundary.value, false)]
    else if LateWithinPolicy(e, boundary, watermark) then
      late[key := LateRecord(e.timestamp, e.ingestedAt, boundary.value, true)]
    else late
  }

  function CursorOf(e: Event): Cursor { Cursor(e.ingestedAt, e.id) }

  function LatestCursor(previous: Option<Cursor>, events: seq<Event>): Option<Cursor>
    decreases |events|
  {
    if events == [] then previous
    else
      var e, latest := events[|events| - 1], LatestCursor(None, events[..|events| - 1]);
      if latest.None? || PastCursor(e, latest.value) then Some(CursorOf(e)) else latest
  }

  function LatestObservation(previous: Option<ObservationCursor>, observations: seq<Observation>)
    : Option<ObservationCursor>
    decreases |observations|
  {
    if observations == [] then previous
    else
      var o, latest := observations[|observations| - 1], LatestObservation(None, observations[..|observations| - 1]);
      if AfterObservation(latest)(o) then Some(ObservationCursor(o.observedAt, o.id)) else latest
  }

  /** The latest event time so far. */
  function LatestTime(previous: Option<int>, events: seq<Event>): Option<int> {
    if events == [] then previous
    else
      var t, latest := events[|events| - 1].timestamp, LatestTime(previous, events[..|events| - 1]);
      if latest.None? || latest.value < t then Some(t) else latest
  }

  function NextState(previous: Option<MaterializationState>, events: seq<Event>, observations: seq<Observation>,
                     lateWithin: nat, lateOutside: nat): MaterializationState {
    var p := if previous.Some? then previous.value else MaterializationState(None, None, None, 0, 0);
    MaterializationState(LatestTime(p.watermark, events), LatestCursor(p.cursor, events),
                         LatestObservation(p.observationCursor, observations), lateWithin, lateOutside)
  }

  function NewEvents(s: Store, kind: DatasetKind, state: MaterializationState): seq<Event> {
    Filter(EventsOf(s, kind), AfterCursor(state.cursor))
  }

  function NewObservations(s: Store, kind: DatasetKind, state: MaterializationState): seq<Observation> {
    Filter(ObservationsFor(s, kind), AfterObservation(state.observationCursor))
  }

  function RangeOf(c: Config, s: Store, kind: DatasetKind, state: MaterializationState, now: int): Range
    requires c.windowMinutes > 0
  {
    AffectedRange(c, state.watermark, NewEvents(s, kind, state), NewObservations(s, kind, state), now)
  }

  function WithTable(s: Store, kind: DatasetKind, table: Table, state: MaterializationState): Store {
    s.(windows := s.windows[kind := table], states := s.states[kind := state])
  }

  /** A table after the windows of a range were built anew. */
  function Refreshed(table: Table, kind: DatasetKind, events: seq<Event>, observations: seq<Observation>, r: Range,
                     w: int): Table
    requires w > 0
  {
    var affected, polled := Filter(events, Within(r)), Filter(observations, Overlapping(r));
    if affected == [] && polled == [] then table
    else Outside(table, r) + Built(kind, affected, polled, r, Filter(events, KnownBefore(r.start)), w)
  }

  function Incremental(c: Config, s: Store, kind: DatasetKind, state: MaterializationState, now: int): Store
    requires c.windowMinutes > 0
  {
    var events, observations := NewEvents(s, kind, state), NewObservations(s, kind, state);
    if events == [] && observations == [] then s
    else
      var boundary := PolicyBoundary(c, state.watermark);
      var r := AffectedRange(c, state.watermark, events, observations, now);
      var table := Refreshed(TableOf(s, kind), kind, EventsOf(s, kind), ObservationsFor(s, kind), r, c.windowMinutes);
      var state' := NextState(Some(state), events, observations,
                              |Filter(events, InsidePolicyLate(boundary, state.watermark))|,
                              |Filter(events, OutsidePolicy(boundary))|);
      WithTable(s, kind, table, state').(late := RecordLate(s.late, kind, events, boundary, state.watermark))
  }

  function TimesOf(events: seq<Event>, observations: seq<Observation>): set<int> {
    (set e <- events :: e.timestamp) + (set o <- observations :: o.observedAt)
  }

  function FullRange(events: seq<Event>, observations: seq<Observation>, w: int): Range
    requires w > 0 && (events != [] || observations != [])
  {
    TimesNonempty(events, observations);
    Range(AlignWindowStart(Least(TimesOf(events, observations)), w), None)
  }

  /** A table after every window was built anew; only a rebuild drops what was stored before. */
  function FullTable(table: Table, kind: DatasetKind, events: seq<Event>, observations: seq<Observation>,
                     rebuild: bool, w: int): Table
    requires w > 0
  {
    if events == [] && observations == [] then
      if rebuild then map[] else table
    else
      var r := FullRange(events, observations, w);
      (if rebuild then map[] else Outside(table, r)) + Built(kind, events, observations, r, [], w)
  }

  function Full(c: Config, s: Store, kind: DatasetKind, rebuild: bool): Store
    requires c.windowMinutes > 0
  {
    var events, observations := EventsOf(s, kind), ObservationsFor(s, kind);
    WithTable(s, kind, FullTable(TableOf(s, kind), kind, events, observations, rebuild, c.windowMinutes),
              NextState(StateOf(s, kind), events, observations, 0, 0))
  }

  lemma TimesNonempty(events: seq<Event>, observations: seq<Observation>)
    requires events != [] || observations != []
    ensures TimesOf(events, observations) != {}
  {
    if events != [] {
      assert events[0].timestamp in TimesOf(events, observations);
    } else {
      assert observations[0].observedAt in TimesOf(events, observations);
    }
  }

  /** The effect of `materialize`: incremental when the kind was materialized before. */
  function Materialized(c: Config, s: Store, kind: DatasetKind, rebuild: bool, now: int): Store
    requires c.windowMinutes > 0
  {
    if kind in s.states && !rebuild then Incremental(c, s, kind, s.states[kind], now)
    else Full(c, s, kind, rebuild)
  }
}
