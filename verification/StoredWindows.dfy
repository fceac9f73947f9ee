/**
 What a stored window says about the rows it was built from: its key, its events, its features and
 its coverage, on the fields of the event and poll tables.
 */
module StoredWindows {
  import opened Sequences
  import opened Tables
  import opened Windows
  import opened Materialization
  import opened RangeAgreement

  // --- Which rows a window stands for ------------------------------------------------------

  /** A row of the kind and profile, stamped inside the window. */
  function Belongs(kind: DatasetKind, k: WindowKey, w: int): Event -> bool {
    (e: Event) => e.synthetic == (kind == Synthetic) && e.user == k.profile.user && e.host == k.profile.host
                  && k.start <= e.timestamp < k.start + w * MINUTE
  }

  /** A row of the kind and profile, stamped before the window. */
  function CameBefore(kind: DatasetKind, k: WindowKey): Event -> bool {
    (e: Event) => e.synthetic == (kind == Synthetic) && e.user == k.profile.user && e.host == k.profile.host
                  && e.timestamp < k.start
  }

  /** A poll of the profile made inside the window; rows without a profile back none. */
  predicate PolledIn(o: Observation, k: WindowKey, w: int) {
    && o.user == Some(k.profile.user) && o.host == Some(k.profile.host) && k.profile.user != "" && k.profile.host != ""
    && k.start <= o.observedAt < k.start + w * MINUTE
  }

  lemma WindowOnFields(t: int, start: int, w: int)
    requires w > 0 && MINUTES_PER_DAY % w == 0 && Aligned(start, w)
    ensures AlignWindowStart(t, w) == start <==> start <= t < start + w * MINUTE
    ensures AlignWindowStart(t, w) < start <==> t < start
  {
    AlignContains(t, w);
    AlignCut(t, start, w);
    AlignCut(t, start + Length(w), w);
    if start <= t < start + Length(w) {
      AlignedGap(start, AlignWindowStart(t, w), w);
    }
  }

  ghost predicate GridStart(start: int, w: int)
    requires w > 0
  {
    start % (w * MINUTE) == 0
  }

  /** The events of a window, in order of time and id. */
  function RowsOf(s: Store, kind: DatasetKind, k: WindowKey, w: int): seq<Event> {
    SortBy(Filter(s.events, Belongs(kind, k, w)), EventLeq)
  }

  function RowsBefore(s: Store, kind: DatasetKind, k: WindowKey): seq<Event> {
    SortBy(Filter(s.events, CameBefore(kind, k)), EventLeq)
  }

  lemma RowsSelected(s: Store, kind: DatasetKind, k: WindowKey, w: int)
    requires w > 0 && MINUTES_PER_DAY % w == 0 && GridStart(k.start, w)
    ensures Filter(EventsOf(s, kind), InWindow(k, w)) == RowsOf(s, kind, k, w)
    ensures Filter(EventsOf(s, kind), EarlierThan(k, w)) == RowsBefore(s, kind, k)
  {
    var mine := Filter(s.events, OfKind(kind));
    EventOrder();
    FilterSortBy(mine, EventLeq, InWindow(k, w));
    FilterSortBy(mine, EventLeq, EarlierThan(k, w));
    forall e: Event
      ensures Belongs(kind, k, w)(e) <==> OfKind(kind)(e) && InWindow(k, w)(e)
      ensures CameBefore(kind, k)(e) <==> OfKind(kind)(e) && EarlierThan(k, w)(e)
    {
      WindowOnFields(e.timestamp, k.start, w);
    }
    FilterBoth(s.events, OfKind(kind), InWindow(k, w), Belongs(kind, k, w));
    FilterBoth(s.events, OfKind(kind), EarlierThan(k, w), CameBefore(kind, k));
  }

  /** A rebuild stores a window exactly where the grid has one with an event of the kind in it or, for real
      data, a poll. */
  lemma StoredExactly(c: Config, s: Store, kind: DatasetKind, k: WindowKey)
    requires ValidConfig(c)
    ensures k in RebuiltOf(c, s, kind) <==>
            && GridStart(k.start, c.windowMinutes)
            && (|| (exists e :: e in s.events && Belongs(kind, k, c.windowMinutes)(e))
                || (kind == Real && exists o :: o in s.observations && PolledIn(o, k, c.windowMinutes)))
  {
    var w := c.windowMinutes;
    KeysAligned(kind, EventsOf(s, kind), ObservationsFor(s, kind), c);
    if GridStart(k.start, w) {
      forall t ensures AlignWindowStart(t, w) == k.start <==> k.start <= t < k.start + w * MINUTE {
        WindowOnFields(t, k.start, w);
      }
      EventKeyOnFields(s, kind, k, w);
      PollKeyOnFields(s.observations, k, w);
    }
  }

  lemma EventKeyOnFields(s: Store, kind: DatasetKind, k: WindowKey, w: int)
    requires w > 0 && forall t :: AlignWindowStart(t, w) == k.start <==> k.start <= t < k.start + w * MINUTE
    ensures k in EventKeys(EventsOf(s, kind), w) <==> exists e :: e in s.events && Belongs(kind, k, w)(e)
  {
    FilterMembers(s.events, OfKind(kind));
    SortByPermutes(Filter(s.events, OfKind(kind)), EventLeq);
    if k in EventKeys(EventsOf(s, kind), w) {
      var e :| e in EventsOf(s, kind) && KeyOf(e, w) == k;
      assert e in s.events && Belongs(kind, k, w)(e);
    }
    if e :| e in s.events && Belongs(kind, k, w)(e) {
      assert e in EventsOf(s, kind) && KeyOf(e, w) == k;
    }
  }

  lemma PollKeyOnFields(polls: seq<Observation>, k: WindowKey, w: int)
    requires w > 0 && forall t :: AlignWindowStart(t, w) == k.start <==> k.start <= t < k.start + w * MINUTE
    ensures k in ObservationKeys(SortBy(polls, ObservationLeq), w) <==> exists o :: o in polls && PolledIn(o, k, w)
  {
    SortByPermutes(polls, ObservationLeq);
    if k in ObservationKeys(SortBy(polls, ObservationLeq), w) {
      var o :| o in SortBy(polls, ObservationLeq) && Identified(o) && ObservationKey(o, w) == k;
      assert o in polls && PolledIn(o, k, w);
    }
    if o :| o in polls && PolledIn(o, k, w) {
      assert o in SortBy(polls, ObservationLeq) && Identified(o) && ObservationKey(o, w) == k;
    }
  }

  // --- What it says about its events -------------------------------------------------------

  function HasType(kind: EventType): Event -> bool {
    (e: Event) =>
      match kind
      case ProcessEvent => e.payload.Process?
      case NetworkEvent => e.payload.Network?
      case SystemMetricsEvent => e.payload.SystemMetrics?
      case AuthenticationEvent => e.payload.Authentication?
  }

  function FromSource(source: string): Event -> bool { (e: Event) => e.source == source }

  lemma {:induction false} TypesCounted(group: seq<Event>, kind: EventType)
    ensures TypesOf(group)[kind] == |Filter(group, HasType(kind))|
  {
    if group != [] {
      TypesCounted(group[..|group| - 1], kind);
    }
  }

  lemma {:induction false} SourcesCounted(group: seq<Event>, source: string)
    ensures SourcesOf(group)[source] == |Filter(group, FromSource(source))|
  {
    if group != [] {
      SourcesCounted(group[..|group| - 1], source);
    }
  }

  /** The hashed rows of a window are its events' ids and times, in order of id. */
  ghost predicate ListsEvents(rows: seq<SourceEvent>, group: seq<Event>) {
    && |rows| == |group|
    && (forall i, j :: 0 <= i < j < |rows| ==> TextLeq(rows[i].id, rows[j].id))
    && (forall e :: e in group ==> exists row :: row in rows && Lists(row, e))
    && (forall row :: row in rows ==> exists e :: e in group && Lists(row, e))
  }

  lemma IdOrder()
    ensures TotalOrder(IdLeq)
  {
    forall a, b ensures IdLeq(a, b) || IdLeq(b, a) { TextLeqTotal(a.id, b.id); }
    forall a, b, c | IdLeq(a, b) && IdLeq(b, c) ensures IdLeq(a, c) { TextLeqTransitive(a.id, b.id, c.id); }
  }

  ghost predicate Lists(row: SourceEvent, e: Event) {
    row.id == e.id && row.timestamp == e.timestamp && HasType(row.kind)(e)
  }

  lemma RowListed(group: seq<Event>, i: nat)
    requires i < |group|
    ensures |SourceEvents(group)| == |SortBy(group, IdLeq)| == |group|
    ensures Lists(SourceEvents(group)[i], SortBy(group, IdLeq)[i])
  {
    SortByPermutes(group, IdLeq);
  }

  lemma EventsListed(group: seq<Event>)
    ensures ListsEvents(SourceEvents(group), group)
  {
    var sorted, rows := SortBy(group, IdLeq), SourceEvents(group);
    IdOrder();
    SortBySorted(group, IdLeq);
    SortByPermutes(group, IdLeq);
    forall i: nat | i < |group| ensures Lists(rows[i], sorted[i]) { RowListed(group, i); }
    forall i, j | 0 <= i < j < |rows| ensures TextLeq(rows[i].id, rows[j].id) {
      assert IdLeq(sorted[i], sorted[j]);
      assert Lists(rows[i], sorted[i]) && Lists(rows[j], sorted[j]);
    }
    ListedBoth(rows, sorted, group);
  }

  lemma ListedBoth(rows: seq<SourceEvent>, sorted: seq<Event>, group: seq<Event>)
    requires |rows| == |sorted| && (forall e :: e in sorted <==> e in group)
    requires forall i :: 0 <= i < |rows| ==> Lists(rows[i], sorted[i])
    ensures forall e :: e in group ==> exists row :: row in rows && Lists(row, e)
    ensures forall row :: row in rows ==> exists e :: e in group && Lists(row, e)
  {
    forall e | e in group ensures exists row :: row in rows && Lists(row, e) {
      var i :| 0 <= i < |sorted| && sorted[i] == e;
      assert rows[i] in rows && Lists(rows[i], e);
    }
    forall row | row in rows ensures exists e :: e in group && Lists(row, e) {
      var i :| 0 <= i < |rows| && rows[i] == row;
      assert sorted[i] in group && Lists(row, sorted[i]);
    }
  }

  /** The window that a rebuild stores describes the events of its kind, profile and time, and counts as new
      what no earlier event of the profile did. */
  lemma WindowDescribed(c: Config, s: Store, kind: DatasetKind, k: WindowKey)
    requires ValidConfig(c) && k in RebuiltOf(c, s, kind)
    ensures var window, group := RebuiltOf(c, s, kind)[k], RowsOf(s, kind, k, c.windowMinutes);
            && Describes(window.features, group, k.start, c.windowMinutes)
            && DescribesNew(window.features, group, RowsBefore(s, kind, k))
            && window.eventCount == |group| && ListsEvents(window.sourceEvents, group)
            && (forall kind :: window.eventTypes[kind] == |Filter(group, HasType(kind))|)
            && (forall source :: window.sources[source] == |Filter(group, FromSource(source))|)
  {
    var window, group := RebuiltOf(c, s, kind)[k], RowsOf(s, kind, k, c.windowMinutes);
    StoredExactly(c, s, kind, k);
    RowsSelected(s, kind, k, c.windowMinutes);
    FeaturesDescribed(EventsOf(s, kind), k, c.windowMinutes);
    EventsListed(group);
    forall kind ensures window.eventTypes[kind] == |Filter(group, HasType(kind))| { TypesCounted(group, kind); }
    forall source ensures window.sources[source] == |Filter(group, FromSource(source))| { SourcesCounted(group, source); }
  }

  // --- What it says about its polls --------------------------------------------------------

  /** The part of [start, end) that a successful poll of the collector accounts for: its interval, which
      counts as a second at least. */
  function Contribution(o: Observation, p: Profile, start: int, end: int, collector: string): (t: int)
    ensures t >= 0
  {
    var interval := if o.interval < SECOND then SECOND else o.interval;
    var from := if o.observedAt < start then start else o.observedAt;
    var until := if o.observedAt + interval < end then o.observedAt + interval else end;
    if && o.collector == collector && o.successfulPoll && o.user == Some(p.user) && o.host == Some(p.host)
       && from < until
    then until - from
    else 0
  }

  /** The time inside [start, end) that one collector's polls of a profile account for. */
  function Spent(observations: seq<Observation>, p: Profile, start: int, end: int, collector: string): (t: int)
    ensures t >= 0
  {
    if observations == [] then 0
    else
      var o := observations[|observations| - 1];
      Spent(observations[..|observations| - 1], p, start, end, collector)
      + Contribution(o, p, start, end, collector)
  }

  lemma {:induction false} SpentIsCovered(observations: seq<Observation>, p: Profile, start: int, end: int, collector: string)
    ensures collector in CoveredTime(observations, p, start, end) <==> Spent(observations, p, start, end, collector) > 0
    ensures collector in CoveredTime(observations, p, start, end) ==>
              CoveredTime(observations, p, start, end)[collector] == Spent(observations, p, start, end, collector)
  {
    if observations != [] {
      SpentIsCovered(observations[..|observations| - 1], p, start, end, collector);
    }
  }

  lemma {:induction false} SpentByPoll(observations: seq<Observation>, p: Profile, start: int, end: int, collector: string)
    ensures Spent(observations, p, start, end, collector) > 0
            <==> exists o :: o in observations && Covers(o, p, start, end) && o.collector == collector
  {
    if observations != [] {
      var init, last := observations[..|observations| - 1], observations[|observations| - 1];
      SpentByPoll(init, p, start, end, collector);
      assert observations == init + [last];
    }
  }

  lemma SpentAppend(observations: seq<Observation>, o: Observation, p: Profile, start: int, end: int, collector: string)
    ensures Spent(observations + [o], p, start, end, collector) == Spent(observations, p, start, end, collector)
            + Contribution(o, p, start, end, collector)
  {
    assert (observations + [o])[..|observations|] == observations;
  }

  function CoverageAt(observations: seq<Observation>, k: WindowKey, w: int): map<string, real> {
    CollectorCoverage(observations, k.profile, k.start, k.start + Length(w))
  }

  function SpentAt(observations: seq<Observation>, k: WindowKey, w: int, collector: string): int {
    Spent(observations, k.profile, k.start, k.start + Length(w), collector)
  }

  lemma CoverageIsShare(observations: seq<Observation>, k: WindowKey, w: int, collector: string)
    requires w > 0
    ensures collector in CoverageAt(observations, k, w) <==> SpentAt(observations, k, w, collector) > 0
    ensures collector in CoverageAt(observations, k, w) ==>
              CoverageAt(observations, k, w)[collector] == Fraction(SpentAt(observations, k, w, collector), Length(w))
  {
    SpentIsCovered(observations, k.profile, k.start, k.start + Length(w), collector);
  }

  lemma {:induction false} SpentInsert(observations: seq<Observation>, o: Observation, p: Profile, start: int, end: int,
                                       collector: string)
    ensures Spent(Insert(observations, o, ObservationLeq), p, start, end, collector)
         == Spent(observations, p, start, end, collector)
            + Contribution(o, p, start, end, collector)
  {
    if observations == [] || ObservationLeq(observations[|observations| - 1], o) {
      SpentAppend(observations, o, p, start, end, collector);
    } else {
      var init, last := observations[..|observations| - 1], observations[|observations| - 1];
      SpentInsert(init, o, p, start, end, collector);
      SpentAppend(Insert(init, o, ObservationLeq), last, p, start, end, collector);
    }
  }

  lemma CoverageByTime(observations: seq<Observation>, k: WindowKey, w: int, collector: string)
    requires w > 0
    ensures CoverageOf(CoverageAt(observations, k, w), collector)
         == Fraction(SpentAt(observations, k, w, collector), Length(w))
  {
    CoverageIsShare(observations, k, w, collector);
  }

  lemma ShareMonotone(a: int, b: int, total: int)
    requires 0 <= a <= b && 0 < total
    ensures 0.0 <= Fraction(a, total) <= Fraction(b, total) <= 1.0
  {
    var x, y := a as real / total as real, b as real / total as real;
    assert x * total as real == a as real && y * total as real == b as real;
  }

  lemma {:induction false} SpentSorted(observations: seq<Observation>, p: Profile, start: int, end: int, collector: string)
    ensures Spent(SortBy(observations, ObservationLeq), p, start, end, collector)
         == Spent(observations, p, start, end, collector)
  {
    if observations != [] {
      var init, last := observations[..|observations| - 1], observations[|observations| - 1];
      SpentSorted(init, p, start, end, collector);
      SpentInsert(SortBy(init, ObservationLeq), last, p, start, end, collector);
    }
  }

  /** A share of the window: all of it, or so much of its length. */
  predicate IsShare(share: real, time: int, length: int) {
    share * length as real == (if time < length then time else length) as real
  }

  lemma FractionIsShare(time: int, length: int)
    requires length > 0
    ensures IsShare(Fraction(time, length), time, length)
  {
    if time < length {
      Quotient(time as real, length as real);
    }
  }

  /** What real quality says about the polls of one collector: which share of the window they account for. */
  ghost predicate SharesTime(quality: Quality, polls: seq<Observation>, k: WindowKey, w: int, collector: string) {
    var time := Spent(polls, k.profile, k.start, k.start + w * MINUTE, collector);
    && (collector in quality.collectorCoverage <==> time > 0)
    && (collector in quality.collectorCoverage ==> IsShare(quality.collectorCoverage[collector], time, w * MINUTE))
  }

  lemma CoverageDescribed(s: Store, group: seq<Event>, k: WindowKey, w: int, collector: string)
    requires w > 0
    ensures SharesTime(QualityForWindow(Real, group, k, ObservationsFor(s, Real), w), s.observations, k, w, collector)
  {
    var polls := ObservationsFor(s, Real);
    CoverageIsShare(polls, k, w, collector);
    SpentSorted(s.observations, k.profile, k.start, k.start + Length(w), collector);
    FractionIsShare(SpentAt(polls, k, w, collector), Length(w));
    assert QualityForWindow(Real, group, k, polls, w).collectorCoverage == CoverageAt(polls, k, w);
  }

  lemma QualityGraded(kind: DatasetKind, group: seq<Event>, k: WindowKey, polls: seq<Observation>, w: int)
    ensures var quality := QualityForWindow(kind, group, k, polls, w);
            if kind == Real then Graded(quality.status, quality.collectorCoverage)
            else quality.status == if group != [] then Good else Insufficient
  {
    if kind == Real {
      GradeExactly(CollectorCoverage(polls, k.profile, k.start, k.start + Length(w)), Length(w) as real / SECOND as real);
    }
  }

  /** The window that a rebuild of real data stores says of each collector which share of it the collector's
      successful polls account for, and is graded by these shares; one of synthetic data is good exactly
      with an event. */
  lemma QualityDescribed(c: Config, s: Store, kind: DatasetKind, k: WindowKey, collector: string)
    requires ValidConfig(c) && k in RebuiltOf(c, s, kind)
    ensures var quality, w := RebuiltOf(c, s, kind)[k].quality, c.windowMinutes;
            if kind == Real
            then Graded(quality.status, quality.collectorCoverage) && SharesTime(quality, s.observations, k, w, collector)
            else quality.status == if RowsOf(s, kind, k, w) != [] then Good else Insufficient
  {
    var w := c.windowMinutes;
    StoredExactly(c, s, kind, k);
    RowsSelected(s, kind, k, w);
    QualityGraded(kind, RowsOf(s, kind, k, w), k, ObservationsFor(s, kind), w);
    if kind == Real {
      CoverageDescribed(s, RowsOf(s, kind, k, w), k, w, collector);
    }
  }
}
