/**
 Tumbling feature windows: alignment, grouping by profile and window, feature values, and
 the novelty ("never seen before") counts of a full build.

 Times are microseconds since the epoch. Text keeps its code point order.
 */
module Windows {
  import opened Sequences
  import opened Tables

  const MINUTES_PER_DAY: int := 1440
  const DAY: int := MINUTES_PER_DAY * MINUTE

  // --- Alignment ---------------------------------------------------------------------------

  /** The start of the window of a time, counted in whole minutes from midnight UTC. */
  function AlignWindowStart(timestamp: int, windowMinutes: int): int
    requires windowMinutes > 0
  {
    var totalMinutes := (timestamp % DAY) / MINUTE;
    timestamp - timestamp % DAY + (totalMinutes - totalMinutes % windowMinutes) * MINUTE
  }

  function Length(windowMinutes: int): int { windowMinutes * MINUTE }

  lemma MultipleGap(a: int, b: int, n: int)
    requires n > 0 && a < b
    ensures a * n + n <= b * n
  {
    assert (a + 1) * n <= b * n;
  }

  lemma QuotientUnique(t: int, n: int, q: int, r: int)
    requires n > 0 && t == q * n + r && 0 <= r < n
    ensures t / n == q && t % n == r
  {
    var q', r' := t / n, t % n;
    assert t == q' * n + r' && 0 <= r' < n;
    if q < q' {
      MultipleGap(q, q', n);
    } else if q' < q {
      MultipleGap(q', q, n);
    }
  }

  lemma QuotientMonotone(t: int, u: int, n: int)
    requires n > 0 && t <= u
    ensures t / n <= u / n && (t / n) * n <= (u / n) * n
  {
    var a, b := t / n, u / n;
    assert t == a * n + t % n && u == b * n + u % n;
    if b < a {
      MultipleGap(b, a, n);
    } else if a < b {
      MultipleGap(a, b, n);
    }
  }

  /** When the window length divides the day, alignment rounds down to a multiple of it. */
  lemma AlignIsFloor(t: int, w: int)
    requires w > 0 && MINUTES_PER_DAY % w == 0
    ensures AlignWindowStart(t, w) == t - t % Length(w)
  {
    var c := MINUTES_PER_DAY / w;
    var d, r := t / DAY, t % DAY;
    var total, e := r / MINUTE, r % MINUTE;
    var q, m := total / w, total % w;
    var n := Length(w);
    assert 0 <= m * MINUTE + e < n;
    assert d * DAY == d * c * n by {
      assert DAY == c * n;
    }
    assert q * w * MINUTE == q * n;
    assert t == (d * c + q) * n + (m * MINUTE + e);
    QuotientUnique(t, n, d * c + q, m * MINUTE + e);
  }

  /** A time lies in the window it is aligned to. */
  lemma AlignContains(t: int, w: int)
    requires w > 0
    ensures AlignWindowStart(t, w) <= t < AlignWindowStart(t, w) + Length(w)
  {
    var r := t % DAY;
    var total, e := r / MINUTE, r % MINUTE;
    assert r == total * MINUTE + e;
    var m := total % w;
    assert (total - m) * MINUTE == total * MINUTE - m * MINUTE;
    assert m * MINUTE + MINUTE <= w * MINUTE;
  }

  ghost predicate Aligned(s: int, w: int)
    requires w > 0
  {
    s % Length(w) == 0
  }

  lemma AlignedMultiple(s: int, w: int)
    requires w > 0 && Aligned(s, w)
    ensures s == (s / Length(w)) * Length(w)
  {
  }

  lemma MultipleAligned(q: int, w: int)
    requires w > 0
    ensures Aligned(q * Length(w), w)
  {
    QuotientUnique(q * Length(w), Length(w), q, 0);
  }

  /** An aligned time cuts a time and its window on the same side. */
  lemma AlignCut(t: int, s: int, w: int)
    requires w > 0 && MINUTES_PER_DAY % w == 0 && Aligned(s, w)
    ensures t < s <==> AlignWindowStart(t, w) < s
    ensures Aligned(AlignWindowStart(t, w), w)
    ensures Aligned(s + Length(w), w)
  {
    var n := Length(w);
    var q, c := t / n, s / n;
    AlignIsFloor(t, w);
    AlignedMultiple(s, w);
    assert AlignWindowStart(t, w) == q * n <= t < q * n + n;
    MultipleAligned(q, w);
    MultipleAligned(c + 1, w);
    assert (c + 1) * n == s + n;
    if q < c {
      MultipleGap(q, c, n);
    } else if c < q {
      MultipleGap(c, q, n);
    }
  }

  lemma FloorIsMultiple(t: int, n: int)
    requires n > 0
    ensures t - t % n == (t / n) * n
  {
  }

  lemma AlignMonotone(t: int, u: int, w: int)
    requires w > 0 && MINUTES_PER_DAY % w == 0 && t <= u
    ensures AlignWindowStart(t, w) <= AlignWindowStart(u, w)
  {
    AlignIsFloor(t, w);
    AlignIsFloor(u, w);
    FloorIsMultiple(t, Length(w));
    FloorIsMultiple(u, Length(w));
    QuotientMonotone(t, u, Length(w));
  }

  /** Windows tile the time line: two windows that share a time are the same window. */
  ghost predicate WindowsTile(w: int)
    requires w > 0
  {
    forall t, u :: AlignWindowStart(u, w) <= t < AlignWindowStart(u, w) + Length(w)
                   ==> AlignWindowStart(t, w) == AlignWindowStart(u, w)
  }

  lemma AlignedGap(a: int, b: int, w: int)
    requires w > 0 && Aligned(a, w) && Aligned(b, w) && a <= b < a + Length(w)
    ensures a == b
  {
    var n := Length(w);
    AlignedMultiple(a, w);
    AlignedMultiple(b, w);
    if a / n < b / n {
      MultipleGap(a / n, b / n, n);
    } else if b / n < a / n {
      MultipleGap(b / n, a / n, n);
    }
  }

  lemma SameTile(t: int, u: int, w: int)
    requires w > 0 && MINUTES_PER_DAY % w == 0
    requires AlignWindowStart(u, w) <= t < AlignWindowStart(u, w) + Length(w)
    ensures AlignWindowStart(t, w) == AlignWindowStart(u, w)
  {
    MultipleAligned(0, w);
    AlignCut(u, 0, w);
    AlignCut(t, AlignWindowStart(u, w), w);
    AlignContains(t, w);
    AlignedGap(AlignWindowStart(u, w), AlignWindowStart(t, w), w);
  }

  lemma LastRemainder(w: int)
    requires w > 0 && MINUTES_PER_DAY % w != 0
    ensures (MINUTES_PER_DAY - 1) % w + 1 < w
  {
    var q, m := (MINUTES_PER_DAY - 1) / w, (MINUTES_PER_DAY - 1) % w;
    assert MINUTES_PER_DAY - 1 == q * w + m && 0 <= m < w;
    if m + 1 == w {
      assert MINUTES_PER_DAY == (q + 1) * w;
      QuotientUnique(MINUTES_PER_DAY, w, q + 1, 0);
    }
  }

  /** The last window of a day runs into the first one of the next day. */
  lemma LastWindowOverruns(w: int)
    requires w > 0 && MINUTES_PER_DAY % w != 0
    ensures AlignWindowStart(DAY - MINUTE, w) < DAY < AlignWindowStart(DAY - MINUTE, w) + Length(w)
    ensures AlignWindowStart(DAY, w) == DAY
  {
    LastRemainder(w);
    var m := (MINUTES_PER_DAY - 1) % w;
    assert (DAY - MINUTE) % DAY == DAY - MINUTE && (DAY - MINUTE) / MINUTE == MINUTES_PER_DAY - 1;
    assert DAY % DAY == 0;
    var total := 0;
    assert total % w == 0 by { QuotientUnique(0, w, 0, 0); }
  }

  /** Exactly the window lengths that divide the day tile it. */
  lemma TilingLengths(w: int)
    requires w > 0
    ensures WindowsTile(w) <==> MINUTES_PER_DAY % w == 0
  {
    if MINUTES_PER_DAY % w == 0 {
      forall t, u | AlignWindowStart(u, w) <= t < AlignWindowStart(u, w) + Length(w)
        ensures AlignWindowStart(t, w) == AlignWindowStart(u, w)
      {
        SameTile(t, u, w);
      }
    } else {
      LastWindowOverruns(w);
    }
  }

  // --- Events, profiles and groups ---------------------------------------------------------

  datatype Payload =
    | Process(name: string)
    | Network(address: string, port: nat)
    | SystemMetrics(cpu: real, ram: real)
    | Authentication(success: bool)

  datatype EventType = ProcessEvent | NetworkEvent | SystemMetricsEvent | AuthenticationEvent

  /** A stored telemetry row. */
  datatype Event = Event(
    id: string, timestamp: int, user: string, host: string, source: string,
    payload: Payload, synthetic: bool, ingestedAt: int)

  datatype Profile = Profile(user: string, host: string)
  datatype WindowKey = WindowKey(profile: Profile, start: int)
  datatype Remote = Remote(address: string, port: nat)

  function ProfileOf(e: Event): Profile { Profile(e.user, e.host) }

  function KeyOf(e: Event, w: int): WindowKey
    requires w > 0
  {
    WindowKey(ProfileOf(e), AlignWindowStart(e.timestamp, w))
  }

  function TypeOf(e: Event): EventType {
    match e.payload
    case Process(_) => ProcessEvent
    case Network(_, _) => NetworkEvent
    case SystemMetrics(_, _) => SystemMetricsEvent
    case Authentication(_) => AuthenticationEvent
  }

  predicate EventLeq(a: Event, b: Event) {
    a.timestamp < b.timestamp || (a.timestamp == b.timestamp && TextLeq(a.id, b.id))
  }

  lemma EventOrder()
    ensures TotalOrder(EventLeq)
  {
    forall a, b ensures EventLeq(a, b) || EventLeq(b, a) { TextLeqTotal(a.id, b.id); }
    forall a, b, c | EventLeq(a, b) && EventLeq(b, c) ensures EventLeq(a, c) {
      if a.timestamp == b.timestamp == c.timestamp { TextLeqTransitive(a.id, b.id, c.id); }
    }
  }

  function InWindow(k: WindowKey, w: int): Event -> bool
    requires w > 0
  {
    (e: Event) => KeyOf(e, w) == k
  }

  function OfProfile(p: Profile): Event -> bool { (e: Event) => ProfileOf(e) == p }

  function EarlierThan(k: WindowKey, w: int): Event -> bool
    requires w > 0
  {
    (e: Event) => ProfileOf(e) == k.profile && AlignWindowStart(e.timestamp, w) < k.start
  }

  function Visited(p: Profile, done: set<WindowKey>, w: int): Event -> bool
    requires w > 0
  {
    (e: Event) => ProfileOf(e) == p && KeyOf(e, w) in done
  }

  function EventKeys(events: seq<Event>, w: int): set<WindowKey>
    requires w > 0
  {
    set e <- events :: KeyOf(e, w)
  }

  // --- Feature values ----------------------------------------------------------------------

  datatype FeatureValues = FeatureValues(
    processCount: nat, newProcessCount: nat, networkConnectionCount: nat, newRemoteCount: nat,
    avgCpuPercent: real, maxCpuPercent: real, avgRamPercent: real, maxRamPercent: real,
    authSuccessCount: nat, authFailureCount: nat, hourOfDay: nat, activityDensity: real)

  /** The process names and remotes of a group of events, or those seen so far. */
  datatype Novelty = Novelty(processes: set<string>, remotes: set<Remote>) {
    function Union(other: Novelty): Novelty {
      Novelty(processes + other.processes, remotes + other.remotes)
    }
  }

  const NothingSeen := Novelty({}, {})

  function NoveltyOf(group: seq<Event>): Novelty {
    Novelty(
      set e <- group | e.payload.Process? :: e.payload.name,
      set e <- group | e.payload.Network? :: Remote(e.payload.address, e.payload.port))
  }

  /** The CPU (or RAM) readings of a group, in order. */
  function Readings(group: seq<Event>, ram: bool): seq<real> {
    if group == [] then []
    else
      var payload := group[|group| - 1].payload;
      Readings(group[..|group| - 1], ram) +
      if payload.SystemMetrics? then [if ram then payload.ram else payload.cpu] else []
  }

  function Sum(values: seq<real>): real {
    if values == [] then 0.0 else Sum(values[..|values| - 1]) + values[|values| - 1]
  }

  function Mean(values: seq<real>): real {
    if values == [] then 0.0 else Sum(values) / |values| as real
  }

  function Maximum(values: seq<real>): real {
    if values == [] then 0.0
    else if |values| == 1 then values[0]
    else
      var m, last := Maximum(values[..|values| - 1]), values[|values| - 1];
      if last > m then last else m
  }

  function Authentications(group: seq<Event>, success: bool): nat {
    if group == [] then 0
    else
      var payload := group[|group| - 1].payload;
      Authentications(group[..|group| - 1], success) +
      if payload.Authentication? && payload.success == success then 1 else 0
  }

  function FeatureValuesForGroup(group: seq<Event>, start: int, w: int, seen: Novelty): FeatureValues
    requires w > 0
  {
    var here := NoveltyOf(group);
    FeatureValues(
      |here.processes|, |here.processes - seen.processes|,
      |here.remotes|, |here.remotes - seen.remotes|,
      Mean(Readings(group, false)), Maximum(Readings(group, false)),
      Mean(Readings(group, true)), Maximum(Readings(group, true)),
      Authentications(group, true), Authentications(group, false),
      (start % DAY) / (60 * MINUTE),
      |group| as real / w as real)
  }

  /** The features of one window of a table of events, given what was seen before the table. */
  function FeaturesAt(events: seq<Event>, k: WindowKey, w: int, baseline: Novelty): FeatureValues
    requires w > 0
  {
    FeatureValuesForGroup(
      Filter(events, InWindow(k, w)), k.start, w,
      baseline.Union(NoveltyOf(Filter(events, EarlierThan(k, w)))))
  }

  // --- What the features say about the events ----------------------------------------------

  function IsLogin(success: bool): Event -> bool { (e: Event) => e.payload == Authentication(success) }

  function IsReading(): Event -> bool { (e: Event) => e.payload.SystemMetrics? }

  function Reading(e: Event, ram: bool): real
    requires e.payload.SystemMetrics?
  {
    if ram then e.payload.ram else e.payload.cpu
  }

  function Total(group: seq<Event>, ram: bool): real {
    if group == [] then 0.0
    else
      var last := group[|group| - 1];
      Total(group[..|group| - 1], ram) + if last.payload.SystemMetrics? then Reading(last, ram) else 0.0
  }

  /** The greatest reading of a group, 0 without one. */
  ghost predicate IsPeak(peak: real, group: seq<Event>, ram: bool) {
    if exists e :: e in group && e.payload.SystemMetrics?
    then HasReading(group, ram, peak) && forall e :: e in group && e.payload.SystemMetrics? ==> Reading(e, ram) <= peak
    else peak == 0.0
  }

  /** The mean reading of a group, 0 without one. */
  ghost predicate IsMean(mean: real, group: seq<Event>, ram: bool) {
    MeanOver(mean, |Filter(group, IsReading())|, Total(group, ram))
  }

  predicate MeanOver(mean: real, count: nat, total: real) {
    mean * count as real == total && (count == 0 ==> mean == 0.0)
  }

  ghost predicate DescribesCounts(f: FeatureValues, group: seq<Event>) {
    && f.processCount == |set e | e in group && e.payload.Process? :: e.payload.name|
    && f.networkConnectionCount == |set e | e in group && e.payload.Network? :: e.payload|
    && f.authSuccessCount == |Filter(group, IsLogin(true))| && f.authFailureCount == |Filter(group, IsLogin(false))|
  }

  ghost predicate DescribesReadings(f: FeatureValues, group: seq<Event>) {
    && IsMean(f.avgCpuPercent, group, false) && IsPeak(f.maxCpuPercent, group, false)
    && IsMean(f.avgRamPercent, group, true) && IsPeak(f.maxRamPercent, group, true)
  }

  /** What the features of a window say about its own events. */
  ghost predicate Describes(f: FeatureValues, group: seq<Event>, start: int, w: int) {
    && DescribesCounts(f, group) && DescribesReadings(f, group)
    && f.hourOfDay * HOUR <= start % DAY < (f.hourOfDay + 1) * HOUR
    && f.activityDensity * w as real == |group| as real
  }

  ghost predicate HasPayload(events: seq<Event>, payload: Payload) { exists e :: e in events && e.payload == payload }

  /** The new processes and remotes are those of no earlier event. */
  ghost predicate DescribesNew(f: FeatureValues, group: seq<Event>, earlier: seq<Event>) {
    && f.newProcessCount == |set e | e in group && e.payload.Process? && !HasPayload(earlier, e.payload) :: e.payload.name|
    && f.newRemoteCount == |set e | e in group && e.payload.Network? && !HasPayload(earlier, e.payload) :: e.payload|
  }

  lemma {:induction false} LoginsCounted(group: seq<Event>, success: bool)
    ensures Authentications(group, success) == |Filter(group, IsLogin(success))|
  {
    if group != [] {
      LoginsCounted(group[..|group| - 1], success);
    }
  }

  lemma {:induction false} ReadingsTotal(group: seq<Event>, ram: bool)
    ensures |Readings(group, ram)| == |Filter(group, IsReading())| && Sum(Readings(group, ram)) == Total(group, ram)
  {
    if group != [] {
      var init, last := group[..|group| - 1], group[|group| - 1];
      ReadingsTotal(init, ram);
      if last.payload.SystemMetrics? {
        var r := Readings(init, ram);
        assert (r + [Reading(last, ram)])[..|r|] == r;
      } else {
        assert Readings(group, ram) == Readings(init, ram);
      }
    }
  }

  ghost predicate HasReading(group: seq<Event>, ram: bool, x: real) {
    exists e :: e in group && e.payload.SystemMetrics? && Reading(e, ram) == x
  }

  lemma ReadingAppend(init: seq<Event>, last: Event, ram: bool, x: real)
    ensures HasReading(init + [last], ram, x) <==>
            HasReading(init, ram, x) || (last.payload.SystemMetrics? && Reading(last, ram) == x)
  {
    var group := init + [last];
    if HasReading(init, ram, x) {
      var e :| e in init && e.payload.SystemMetrics? && Reading(e, ram) == x;
      assert e in group;
    }
    if HasReading(group, ram, x) {
      var e :| e in group && e.payload.SystemMetrics? && Reading(e, ram) == x;
      assert e in init ==> HasReading(init, ram, x);
    }
    assert group[|init|] == last;
  }

  lemma {:induction false} ReadingsMembers(group: seq<Event>, ram: bool, x: real)
    ensures x in Readings(group, ram) <==> HasReading(group, ram, x)
  {
    if group != [] {
      var init, last := group[..|group| - 1], group[|group| - 1];
      ReadingsMembers(init, ram, x);
      ReadingAppend(init, last, ram, x);
      assert group == init + [last];
    }
  }

  lemma {:induction false} MaximumIsGreatest(values: seq<real>)
    requires values != []
    ensures Maximum(values) in values && forall x :: x in values ==> x <= Maximum(values)
  {
    var init, last := values[..|values| - 1], values[|values| - 1];
    assert values == init + [last];
    if |values| > 1 {
      MaximumIsGreatest(init);
    }
  }

  lemma Quotient(a: real, b: real)
    requires b > 0.0
    ensures a / b * b == a
  {
  }

  lemma MeanTimesCount(values: seq<real>)
    ensures MeanOver(Mean(values), |values|, Sum(values))
  {
    if values != [] {
      Quotient(Sum(values), |values| as real);
    }
  }

  lemma MeanDescribed(group: seq<Event>, ram: bool)
    ensures IsMean(Mean(Readings(group, ram)), group, ram)
  {
    ReadingsTotal(group, ram);
    MeanTimesCount(Readings(group, ram));
  }

  lemma PeakDescribed(group: seq<Event>, ram: bool)
    ensures IsPeak(Maximum(Readings(group, ram)), group, ram)
  {
    var values := Readings(group, ram);
    forall x ensures x in values <==> HasReading(group, ram, x) { ReadingsMembers(group, ram, x); }
    if values != [] {
      MaximumIsGreatest(values);
      assert HasReading(group, ram, values[0]) by { assert values[0] in values; }
    }
    forall e | e in group && e.payload.SystemMetrics? ensures Reading(e, ram) in values {
      assert HasReading(group, ram, Reading(e, ram));
    }
  }

  lemma NamesCounted(group: seq<Event>)
    ensures |NoveltyOf(group).processes| == |set e | e in group && e.payload.Process? :: e.payload.name|
    ensures |NoveltyOf(group).remotes| == |set e | e in group && e.payload.Network? :: e.payload|
  {
    assert NoveltyOf(group).processes == set e | e in group && e.payload.Process? :: e.payload.name;
    RemotesAsPayloads(NoveltyOf(group).remotes, set e | e in group && e.payload.Network? :: e.payload);
  }

  /** Remotes are as many as the network payloads that name them. */
  lemma RemotesAsPayloads(remotes: set<Remote>, payloads: set<Payload>)
    requires forall p :: p in payloads ==> p.Network?
    requires forall address, port :: Remote(address, port) in remotes <==> Network(address, port) in payloads
    ensures |remotes| == |payloads|
  {
    assert forall p :: p in payloads ==> Remote(p.address, p.port) in remotes;
    if remotes != {} {
      var r :| r in remotes;
      assert Remote(r.address, r.port) == r;
      RemotesAsPayloads(remotes - {r}, payloads - {Network(r.address, r.port)});
    }
  }

  lemma CountsDescribed(group: seq<Event>, start: int, w: int, seen: Novelty)
    requires w > 0
    ensures DescribesCounts(FeatureValuesForGroup(group, start, w, seen), group)
  {
    NamesCounted(group);
    LoginsCounted(group, true);
    LoginsCounted(group, false);
  }

  lemma ReadingsDescribed(group: seq<Event>, start: int, w: int, seen: Novelty)
    requires w > 0
    ensures DescribesReadings(FeatureValuesForGroup(group, start, w, seen), group)
  {
    MeanDescribed(group, false);
    MeanDescribed(group, true);
    PeakDescribed(group, false);
    PeakDescribed(group, true);
  }

  lemma GroupDescribed(group: seq<Event>, start: int, w: int, seen: Novelty)
    requires w > 0
    ensures Describes(FeatureValuesForGroup(group, start, w, seen), group, start, w)
  {
    CountsDescribed(group, start, w, seen);
    ReadingsDescribed(group, start, w, seen);
    DensityDescribed(group, start, w, seen);
    HourDescribed(start);
  }

  lemma DensityDescribed(group: seq<Event>, start: int, w: int, seen: Novelty)
    requires w > 0
    ensures FeatureValuesForGroup(group, start, w, seen).activityDensity * w as real == |group| as real
  {
    Quotient(|group| as real, w as real);
  }

  lemma HourDescribed(start: int)
    ensures var hour := (start % DAY) / (60 * MINUTE); hour * HOUR <= start % DAY < (hour + 1) * HOUR
  {
  }

  lemma NewNamesDescribed(group: seq<Event>, earlier: seq<Event>, start: int, w: int)
    requires w > 0
    ensures DescribesNew(FeatureValuesForGroup(group, start, w, NothingSeen.Union(NoveltyOf(earlier))), group, earlier)
  {
    var here, seen := NoveltyOf(group), NothingSeen.Union(NoveltyOf(earlier));
    forall e | e in group && e.payload.Process? ensures e.payload.name in seen.processes <==> HasPayload(earlier, e.payload) { }
    forall e | e in group && e.payload.Network?
      ensures Remote(e.payload.address, e.payload.port) in seen.remotes <==> HasPayload(earlier, e.payload) { }
    assert here.processes - seen.processes ==
           set e | e in group && e.payload.Process? && !HasPayload(earlier, e.payload) :: e.payload.name;
    RemotesAsPayloads(here.remotes - seen.remotes,
                      set e | e in group && e.payload.Network? && !HasPayload(earlier, e.payload) :: e.payload);
  }

  /** A window's features, in terms of its own events and of what its profile did before. */
  lemma FeaturesDescribed(events: seq<Event>, k: WindowKey, w: int)
    requires w > 0
    ensures Describes(FeaturesAt(events, k, w, NothingSeen), Filter(events, InWindow(k, w)), k.start, w)
    ensures DescribesNew(FeaturesAt(events, k, w, NothingSeen), Filter(events, InWindow(k, w)),
                         Filter(events, EarlierThan(k, w)))
  {
    GroupDescribed(Filter(events, InWindow(k, w)), k.start, w, NothingSeen.Union(NoveltyOf(Filter(events, EarlierThan(k, w)))));
    NewNamesDescribed(Filter(events, InWindow(k, w)), Filter(events, EarlierThan(k, w)), k.start, w);
  }

  // --- Visiting windows one by one ---------------------------------------------------------

  function Lookup(seen: map<Profile, Novelty>, p: Profile): Novelty {
    if p in seen then seen[p] else NothingSeen
  }

  predicate IsLeast<T(!new, ==)>(x: T, s: set<T>, leq: (T, T) -> bool) {
    x in s && forall y :: y in s ==> leq(x, y)
  }

  lemma {:induction false} LeastExists<T(!new)>(s: set<T>, leq: (T, T) -> bool)
    requires TotalOrder(leq) && s != {}
    ensures exists x :: IsLeast(x, s, leq)
  {
    var x :| x in s;
    var rest := s - {x};
    if rest == {} {
      assert s == {x};
      assert IsLeast(x, s, leq);
    } else {
      LeastExists(rest, leq);
      var z :| IsLeast(z, rest, leq);
      LeastOfMore(z, x, rest, s, leq);
    }
  }

  lemma LeastOfMore<T(!new)>(z: T, x: T, rest: set<T>, s: set<T>, leq: (T, T) -> bool)
    requires TotalOrder(leq) && IsLeast(z, rest, leq) && s == rest + {x}
    ensures IsLeast(z, s, leq) || IsLeast(x, s, leq)
  {
    forall y | y in s ensures leq(z, x) ==> leq(z, y) { }
    forall y | y in s ensures leq(x, z) ==> leq(x, y) { }
  }

  predicate KeyLeq(a: WindowKey, b: WindowKey) {
    if a.profile.user != b.profile.user then TextLeq(a.profile.user, b.profile.user)
    else if a.profile.host != b.profile.host then TextLeq(a.profile.host, b.profile.host)
    else a.start <= b.start
  }

  lemma KeyOrder()
    ensures TotalOrder(KeyLeq)
  {
    forall a, b ensures KeyLeq(a, b) || KeyLeq(b, a) {
      TextLeqTotal(a.profile.user, b.profile.user);
      TextLeqTotal(a.profile.host, b.profile.host);
    }
    forall a: WindowKey, b: WindowKey, c: WindowKey | KeyLeq(a, b) && KeyLeq(b, c)
      ensures KeyLeq(a, c)
    {
      TextTransitive(a.profile.user, b.profile.user, c.profile.user);
      TextTransitive(a.profile.host, b.profile.host, c.profile.host);
    }
  }

  lemma TextTransitive(a: string, b: string, c: string)
    ensures TextLeq(a, b) && TextLeq(b, c) ==> TextLeq(a, c)
    ensures TextLeq(a, b) && TextLeq(b, a) ==> a == b
  {
    if TextLeq(a, b) && TextLeq(b, c) { TextLeqTransitive(a, b, c); }
    if TextLeq(a, b) && TextLeq(b, a) { TextLeqAntisymmetric(a, b); }
  }

  predicate StartLeq(a: WindowKey, b: WindowKey) { a.start <= b.start }

  /** Earlier windows of a profile come first. */
  ghost predicate InProfileOrder(done: set<WindowKey>, todo: set<WindowKey>) {
    forall a, b :: a in done && b in todo && a.profile == b.profile ==> a.start < b.start
  }

  /** When the windows of a profile are visited oldest first, the windows visited so far hold
      exactly the earlier events. */
  lemma VisitedIsEarlier(events: seq<Event>, done: set<WindowKey>, todo: set<WindowKey>, k: WindowKey, w: int)
    requires w > 0 && k in todo && EventKeys(events, w) <= done + todo && InProfileOrder(done, todo)
    requires forall j :: j in todo && j.profile == k.profile ==> k.start <= j.start
    ensures Filter(events, Visited(k.profile, done, w)) == Filter(events, EarlierThan(k, w))
  {
    FilterAgree(events, Visited(k.profile, done, w), EarlierThan(k, w));
  }

  /** Visiting one more window adds that window's names to its own profile only. */
  lemma VisitStep(events: seq<Event>, done: set<WindowKey>, k: WindowKey, p: Profile, w: int)
    requires w > 0
    ensures NoveltyOf(Filter(events, Visited(p, done + {k}, w))) ==
            if p == k.profile
            then NoveltyOf(Filter(events, Visited(p, done, w))).Union(NoveltyOf(Filter(events, InWindow(k, w))))
            else NoveltyOf(Filter(events, Visited(p, done, w)))
  {
    FilterMembers(events, Visited(p, done + {k}, w));
    FilterMembers(events, Visited(p, done, w));
    FilterMembers(events, InWindow(k, w));
    var all, before := Filter(events, Visited(p, done + {k}, w)), Filter(events, Visited(p, done, w));
    var here := Filter(events, InWindow(k, w));
    if p == k.profile {
      assert forall e :: e in all <==> e in before || e in here;
    } else {
      assert forall e :: e in all <==> e in before;
    }
  }

  lemma VisitNone(events: seq<Event>, p: Profile, w: int)
    requires w > 0
    ensures NoveltyOf(Filter(events, Visited(p, {}, w))) == NothingSeen
  {
    FilterNone(events, Visited(p, {}, w));
  }

  // --- Building a whole table --------------------------------------------------------------

  ghost predicate IsGrouping(grouped: map<WindowKey, seq<Event>>, events: seq<Event>, w: int)
    requires w > 0
  {
    && grouped.Keys == EventKeys(events, w)
    && forall k :: k in grouped ==> grouped[k] == Filter(events, InWindow(k, w))
  }

  function Append(grouped: map<WindowKey, seq<Event>>, k: WindowKey, e: Event): map<WindowKey, seq<Event>> {
    grouped[k := (if k in grouped then grouped[k] else []) + [e]]
  }

  lemma GroupStep(grouped: map<WindowKey, seq<Event>>, events: seq<Event>, e: Event, w: int)
    requires w > 0 && IsGrouping(grouped, events, w)
    ensures IsGrouping(Append(grouped, KeyOf(e, w), e), events + [e], w)
  {
    var k := KeyOf(e, w);
    var grouped' := Append(grouped, k, e);
    if k !in grouped {
      FilterNone(events, InWindow(k, w));
    }
    assert EventKeys(events + [e], w) == EventKeys(events, w) + {k};
    forall j | j in grouped' ensures grouped'[j] == Filter(events + [e], InWindow(j, w)) {
      FilterAppend(events, e, InWindow(j, w));
    }
  }

  /** In order of time, and of id at the same time. */
  ghost predicate InTimeOrder(group: seq<Event>) {
    forall i, j :: 0 <= i < j < |group| ==>
      group[i].timestamp < group[j].timestamp
      || (group[i].timestamp == group[j].timestamp && TextLeq(group[i].id, group[j].id))
  }

  lemma GroupInOrder(events: seq<Event>, k: WindowKey, w: int)
    requires w > 0
    ensures InTimeOrder(Filter(SortBy(events, EventLeq), InWindow(k, w)))
    ensures forall e :: e in Filter(SortBy(events, EventLeq), InWindow(k, w)) <==>
              e in events && Profile(e.user, e.host) == k.profile && AlignWindowStart(e.timestamp, w) == k.start
  {
    var sorted, group := SortBy(events, EventLeq), Filter(SortBy(events, EventLeq), InWindow(k, w));
    EventOrder();
    SortBySorted(events, EventLeq);
    FilterSorted(sorted, InWindow(k, w), EventLeq);
    SortByPermutes(events, EventLeq);
    FilterMembers(sorted, InWindow(k, w));
    assert forall i, j :: 0 <= i < j < |group| ==> EventLeq(group[i], group[j]);
  }

  /** Events in time order, dealt out to their profile and window. */
  method GroupEventsByProfileWindow(events: seq<Event>, w: int) returns (grouped: map<WindowKey, seq<Event>>)
    requires w > 0
    ensures IsGrouping(grouped, SortBy(events, EventLeq), w)
    ensures forall k :: k in grouped ==> InTimeOrder(grouped[k])
    ensures forall k :: k in grouped ==>
              forall e :: e in grouped[k] <==>
                e in events && Profile(e.user, e.host) == k.profile && AlignWindowStart(e.timestamp, w) == k.start
  {
    grouped := DealOut(SortBy(events, EventLeq), w);
    forall k | k in grouped
      ensures InTimeOrder(grouped[k])
      ensures forall e :: e in grouped[k] <==>
                e in events && Profile(e.user, e.host) == k.profile && AlignWindowStart(e.timestamp, w) == k.start
    {
      GroupInOrder(events, k, w);
    }
  }

  method DealOut(events: seq<Event>, w: int) returns (grouped: map<WindowKey, seq<Event>>)
    requires w > 0
    ensures IsGrouping(grouped, events, w)
  {
    grouped := map[];
    var i := 0;
    while i < |events|
      invariant 0 <= i <= |events|
      invariant IsGrouping(grouped, events[..i], w)
    {
      assert events[..i + 1] == events[..i] + [events[i]];
      GroupStep(grouped, events[..i], events[i], w);
      grouped := Append(grouped, KeyOf(events[i], w), events[i]);
      i := i + 1;
    }
    assert events[..i] == events;
  }

  datatype WindowFeatures = WindowFeatures(key: WindowKey, features: FeatureValues)

  /** A table with one row per window of the events, in key order, each with the features of its
      own events and of what its profile did in earlier windows. */
  ghost predicate IsFeatureTable(table: seq<WindowFeatures>, events: seq<Event>, w: int)
    requires w > 0
  {
    && InKeyOrder(table)
    && TableKeys(table) == EventKeys(events, w)
    && RowsAre(table, events, w)
  }

  ghost predicate InKeyOrder(table: seq<WindowFeatures>) {
    forall i, j :: 0 <= i < j < |table| ==> KeyLeq(table[i].key, table[j].key) && table[i].key != table[j].key
  }

  ghost predicate RowsAre(table: seq<WindowFeatures>, events: seq<Event>, w: int)
    requires w > 0
  {
    forall row :: row in table ==> row.features == FeaturesAt(events, row.key, w, NothingSeen)
  }

  ghost function TableKeys(table: seq<WindowFeatures>): set<WindowKey> {
    set row <- table :: row.key
  }

  /** The names seen so far are those of the windows visited so far. */
  ghost predicate SeenIs(seen: map<Profile, Novelty>, events: seq<Event>, done: set<WindowKey>, w: int)
    requires w > 0
  {
    forall p :: Lookup(seen, p) == NoveltyOf(Filter(events, Visited(p, done, w)))
  }

  function Remember(seen: map<Profile, Novelty>, p: Profile, group: seq<Event>): map<Profile, Novelty> {
    seen[p := Lookup(seen, p).Union(NoveltyOf(group))]
  }

  lemma SeenStep(seen: map<Profile, Novelty>, events: seq<Event>, done: set<WindowKey>, k: WindowKey, w: int)
    requires w > 0 && SeenIs(seen, events, done, w)
    ensures SeenIs(Remember(seen, k.profile, Filter(events, InWindow(k, w))), events, done + {k}, w)
  {
    var seen' := Remember(seen, k.profile, Filter(events, InWindow(k, w)));
    forall p ensures Lookup(seen', p) == NoveltyOf(Filter(events, Visited(p, done + {k}, w))) {
      VisitStep(events, done, k, p, w);
      assert Lookup(seen, p) == NoveltyOf(Filter(events, Visited(p, done, w)));
    }
  }

  /** The seen sets hold what the profile did in earlier windows when it is visited in order. */
  lemma SeenAtNext(seen: map<Profile, Novelty>, events: seq<Event>, done: set<WindowKey>, todo: set<WindowKey>,
                   k: WindowKey, w: int)
    requires w > 0 && SeenIs(seen, events, done, w)
    requires k in todo && EventKeys(events, w) <= done + todo && InProfileOrder(done, todo)
    requires forall j :: j in todo && j.profile == k.profile ==> k.start <= j.start
    ensures FeatureValuesForGroup(Filter(events, InWindow(k, w)), k.start, w, Lookup(seen, k.profile)) ==
            FeaturesAt(events, k, w, NothingSeen)
  {
    VisitedIsEarlier(events, done, todo, k, w);
    var earlier := Lookup(seen, k.profile);
    assert earlier == NoveltyOf(Filter(events, Visited(k.profile, done, w)));
    assert NothingSeen.Union(earlier) == earlier;
  }

  /** The rows built so far cover the windows visited, and every one left comes later. */
  ghost predicate PartialTable(table: seq<WindowFeatures>, done: set<WindowKey>, todo: set<WindowKey>) {
    && TableKeys(table) == done
    && done !! todo
    && InKeyOrder(table)
    && forall a, b :: a in done && b in todo ==> KeyLeq(a, b)
  }

  lemma PartialTableStep(table: seq<WindowFeatures>, done: set<WindowKey>, todo: set<WindowKey>, row: WindowFeatures)
    requires PartialTable(table, done, todo) && IsLeast(row.key, todo, KeyLeq)
    ensures InProfileOrder(done, todo)
    ensures PartialTable(table + [row], done + {row.key}, todo - {row.key})
  {
    assert forall i :: 0 <= i < |table| ==> table[i].key in done;
  }

  ghost predicate Building(table: seq<WindowFeatures>, seen: map<Profile, Novelty>, events: seq<Event>,
                           done: set<WindowKey>, todo: set<WindowKey>, w: int)
    requires w > 0
  {
    && done + todo == EventKeys(events, w)
    && PartialTable(table, done, todo)
    && SeenIs(seen, events, done, w)
    && RowsAre(table, events, w)
  }

  lemma RowsStep(table: seq<WindowFeatures>, row: WindowFeatures, events: seq<Event>, w: int)
    requires w > 0 && RowsAre(table, events, w)
    requires row.features == FeaturesAt(events, row.key, w, NothingSeen)
    ensures RowsAre(table + [row], events, w)
  {
  }

  lemma BuildingStep(table: seq<WindowFeatures>, seen: map<Profile, Novelty>, events: seq<Event>,
                     done: set<WindowKey>, todo: set<WindowKey>, row: WindowFeatures, w: int)
    requires w > 0 && Building(table, seen, events, done, todo, w) && IsLeast(row.key, todo, KeyLeq)
    requires row.features == FeatureValuesForGroup(Filter(events, InWindow(row.key, w)), row.key.start, w,
                                                   Lookup(seen, row.key.profile))
    ensures Building(table + [row], Remember(seen, row.key.profile, Filter(events, InWindow(row.key, w))), events,
                     done + {row.key}, todo - {row.key}, w)
  {
    BuildingRows(table, seen, events, done, todo, row, w);
    PartialTableStep(table, done, todo, row);
    SeenStep(seen, events, done, row.key, w);
    MoveOver(done, todo, row.key);
  }

  lemma MoveOver(done: set<WindowKey>, todo: set<WindowKey>, k: WindowKey)
    requires k in todo
    ensures (done + {k}) + (todo - {k}) == done + todo
  {
  }

  lemma BuildingRows(table: seq<WindowFeatures>, seen: map<Profile, Novelty>, events: seq<Event>,
                     done: set<WindowKey>, todo: set<WindowKey>, row: WindowFeatures, w: int)
    requires w > 0 && Building(table, seen, events, done, todo, w) && IsLeast(row.key, todo, KeyLeq)
    requires row.features == FeatureValuesForGroup(Filter(events, InWindow(row.key, w)), row.key.start, w,
                                                   Lookup(seen, row.key.profile))
    ensures RowsAre(table + [row], events, w)
  {
    PartialTableStep(table, done, todo, row);
    LeastInProfile(todo, row.key);
    SeenAtNext(seen, events, done, todo, row.key, w);
    RowsStep(table, row, events, w);
  }

  lemma LeastInProfile(todo: set<WindowKey>, k: WindowKey)
    requires IsLeast(k, todo, KeyLeq)
    ensures forall j :: j in todo && j.profile == k.profile ==> k.start <= j.start
  {
    forall j | j in todo && j.profile == k.profile ensures k.start <= j.start {
      assert KeyLeq(k, j);
    }
  }

  /** Each row describes the events of its window, and counts as new what its profile did not do before. */
  ghost predicate RowsDescribe(table: seq<WindowFeatures>, events: seq<Event>, w: int)
    requires w > 0
  {
    forall row :: row in table ==>
      && Describes(row.features, Filter(events, InWindow(row.key, w)), row.key.start, w)
      && DescribesNew(row.features, Filter(events, InWindow(row.key, w)), Filter(events, EarlierThan(row.key, w)))
  }

  lemma RowsDescribed(table: seq<WindowFeatures>, events: seq<Event>, w: int)
    requires w > 0 && RowsAre(table, events, w)
    ensures RowsDescribe(table, events, w)
  {
    forall row | row in table
      ensures Describes(row.features, Filter(events, InWindow(row.key, w)), row.key.start, w)
      ensures DescribesNew(row.features, Filter(events, InWindow(row.key, w)), Filter(events, EarlierThan(row.key, w)))
    {
      FeaturesDescribed(events, row.key, w);
    }
  }

  /** A window comes after another one: by user, then host, then start. */
  predicate ComesAfter(b: WindowKey, a: WindowKey) {
    if a.profile.user != b.profile.user then TextLeq(a.profile.user, b.profile.user)
    else if a.profile.host != b.profile.host then TextLeq(a.profile.host, b.profile.host)
    else a.start < b.start
  }

  lemma RowsInOrder(table: seq<WindowFeatures>)
    requires InKeyOrder(table)
    ensures forall i, j :: 0 <= i < j < |table| ==> ComesAfter(table[j].key, table[i].key)
  {
  }

  method BuildFeatureWindows(events: seq<Event>, w: int) returns (windows: seq<WindowFeatures>)
    requires w > 0
    ensures forall i, j :: 0 <= i < j < |windows| ==> ComesAfter(windows[j].key, windows[i].key)
    ensures IsFeatureTable(windows, SortBy(events, EventLeq), w)
    ensures RowsDescribe(windows, SortBy(events, EventLeq), w)
  {
    var grouped := GroupEventsByProfileWindow(events, w);
    ghost var sorted := SortBy(events, EventLeq);
    var todo, seen := grouped.Keys, map[];
    ghost var done: set<WindowKey> := {};
    windows := [];
    KeyOrder();
    assert SeenIs(seen, sorted, done, w) by {
      forall p: Profile { VisitNone(sorted, p, w); }
    }
    while todo != {}
      invariant todo <= grouped.Keys
      invariant Building(windows, seen, sorted, done, todo, w)
      decreases todo
    {
      LeastExists(todo, KeyLeq);
      var k :| IsLeast(k, todo, KeyLeq);
      var row := WindowFeatures(k, FeatureValuesForGroup(grouped[k], k.start, w, Lookup(seen, k.profile)));
      BuildingStep(windows, seen, sorted, done, todo, row, w);
      windows := windows + [row];
      seen := Remember(seen, k.profile, grouped[k]);
      done, todo := done + {k}, todo - {k};
    }
    RowsInOrder(windows);
    RowsDescribed(windows, sorted, w);
  }

  // --- Conservation of novelty -------------------------------------------------------------

  ghost function NewProcesses(table: seq<WindowFeatures>, p: Profile): nat {
    if table == [] then 0
    else
      var last := table[|table| - 1];
      NewProcesses(table[..|table| - 1], p) + if last.key.profile == p then last.features.newProcessCount else 0
  }

  ghost function NewRemotes(table: seq<WindowFeatures>, p: Profile): nat {
    if table == [] then 0
    else
      var last := table[|table| - 1];
      NewRemotes(table[..|table| - 1], p) + if last.key.profile == p then last.features.newRemoteCount else 0
  }

  /** What a profile did in some windows. */
  ghost function DoneIn(events: seq<Event>, p: Profile, done: set<WindowKey>, w: int): Novelty
    requires w > 0
  {
    NoveltyOf(Filter(events, Visited(p, done, w)))
  }

  ghost predicate AddsUp(table: seq<WindowFeatures>, p: Profile, seen: Novelty) {
    NewProcesses(table, p) == |seen.processes| && NewRemotes(table, p) == |seen.remotes|
  }

  lemma NoveltyOfTable(table: seq<WindowFeatures>, events: seq<Event>, p: Profile, w: int)
    requires w > 0 && IsFeatureTable(table, events, w)
    ensures AddsUp(table[..|table|], p, DoneIn(events, p, TableKeys(table[..|table|]), w))
  {
    NoRowsAddUp(table, events, p, w);
    for n := 0 to |table|
      invariant AddsUp(table[..n], p, DoneIn(events, p, TableKeys(table[..n]), w))
    {
      PrefixStep(table, events, p, w, n);
    }
  }

  lemma NoRowsAddUp(table: seq<WindowFeatures>, events: seq<Event>, p: Profile, w: int)
    requires w > 0
    ensures AddsUp(table[..0], p, DoneIn(events, p, TableKeys(table[..0]), w))
  {
    assert TableKeys(table[..0]) == {};
    VisitNone(events, p, w);
  }

  lemma PrefixStep(table: seq<WindowFeatures>, events: seq<Event>, p: Profile, w: int, n: nat)
    requires w > 0 && IsFeatureTable(table, events, w) && n < |table|
    requires AddsUp(table[..n], p, DoneIn(events, p, TableKeys(table[..n]), w))
    ensures AddsUp(table[..n + 1], p, DoneIn(events, p, TableKeys(table[..n + 1]), w))
  {
    NoveltyOfRow(table, events, p, w, n);
    RowAddsUp(table, p, n, DoneIn(events, p, TableKeys(table[..n]), w), DoneIn(events, p, TableKeys(table[..n + 1]), w));
  }

  lemma RowAddsUp(table: seq<WindowFeatures>, p: Profile, n: nat, before: Novelty, after: Novelty)
    requires n < |table| && AddsUp(table[..n], p, before) && GrowsBy(before, after, table[n], p)
    ensures AddsUp(table[..n + 1], p, after)
  {
    CountsOfPrefix(table, p, n);
  }

  /** A row of the profile adds its new names, another row none. */
  ghost predicate GrowsBy(before: Novelty, after: Novelty, row: WindowFeatures, p: Profile) {
    if row.key.profile == p then
      && |after.processes| == |before.processes| + row.features.newProcessCount
      && |after.remotes| == |before.remotes| + row.features.newRemoteCount
    else
      |after.processes| == |before.processes| && |after.remotes| == |before.remotes|
  }

  lemma CountsOfPrefix(table: seq<WindowFeatures>, p: Profile, n: nat)
    requires n < |table|
    ensures NewProcesses(table[..n + 1], p)
         == NewProcesses(table[..n], p) + if table[n].key.profile == p then table[n].features.newProcessCount else 0
    ensures NewRemotes(table[..n + 1], p)
         == NewRemotes(table[..n], p) + if table[n].key.profile == p then table[n].features.newRemoteCount else 0
  {
    assert table[..n + 1][..n] == table[..n];
  }

  /** What one more row adds to the names of a profile. */
  lemma NoveltyOfRow(table: seq<WindowFeatures>, events: seq<Event>, p: Profile, w: int, n: nat)
    requires w > 0 && IsFeatureTable(table, events, w) && n < |table|
    ensures GrowsBy(DoneIn(events, p, TableKeys(table[..n]), w), DoneIn(events, p, TableKeys(table[..n + 1]), w), table[n], p)
  {
    TableSplit(table, n);
    VisitStep(events, TableKeys(table[..n]), table[n].key, p, w);
    if p == table[n].key.profile {
      NewNamesOfRow(table, events, w, n);
    }
  }

  /** A row's counts are what its window adds to the names of the rows before it. */
  lemma NewNamesOfRow(table: seq<WindowFeatures>, events: seq<Event>, w: int, n: nat)
    requires w > 0 && IsFeatureTable(table, events, w) && n < |table|
    ensures var k := table[n].key;
            var seen := NoveltyOf(Filter(events, Visited(k.profile, TableKeys(table[..n]), w)));
            var both := seen.Union(NoveltyOf(Filter(events, InWindow(k, w))));
            && |both.processes| == |seen.processes| + table[n].features.newProcessCount
            && |both.remotes| == |seen.remotes| + table[n].features.newRemoteCount
  {
    var k := table[n].key;
    TableSplit(table, n);
    VisitedIsEarlier(events, TableKeys(table[..n]), TableKeys(table[n..]), k, w);
    NewNamesAt(events, k, w);
    assert table[n].features == FeaturesAt(events, k, w, NothingSeen);
  }

  /** A window's counts are the sizes of what it adds to the names seen in earlier windows. */
  lemma NewNamesAt(events: seq<Event>, k: WindowKey, w: int)
    requires w > 0
    ensures var seen := NoveltyOf(Filter(events, EarlierThan(k, w)));
            var both, row := seen.Union(NoveltyOf(Filter(events, InWindow(k, w)))), FeaturesAt(events, k, w, NothingSeen);
            && |both.processes| == |seen.processes| + row.newProcessCount
            && |both.remotes| == |seen.remotes| + row.newRemoteCount
  {
    var seen, here := NoveltyOf(Filter(events, EarlierThan(k, w))), NoveltyOf(Filter(events, InWindow(k, w)));
    assert NothingSeen.Union(seen) == seen;
    SizeOfUnion(seen.processes, here.processes);
    SizeOfUnion(seen.remotes, here.remotes);
  }

  lemma SizeOfUnion<T>(a: set<T>, b: set<T>)
    ensures |a + b| == |a| + |b - a|
  {
    assert a + b == a + (b - a);
  }

  lemma KeysSplit(table: seq<WindowFeatures>, n: nat)
    requires n < |table|
    ensures TableKeys(table) == TableKeys(table[..n]) + TableKeys(table[n..])
    ensures TableKeys(table[..n + 1]) == TableKeys(table[..n]) + {table[n].key}
    ensures table[n].key in TableKeys(table[n..])
  {
    assert table == table[..n] + table[n..];
    assert table[..n + 1] == table[..n] + [table[n]];
    assert table[n..][0] == table[n];
  }

  lemma TableSplit(table: seq<WindowFeatures>, n: nat)
    requires InKeyOrder(table) && n < |table|
    ensures TableKeys(table) == TableKeys(table[..n]) + TableKeys(table[n..])
    ensures TableKeys(table[..n + 1]) == TableKeys(table[..n]) + {table[n].key}
    ensures InProfileOrder(TableKeys(table[..n]), TableKeys(table[n..]))
    ensures table[n].key in TableKeys(table[n..])
    ensures forall j :: j in TableKeys(table[n..]) && j.profile == table[n].key.profile ==> table[n].key.start <= j.start
  {
    KeysSplit(table, n);
    forall a, b | a in TableKeys(table[..n]) && b in TableKeys(table[n..]) && a.profile == b.profile ensures a.start < b.start {
      var i :| 0 <= i < n && table[i].key == a;
      var j :| n <= j < |table| && table[j].key == b;
    }
    forall b | b in TableKeys(table[n..]) && b.profile == table[n].key.profile ensures table[n].key.start <= b.start {
      var j :| n <= j < |table| && table[j].key == b;
    }
  }

  /** In a full build, a profile's new-process counts add up to the number of distinct processes
      it ever ran, and its new-remote counts to the number of distinct remotes it ever reached. */
  lemma NoveltyConservation(table: seq<WindowFeatures>, events: seq<Event>, p: Profile, w: int)
    requires w > 0 && IsFeatureTable(table, events, w)
    ensures NewProcesses(table, p) == |NoveltyOf(Filter(events, OfProfile(p))).processes|
    ensures NewRemotes(table, p) == |NoveltyOf(Filter(events, OfProfile(p))).remotes|
  {
    NoveltyOfTable(table, events, p, w);
    assert table[..|table|] == table;
    FilterAgree(events, Visited(p, TableKeys(table), w), OfProfile(p));
  }
}
