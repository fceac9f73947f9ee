/**
 Whole runs of incremental materialization: when the stored table is the one a rebuild would
 store, and which windows are final.
 */
module IncrementalRuns {
  import opened Sequences
  import opened Tables
  import opened Windows
  import opened Materialization
  import opened RangeAgreement

  // --- Which events the stored table stands for --------------------------------------------

  function UpToCursor(c: Option<Cursor>): Event -> bool {
    (e: Event) => c.Some? && !PastCursor(e, c.value)
  }

  /** The events that earlier calls have read. */
  ghost function Consumed(s: Store, kind: DatasetKind): seq<Event> {
    if kind in s.states then Filter(EventsOf(s, kind), UpToCursor(s.states[kind].cursor)) else []
  }

  ghost predicate IsLatest(t: Option<int>, events: seq<Event>) {
    if events == [] then t.None?
    else t.Some? && (forall e :: e in events ==> e.timestamp <= t.value) && exists e :: e in events && e.timestamp == t.value
  }

  /** The stored synthetic table is the rebuild of the events read so far. */
  ghost predicate Synced(c: Config, s: Store)
    requires c.windowMinutes > 0
  {
    && TableOf(s, Synthetic) == Rebuilt(Synthetic, Consumed(s, Synthetic), [], c.windowMinutes)
    && (Synthetic in s.states ==> IsLatest(s.states[Synthetic].watermark, Consumed(s, Synthetic)))
  }

  // --- Cursor and watermark ----------------------------------------------------------------

  lemma CursorTotal(e: Event, c: Cursor, f: Event)
    requires !PastCursor(e, c) && PastCursor(f, c)
    ensures !PastCursor(e, CursorOf(f))
  {
    TextLeqTotal(e.id, f.id);
    TextTransitive(f.id, e.id, c.eventId);
  }

  lemma {:induction false} LatestCursorCovers(previous: Option<Cursor>, events: seq<Event>)
    requires events != []
    ensures LatestCursor(previous, events).Some?
    ensures forall e :: e in events ==> !PastCursor(e, LatestCursor(previous, events).value)
    ensures exists e :: e in events && LatestCursor(previous, events) == Some(CursorOf(e))
    decreases |events|
  {
    var init, last := events[..|events| - 1], events[|events| - 1];
    assert events == init + [last];
    TextLeqTotal(last.id, last.id);
    if init == [] {
      assert last in events && LatestCursor(previous, events) == Some(CursorOf(last));
    } else {
      LatestCursorCovers(None, init);
      var latest := LatestCursor(None, init).value;
      if PastCursor(last, latest) {
        forall e | e in init ensures !PastCursor(e, CursorOf(last)) { CursorTotal(e, latest, last); }
        assert last in events && LatestCursor(previous, events) == Some(CursorOf(last));
      } else {
        var f :| f in init && LatestCursor(None, init) == Some(CursorOf(f));
        assert f in events && LatestCursor(previous, events) == Some(CursorOf(f));
      }
    }
  }

  /** Once the new events were read, all of them count as read. */
  lemma NewCursorCoversAll(events: seq<Event>, previous: Option<Cursor>)
    requires Filter(events, AfterCursor(previous)) != []
    ensures Filter(events, UpToCursor(LatestCursor(previous, Filter(events, AfterCursor(previous))))) == events
  {
    var added := Filter(events, AfterCursor(previous));
    var next := LatestCursor(previous, added);
    FilterMembers(events, AfterCursor(previous));
    LatestCursorCovers(previous, added);
    var f :| f in added && next == Some(CursorOf(f));
    forall e | e in events ensures UpToCursor(next)(e) {
      if e !in added {
        CursorTotal(e, previous.value, f);
      }
    }
    FilterAll(events, UpToCursor(next));
  }

  lemma {:induction false} LatestTimeIsLatest(previous: Option<int>, seen: seq<Event>, added: seq<Event>)
    requires IsLatest(previous, seen)
    ensures IsLatest(LatestTime(previous, added), seen + added)
  {
    if added == [] {
      assert seen + added == seen;
    } else {
      var init, last := added[..|added| - 1], added[|added| - 1];
      LatestTimeIsLatest(previous, seen, init);
      assert seen + added == (seen + init) + [last];
      var all, t := seen + init, LatestTime(previous, init);
      assert last in seen + added;
      if t.Some? && t.value >= last.timestamp {
        var e :| e in all && e.timestamp == t.value;
        assert e in seen + added;
      }
    }
  }

  lemma LatestOfSame(t: Option<int>, a: seq<Event>, b: seq<Event>)
    requires IsLatest(t, a) && forall e :: e in a <==> e in b
    ensures IsLatest(t, b)
  {
    if b != [] {
      assert b[0] in b;
      assert a != [];
    }
    if a != [] {
      assert a[0] in a;
      assert b != [];
    }
  }

  // --- One call ----------------------------------------------------------------------------

  /** Every new event falls into the range that the call rewrites. */
  ghost predicate NewEventsInRange(c: Config, s: Store, now: int)
    requires c.windowMinutes > 0 && Synthetic in s.states
  {
    var state := s.states[Synthetic];
    forall e :: e in NewEvents(s, Synthetic, state)
                ==> InRange(AlignWindowStart(e.timestamp, c.windowMinutes), RangeOf(c, s, Synthetic, state, now))
  }

  /** An event is no older than the late-event interval before the watermark. */
  ghost predicate OnTime(c: Config, watermark: Option<int>, e: Event) {
    watermark.Some? ==> watermark.value - c.lateEventMinutes * MINUTE <= e.timestamp
  }

  /** No new event is older than the policy allows. */
  ghost predicate NewEventsOnTime(c: Config, s: Store, kind: DatasetKind) {
    kind in s.states ==> forall e :: e in NewEvents(s, kind, s.states[kind]) ==> OnTime(c, s.states[kind].watermark, e)
  }

  lemma OnTimeIsInRange(c: Config, s: Store, now: int)
    requires ValidConfig(c) && Synthetic in s.states && NewEventsOnTime(c, s, Synthetic)
    ensures NewEventsInRange(c, s, now)
  {
    var state := s.states[Synthetic];
    var added, boundary := NewEvents(s, Synthetic, state), PolicyBoundary(c, state.watermark);
    var starts := AffectedStarts(added, NewObservations(s, Synthetic, state), boundary, c.windowMinutes);
    forall e | e in added
      ensures InRange(AlignWindowStart(e.timestamp, c.windowMinutes), RangeOf(c, s, Synthetic, state, now))
    {
      assert AlignWindowStart(e.timestamp, c.windowMinutes) in starts;
    }
  }

  /** Every new event that is too late for the policy falls into the window of a new event that is not. */
  ghost predicate TooLateShareWindows(c: Config, s: Store)
    requires c.windowMinutes > 0 && Synthetic in s.states
  {
    var added, watermark := NewEvents(s, Synthetic, s.states[Synthetic]), s.states[Synthetic].watermark;
    forall e :: e in added && !OnTime(c, watermark, e) ==> SharesWindow(c, added, watermark, e)
  }

  ghost predicate SharesWindow(c: Config, added: seq<Event>, watermark: Option<int>, e: Event)
    requires c.windowMinutes > 0
  {
    exists f :: f in added && OnTime(c, watermark, f)
                && AlignWindowStart(f.timestamp, c.windowMinutes) == AlignWindowStart(e.timestamp, c.windowMinutes)
  }

  /** What the rewritten range amounts to: too late events are in it only by company. */
  lemma InRangeExactly(c: Config, s: Store, now: int)
    requires ValidConfig(c) && Synthetic in s.states
    ensures NewEventsInRange(c, s, now) <==> TooLateShareWindows(c, s)
  {
    var state, w := s.states[Synthetic], c.windowMinutes;
    var added := NewEvents(s, Synthetic, state);
    forall e | e in added
      ensures InRange(AlignWindowStart(e.timestamp, w), RangeOf(c, s, Synthetic, state, now))
              <==> (!OnTime(c, state.watermark, e) ==> SharesWindow(c, added, state.watermark, e))
    {
      EventInRangeExactly(c, s, now, e);
    }
  }

  lemma EventInRangeExactly(c: Config, s: Store, now: int, e: Event)
    requires ValidConfig(c) && Synthetic in s.states && e in NewEvents(s, Synthetic, s.states[Synthetic])
    ensures var state := s.states[Synthetic];
            InRange(AlignWindowStart(e.timestamp, c.windowMinutes), RangeOf(c, s, Synthetic, state, now))
            <==> (!OnTime(c, state.watermark, e) ==> SharesWindow(c, NewEvents(s, Synthetic, state), state.watermark, e))
  {
    var state, w := s.states[Synthetic], c.windowMinutes;
    var added, boundary := NewEvents(s, Synthetic, state), PolicyBoundary(c, state.watermark);
    assert NewObservations(s, Synthetic, state) == [];
    var starts := AffectedStarts(added, [], boundary, w);
    var r := AffectedRange(c, state.watermark, added, [], now);
    if OnTime(c, state.watermark, e) {
      assert AlignWindowStart(e.timestamp, w) in starts;
    } else if SharesWindow(c, added, state.watermark, e) {
      assert AlignWindowStart(e.timestamp, w) in starts;
    } else if InRange(AlignWindowStart(e.timestamp, w), r) && starts != {} {
      var f :| f in added && !OutOfPolicy(f, boundary) && AlignWindowStart(f.timestamp, w) == Least(starts);
      AlignMonotone(e.timestamp, f.timestamp, w);
    }
  }

  /** The rebuild of a longer event list is, at a key, that of the events read so far when no
      new event reaches that window or an earlier one. */
  lemma RebuiltUnaffected(all: seq<Event>, cursor: Option<Cursor>, k: WindowKey, w: int)
    requires w > 0
    requires forall e :: e in all && !UpToCursor(cursor)(e) ==> AlignWindowStart(e.timestamp, w) > k.start
    ensures AgreeAt(Rebuilt(Synthetic, Filter(all, UpToCursor(cursor)), [], w), Rebuilt(Synthetic, all, [], w), k)
  {
    var seen := Filter(all, UpToCursor(cursor));
    FilterMembers(all, UpToCursor(cursor));
    assert k in EventKeys(all, w) <==> k in EventKeys(seen, w);
    FilterNested(all, UpToCursor(cursor), InWindow(k, w));
    FilterNested(all, UpToCursor(cursor), EarlierThan(k, w));
  }

  /** A new event makes the rebuild's window larger than the stored one. */
  lemma RebuiltAffected(all: seq<Event>, cursor: Option<Cursor>, e: Event, w: int)
    requires w > 0 && e in all && !UpToCursor(cursor)(e)
    ensures !AgreeAt(Rebuilt(Synthetic, Filter(all, UpToCursor(cursor)), [], w), Rebuilt(Synthetic, all, [], w), KeyOf(e, w))
  {
    var k, seen := KeyOf(e, w), Filter(all, UpToCursor(cursor));
    FilterNestedShorter(all, UpToCursor(cursor), InWindow(k, w), e);
    var before, after := Rebuilt(Synthetic, seen, [], w), Rebuilt(Synthetic, all, [], w);
    if k in before {
      assert before[k].eventCount < after[k].eventCount;
    }
  }

  /** A bounded range ends after every event read so far. */
  lemma BoundedRangeIsLast(c: Config, s: Store, now: int, e: Event)
    requires ValidConfig(c) && Synthetic in s.states && Synced(c, s) && NewEventsInRange(c, s, now)
    requires NewEvents(s, Synthetic, s.states[Synthetic]) != []
    requires e in EventsOf(s, Synthetic)
    ensures var r := RangeOf(c, s, Synthetic, s.states[Synthetic], now);
            r.end.Some? ==> AlignWindowStart(e.timestamp, c.windowMinutes) < r.end.value
  {
    var state, w := s.states[Synthetic], c.windowMinutes;
    var all, added, r := EventsOf(s, Synthetic), NewEvents(s, Synthetic, state), RangeOf(c, s, Synthetic, state, now);
    FilterMembers(all, AfterCursor(state.cursor));
    FilterMembers(all, UpToCursor(state.cursor));
    if r.end.Some? && e !in added {
      assert added[0] in added;
      var f := InPolicyEvent(c, s, now);
      assert e in Consumed(s, Synthetic);
      AlignMonotone(e.timestamp, f.timestamp, w);
    }
  }

  /** When all new events are in range, one of them is no older than the watermark. */
  lemma InPolicyEvent(c: Config, s: Store, now: int) returns (f: Event)
    requires ValidConfig(c) && Synthetic in s.states && NewEventsInRange(c, s, now)
    requires NewEvents(s, Synthetic, s.states[Synthetic]) != []
    requires RangeOf(c, s, Synthetic, s.states[Synthetic], now).end.Some?
    ensures f in NewEvents(s, Synthetic, s.states[Synthetic])
    ensures s.states[Synthetic].watermark.Some? ==> s.states[Synthetic].watermark.value <= f.timestamp
    ensures AlignWindowStart(f.timestamp, c.windowMinutes) <
            RangeOf(c, s, Synthetic, s.states[Synthetic], now).end.value
  {
    var state := s.states[Synthetic];
    var added, boundary := NewEvents(s, Synthetic, state), PolicyBoundary(c, state.watermark);
    assert NewObservations(s, Synthetic, state) == [];
    var starts := AffectedStarts(added, [], boundary, c.windowMinutes);
    assert added[0] in added;
    assert starts != {} by {
      assert InRange(AlignWindowStart(added[0].timestamp, c.windowMinutes), RangeOf(c, s, Synthetic, state, now));
    }
    var start :| start in starts;
    f :| f in added && !OutOfPolicy(f, boundary) && AlignWindowStart(f.timestamp, c.windowMinutes) == start;
  }

  /** If the table was in step before an incremental call, it is the rebuild's table afterwards
      exactly when every new event that is too late for the policy shares its window with a new event
      that is not. */
  lemma IncrementalExact(c: Config, s: Store, now: int)
    requires WellFormed(c, s, Synthetic) && Synced(c, s) && Synthetic in s.states
    ensures TableOf(Materialized(c, s, Synthetic, false, now), Synthetic) == RebuiltOf(c, s, Synthetic)
            <==> TooLateShareWindows(c, s)
  {
    InRangeExactly(c, s, now);
    if !NewEventsInRange(c, s, now) {
      StaleWindow(c, s, now);
    } else if NewEvents(s, Synthetic, s.states[Synthetic]) == [] {
      NothingNew(c, s, now);
    } else {
      InRangeIsRebuilt(c, s, now);
    }
  }

  lemma NothingNew(c: Config, s: Store, now: int)
    requires WellFormed(c, s, Synthetic) && Synced(c, s) && Synthetic in s.states
    requires NewEvents(s, Synthetic, s.states[Synthetic]) == []
    ensures Materialized(c, s, Synthetic, false, now) == s
    ensures Consumed(s, Synthetic) == EventsOf(s, Synthetic)
  {
    FilterMembers(EventsOf(s, Synthetic), AfterCursor(s.states[Synthetic].cursor));
    FilterAll(EventsOf(s, Synthetic), UpToCursor(s.states[Synthetic].cursor));
  }

  lemma InRangeIsRebuilt(c: Config, s: Store, now: int)
    requires WellFormed(c, s, Synthetic) && Synced(c, s) && Synthetic in s.states && NewEventsInRange(c, s, now)
    requires NewEvents(s, Synthetic, s.states[Synthetic]) != []
    ensures TableOf(Materialized(c, s, Synthetic, false, now), Synthetic) == RebuiltOf(c, s, Synthetic)
  {
    var r := RangeOf(c, s, Synthetic, s.states[Synthetic], now);
    IncrementalAgreesOnRange(c, s, Synthetic, now);
    forall k: WindowKey | !InRange(k.start, r) ensures AgreeAt(TableOf(s, Synthetic), RebuiltOf(c, s, Synthetic), k) {
      OutsideIsRebuilt(c, s, now, k);
    }
    ReplacedEverywhere(TableOf(Materialized(c, s, Synthetic, false, now), Synthetic), TableOf(s, Synthetic),
                       RebuiltOf(c, s, Synthetic), r);
  }

  lemma ReplacedEverywhere(after: Table, table: Table, full: Table, r: Range)
    requires Replaces(after, table, full, r)
    requires forall k: WindowKey :: !InRange(k.start, r) ==> AgreeAt(table, full, k)
    ensures after == full
  {
    forall k: WindowKey ensures AgreeAt(after, full, k) {
      if !InRange(k.start, r) {
        assert AgreeAt(after, table, k) && AgreeAt(table, full, k);
      }
    }
    SameTables(after, full);
  }

  lemma SameTables(a: Table, b: Table)
    requires forall k :: AgreeAt(a, b, k)
    ensures a == b
  {
    forall k ensures k in a <==> k in b { assert AgreeAt(a, b, k); }
    forall k | k in a ensures a[k] == b[k] { assert AgreeAt(a, b, k); }
  }

  lemma OutsideIsRebuilt(c: Config, s: Store, now: int, k: WindowKey)
    requires WellFormed(c, s, Synthetic) && Synced(c, s) && Synthetic in s.states && NewEventsInRange(c, s, now)
    requires NewEvents(s, Synthetic, s.states[Synthetic]) != []
    requires !InRange(k.start, RangeOf(c, s, Synthetic, s.states[Synthetic], now))
    ensures AgreeAt(TableOf(s, Synthetic), RebuiltOf(c, s, Synthetic), k)
  {
    var state, w := s.states[Synthetic], c.windowMinutes;
    var all, r := EventsOf(s, Synthetic), RangeOf(c, s, Synthetic, state, now);
    FilterMembers(all, AfterCursor(state.cursor));
    if k.start < r.start {
      forall e | e in all && !UpToCursor(state.cursor)(e) ensures AlignWindowStart(e.timestamp, w) > k.start {
        assert e in NewEvents(s, Synthetic, state);
      }
      RebuiltUnaffected(all, state.cursor, k, w);
    } else {
      FilterMembers(all, UpToCursor(state.cursor));
      forall e | e in all ensures KeyOf(e, w) != k { BoundedRangeIsLast(c, s, now, e); }
    }
  }

  lemma StaleWindow(c: Config, s: Store, now: int)
    requires WellFormed(c, s, Synthetic) && Synced(c, s) && Synthetic in s.states && !NewEventsInRange(c, s, now)
    ensures TableOf(Materialized(c, s, Synthetic, false, now), Synthetic) != RebuiltOf(c, s, Synthetic)
  {
    var state, w := s.states[Synthetic], c.windowMinutes;
    var all, added, r := EventsOf(s, Synthetic), NewEvents(s, Synthetic, state), RangeOf(c, s, Synthetic, state, now);
    var e :| e in added && !InRange(AlignWindowStart(e.timestamp, w), r);
    FilterMembers(all, AfterCursor(state.cursor));
    IncrementalAgreesOnRange(c, s, Synthetic, now);
    RebuiltAffected(all, state.cursor, e, w);
    assert AgreeAt(TableOf(Materialized(c, s, Synthetic, false, now), Synthetic), TableOf(s, Synthetic), KeyOf(e, w));
  }

  // --- Staying in step ---------------------------------------------------------------------

  /** After a call that read something, every event counts as read. */
  lemma ConsumedAfterIncremental(c: Config, s: Store, now: int)
    requires c.windowMinutes > 0 && Synthetic in s.states && NewEvents(s, Synthetic, s.states[Synthetic]) != []
    ensures Consumed(Materialized(c, s, Synthetic, false, now), Synthetic) == EventsOf(s, Synthetic)
  {
    IncrementalEffect(c, s, Synthetic, s.states[Synthetic], now);
    NewCursorCoversAll(EventsOf(s, Synthetic), s.states[Synthetic].cursor);
  }

  lemma WatermarkAfterIncremental(c: Config, s: Store, now: int)
    requires c.windowMinutes > 0 && Synthetic in s.states && NewEvents(s, Synthetic, s.states[Synthetic]) != []
    requires IsLatest(s.states[Synthetic].watermark, Consumed(s, Synthetic))
    ensures var after := Materialized(c, s, Synthetic, false, now);
            Synthetic in after.states && IsLatest(after.states[Synthetic].watermark, EventsOf(s, Synthetic))
  {
    var state, all := s.states[Synthetic], EventsOf(s, Synthetic);
    IncrementalEffect(c, s, Synthetic, state, now);
    LatestTimeIsLatest(state.watermark, Consumed(s, Synthetic), NewEvents(s, Synthetic, state));
    FilterMembers(all, UpToCursor(state.cursor));
    FilterMembers(all, AfterCursor(state.cursor));
    LatestOfSame(LatestTime(state.watermark, NewEvents(s, Synthetic, state)),
                 Consumed(s, Synthetic) + NewEvents(s, Synthetic, state), all);
  }

  lemma SyncedAfterIncremental(c: Config, s: Store, now: int)
    requires WellFormed(c, s, Synthetic) && Synced(c, s) && Synthetic in s.states && NewEventsInRange(c, s, now)
    ensures var after := Materialized(c, s, Synthetic, false, now);
            Synced(c, after) && Consumed(after, Synthetic) == EventsOf(after, Synthetic)
  {
    if NewEvents(s, Synthetic, s.states[Synthetic]) == [] {
      NothingNew(c, s, now);
    } else {
      InRangeIsRebuilt(c, s, now);
      ConsumedAfterIncremental(c, s, now);
      WatermarkAfterIncremental(c, s, now);
      IncrementalEffect(c, s, Synthetic, s.states[Synthetic], now);
    }
  }

  lemma CursorAfterFull(all: seq<Event>, previous: Option<Cursor>)
    ensures Filter(all, UpToCursor(LatestCursor(previous, all))) == all
  {
    if all != [] {
      LatestCursorCovers(previous, all);
      FilterAll(all, UpToCursor(LatestCursor(previous, all)));
    }
  }

  lemma SyncedAfterFull(c: Config, s: Store, rebuild: bool)
    requires WellFormed(c, s, Synthetic) && Synced(c, s) && (rebuild || Synthetic !in s.states)
    ensures var after := Full(c, s, Synthetic, rebuild);
            Synced(c, after) && Consumed(after, Synthetic) == EventsOf(after, Synthetic)
  {
    var all, seen := EventsOf(s, Synthetic), Consumed(s, Synthetic);
    var previous := if Synthetic in s.states then s.states[Synthetic].cursor else None;
    var watermark := if Synthetic in s.states then s.states[Synthetic].watermark else None;
    if !rebuild {
      assert EventKeys([], c.windowMinutes) == {};
    }
    FullStoresRebuilt(c, s, Synthetic, rebuild);
    CursorAfterFull(all, previous);
    LatestTimeIsLatest(watermark, seen, all);
    if Synthetic in s.states {
      FilterMembers(all, UpToCursor(previous));
    }
    LatestOfSame(LatestTime(watermark, all), seen + all, all);
  }

  /** Rows ingested later lie past the stored cursor of their kind. */
  ghost predicate PastStoredCursor(s: Store, rows: seq<Event>, kind: DatasetKind) {
    kind in s.states && s.states[kind].cursor.Some? ==>
      var cursor := s.states[kind].cursor.value;
      forall e :: e in rows && e.synthetic == (kind == Synthetic) ==>
        cursor.ingestedAt < e.ingestedAt || (cursor.ingestedAt == e.ingestedAt && !TextLeq(e.id, cursor.eventId))
  }

  /** New rows past the cursor do not count as read. */
  lemma ConsumedAfterIngest(s: Store, rows: seq<Event>, kind: DatasetKind)
    requires PastStoredCursor(s, rows, kind)
    ensures Consumed(s.(events := s.events + rows), kind) == Consumed(s, kind)
  {
    if kind in s.states {
      var cursor := s.states[kind].cursor;
      var mine, added := Filter(s.events, OfKind(kind)), Filter(rows, OfKind(kind));
      EventOrder();
      FilterConcat(s.events, rows, OfKind(kind));
      FilterSortBy(mine + added, EventLeq, UpToCursor(cursor));
      FilterSortBy(mine, EventLeq, UpToCursor(cursor));
      FilterConcat(mine, added, UpToCursor(cursor));
      FilterMembers(rows, OfKind(kind));
      FilterNone(added, UpToCursor(cursor));
      assert Filter(mine, UpToCursor(cursor)) + [] == Filter(mine, UpToCursor(cursor));
    }
  }

  lemma EventsAfterIngest(s: Store, rows: seq<Event>, kind: DatasetKind)
    ensures forall e :: e in EventsOf(s.(events := s.events + rows), kind)
                        <==> e in EventsOf(s, kind) || (e in rows && OfKind(kind)(e))
  {
    var after := s.(events := s.events + rows);
    FilterMembers(s.events, OfKind(kind));
    FilterMembers(s.events + rows, OfKind(kind));
    SortByPermutes(Filter(s.events, OfKind(kind)), EventLeq);
    SortByPermutes(Filter(after.events, OfKind(kind)), EventLeq);
  }

  // --- Runs --------------------------------------------------------------------------------

  /** What happens to the store over time. */
  datatype Step =
    | Ingest(rows: seq<Event>)
    | Observe(polls: seq<Observation>)
    | Materialize(kind: DatasetKind, rebuild: bool, now: int)

  ghost function Take(c: Config, s: Store, step: Step): Store
    requires c.windowMinutes > 0
  {
    match step
    case Ingest(rows) => s.(events := s.events + rows)
    case Observe(polls) => s.(observations := s.observations + polls)
    case Materialize(kind, rebuild, now) => Materialized(c, s, kind, rebuild, now)
  }

  ghost function Run(c: Config, s: Store, steps: seq<Step>): Store
    requires c.windowMinutes > 0
    decreases |steps|
  {
    if steps == [] then s else Run(c, Take(c, s, steps[0]), steps[1..])
  }

  /** The events of an ingested batch are accepted, lie past the stored cursor and, when they
      are synthetic, are no older than the policy allows at that moment. */
  ghost predicate ArrivesInPolicy(c: Config, s: Store, step: Step) {
    step.Ingest? ==>
      && Accepted(step.rows)
      && PastStoredCursor(s, step.rows, Synthetic)
      && (Synthetic in s.states ==>
            forall e :: e in step.rows && e.synthetic ==> OnTime(c, s.states[Synthetic].watermark, e))
  }

  ghost predicate InPolicyRun(c: Config, s: Store, steps: seq<Step>)
    requires c.windowMinutes > 0
    decreases |steps|
  {
    steps == [] || (ArrivesInPolicy(c, s, steps[0]) && InPolicyRun(c, Take(c, s, steps[0]), steps[1..]))
  }

  ghost predicate InStep(c: Config, s: Store) {
    WellFormed(c, s, Synthetic) && Synced(c, s) && NewEventsOnTime(c, s, Synthetic)
  }

  lemma IngestStaysSynced(c: Config, s: Store, rows: seq<Event>)
    requires WellFormed(c, s, Synthetic) && Synced(c, s) && Accepted(rows) && PastStoredCursor(s, rows, Synthetic)
    ensures WellFormed(c, s.(events := s.events + rows), Synthetic) && Synced(c, s.(events := s.events + rows))
  {
    ConsumedAfterIngest(s, rows, Synthetic);
    EventsAfterIngest(s, rows, Synthetic);
  }

  lemma StepStaysInStep(c: Config, s: Store, step: Step)
    requires InStep(c, s) && ArrivesInPolicy(c, s, step)
    ensures InStep(c, Take(c, s, step))
  {
    match step
    case Ingest(rows) =>
      var after := s.(events := s.events + rows);
      IngestStaysSynced(c, s, rows);
      EventsAfterIngest(s, rows, Synthetic);
      if Synthetic in s.states {
        FilterMembers(EventsOf(s, Synthetic), AfterCursor(s.states[Synthetic].cursor));
        FilterMembers(EventsOf(after, Synthetic), AfterCursor(s.states[Synthetic].cursor));
      }
    case Observe(polls) =>
      assert EventsOf(s.(observations := s.observations + polls), Synthetic) == EventsOf(s, Synthetic);
    case Materialize(kind, rebuild, now) =>
      if kind == Synthetic {
        CallStaysInStep(c, s, rebuild, now);
      } else {
        OtherKindUntouched(c, s, kind, rebuild, now, Synthetic);
        SameSyntheticSide(c, s, Materialized(c, s, kind, rebuild, now));
      }
  }

  lemma CallStaysInStep(c: Config, s: Store, rebuild: bool, now: int)
    requires InStep(c, s)
    ensures InStep(c, Materialized(c, s, Synthetic, rebuild, now))
  {
    var after := Materialized(c, s, Synthetic, rebuild, now);
    MaterializedStaysWellFormed(c, s, Synthetic, rebuild, now);
    if Synthetic in s.states && !rebuild {
      OnTimeIsInRange(c, s, now);
      SyncedAfterIncremental(c, s, now);
    } else {
      SyncedAfterFull(c, s, rebuild);
    }
    AllConsumedIsOnTime(c, after);
  }

  lemma AllConsumedIsOnTime(c: Config, s: Store)
    requires Consumed(s, Synthetic) == EventsOf(s, Synthetic)
    ensures NewEventsOnTime(c, s, Synthetic)
  {
    if Synthetic in s.states {
      FilterMembers(EventsOf(s, Synthetic), UpToCursor(s.states[Synthetic].cursor));
      FilterMembers(EventsOf(s, Synthetic), AfterCursor(s.states[Synthetic].cursor));
    }
  }

  lemma SameSyntheticSide(c: Config, s: Store, after: Store)
    requires InStep(c, s) && after.events == s.events && after.observations == s.observations
    requires TableOf(after, Synthetic) == TableOf(s, Synthetic) && StateOf(after, Synthetic) == StateOf(s, Synthetic)
    ensures InStep(c, after)
  {
    assert EventsOf(after, Synthetic) == EventsOf(s, Synthetic);
  }

  lemma {:induction false} RunStaysInStep(c: Config, s: Store, steps: seq<Step>)
    requires InStep(c, s) && InPolicyRun(c, s, steps)
    ensures InStep(c, Run(c, s, steps))
    decreases |steps|
  {
    if steps != [] {
      StepStaysInStep(c, s, steps[0]);
      RunStaysInStep(c, Take(c, s, steps[0]), steps[1..]);
    }
  }

  lemma EmptyInStep(c: Config)
    requires ValidConfig(c)
    ensures InStep(c, EmptyStore)
  {
    assert EventsOf(EmptyStore, Synthetic) == [];
    assert EventKeys([], c.windowMinutes) == {};
  }

  /** In step, every call stores exactly what a rebuild would store. */
  lemma CallRebuilds(c: Config, s: Store, rebuild: bool, now: int)
    requires InStep(c, s)
    ensures TableOf(Materialized(c, s, Synthetic, rebuild, now), Synthetic) == RebuiltOf(c, s, Synthetic)
  {
    if rebuild {
      FullStoresRebuilt(c, s, Synthetic, true);
    } else if Synthetic in s.states {
      OnTimeIsInRange(c, s, now);
      InRangeExactly(c, s, now);
      IncrementalExact(c, s, now);
    } else {
      assert EventKeys([], c.windowMinutes) == {};
      FullStoresRebuilt(c, s, Synthetic, false);
    }
  }

  /** Whole runs: from an empty store, after any mix of ingestion, observation and earlier calls in
      which synthetic events arrive in policy, an incremental call stores exactly what a rebuild
      would store. */
  lemma IncrementalEqualsRebuild(c: Config, steps: seq<Step>, now: int)
    requires ValidConfig(c) && InPolicyRun(c, EmptyStore, steps)
    ensures var s := Run(c, EmptyStore, steps);
            && TableOf(Materialized(c, s, Synthetic, false, now), Synthetic) == RebuiltOf(c, s, Synthetic)
            && TableOf(Materialized(c, s, Synthetic, true, now), Synthetic) == RebuiltOf(c, s, Synthetic)
  {
    EmptyInStep(c);
    RunStaysInStep(c, EmptyStore, steps);
    CallRebuilds(c, Run(c, EmptyStore, steps), false, now);
    CallRebuilds(c, Run(c, EmptyStore, steps), true, now);
  }

  // --- An event that is missed -------------------------------------------------------------

  const DEFAULTS := Config(15, 60)

  /** An event at two o'clock, and one from midnight that is ingested later. */
  const ON_TIME := Event("a", 7200 * SECOND, "user", "host", "agent", SystemMetrics(0.0, 0.0), true, 0)
  const TOO_LATE := Event("b", 0, "user", "host", "agent", SystemMetrics(0.0, 0.0), true, 1)

  function BeforeLate(): Store { EmptyStore.(events := [ON_TIME]) }

  lemma ExampleBefore(s: Store)
    requires s == Materialized(DEFAULTS, BeforeLate(), Synthetic, false, 0)
    ensures InStep(DEFAULTS, s)
  {
    EmptyInStep(DEFAULTS);
    assert EmptyStore.events + [ON_TIME] == [ON_TIME];
    StepStaysInStep(DEFAULTS, EmptyStore, Ingest([ON_TIME]));
    CallStaysInStep(DEFAULTS, BeforeLate(), false, 0);
  }

  lemma ExampleState(s: Store)
    requires s == Materialized(DEFAULTS, BeforeLate(), Synthetic, false, 0)
    ensures s.events == [ON_TIME] && Synthetic in s.states
    ensures s.states[Synthetic].cursor == Some(CursorOf(ON_TIME)) && s.states[Synthetic].watermark == Some(7200 * SECOND)
  {
    assert Filter([ON_TIME], OfKind(Synthetic)) == [ON_TIME];
    assert EventsOf(BeforeLate(), Synthetic) == [ON_TIME];
  }

  lemma NewEventsMembers(s: Store, kind: DatasetKind, state: MaterializationState)
    ensures forall e :: e in NewEvents(s, kind, state)
                        <==> e in s.events && OfKind(kind)(e) && AfterCursor(state.cursor)(e)
  {
    FilterMembers(s.events, OfKind(kind));
    SortByPermutes(Filter(s.events, OfKind(kind)), EventLeq);
    FilterMembers(EventsOf(s, kind), AfterCursor(state.cursor));
  }

  lemma ExampleAdded(s: Store)
    requires s.events == [ON_TIME, TOO_LATE] && Synthetic in s.states && s.states[Synthetic].cursor == Some(CursorOf(ON_TIME))
    ensures forall e :: e in NewEvents(s, Synthetic, s.states[Synthetic]) <==> e == TOO_LATE
  {
    NewEventsMembers(s, Synthetic, s.states[Synthetic]);
    TextLeqTotal("a", "a");
    assert !AfterCursor(Some(CursorOf(ON_TIME)))(ON_TIME) && AfterCursor(Some(CursorOf(ON_TIME)))(TOO_LATE);
  }

  /** In the default configuration an event from before the policy boundary is missed: after it, the
      incremental table is not the rebuild's. */
  lemma TooLateMissed()
    ensures var s := Materialized(DEFAULTS, BeforeLate(), Synthetic, false, 0).(events := [ON_TIME, TOO_LATE]);
            && WellFormed(DEFAULTS, s, Synthetic) && Synced(DEFAULTS, s)
            && TableOf(Materialized(DEFAULTS, s, Synthetic, false, 0), Synthetic) != RebuiltOf(DEFAULTS, s, Synthetic)
  {
    var before := Materialized(DEFAULTS, BeforeLate(), Synthetic, false, 0);
    ExampleBefore(before);
    ExampleState(before);
    assert before.events + [TOO_LATE] == [ON_TIME, TOO_LATE];
    IngestStaysSynced(DEFAULTS, before, [TOO_LATE]);
    LateAloneIsMissed(before.(events := [ON_TIME, TOO_LATE]));
  }

  lemma LateAloneIsMissed(s: Store)
    requires WellFormed(DEFAULTS, s, Synthetic) && Synced(DEFAULTS, s) && Synthetic in s.states
    requires s.events == [ON_TIME, TOO_LATE] && s.states[Synthetic].cursor == Some(CursorOf(ON_TIME))
    requires s.states[Synthetic].watermark == Some(7200 * SECOND)
    ensures TableOf(Materialized(DEFAULTS, s, Synthetic, false, 0), Synthetic) != RebuiltOf(DEFAULTS, s, Synthetic)
  {
    ExampleAdded(s);
    var watermark := s.states[Synthetic].watermark;
    assert !OnTime(DEFAULTS, watermark, TOO_LATE);
    assert !SharesWindow(DEFAULTS, NewEvents(s, Synthetic, s.states[Synthetic]), watermark, TOO_LATE);
    IncrementalExact(DEFAULTS, s, 0);
  }

  // --- Final windows -----------------------------------------------------------------------

  /** A window that ended at least the late-event interval before the watermark. */
  ghost predicate Final(c: Config, s: Store, kind: DatasetKind, k: WindowKey) {
    kind in s.states && s.states[kind].watermark.Some?
    && k.start + Length(c.windowMinutes) <= s.states[kind].watermark.value - c.lateEventMinutes * MINUTE
  }

  lemma {:induction false} LatestTimeGrows(previous: Option<int>, events: seq<Event>)
    ensures previous.Some? ==> LatestTime(previous, events).Some? && previous.value <= LatestTime(previous, events).value
  {
    if events != [] {
      LatestTimeGrows(previous, events[..|events| - 1]);
    }
  }

  lemma FinalIsOutOfRange(c: Config, s: Store, kind: DatasetKind, k: WindowKey, now: int)
    requires ValidConfig(c) && Final(c, s, kind, k) && NewObservations(s, kind, s.states[kind]) == []
    ensures !InRange(k.start, RangeOf(c, s, kind, s.states[kind], now))
  {
    var state := s.states[kind];
    var added, boundary := NewEvents(s, kind, state), PolicyBoundary(c, state.watermark);
    var starts := AffectedStarts(added, [], boundary, c.windowMinutes);
    if starts != {} {
      var first := Least(starts);
      var e :| e in added && !OutOfPolicy(e, boundary) && AlignWindowStart(e.timestamp, c.windowMinutes) == first;
      AlignContains(e.timestamp, c.windowMinutes);
    }
  }

  /** An incremental call without new observations keeps final windows and never lowers the watermark. */
  lemma FinalStays(c: Config, s: Store, kind: DatasetKind, k: WindowKey, now: int)
    requires WellFormed(c, s, kind) && Final(c, s, kind, k) && NewObservations(s, kind, s.states[kind]) == []
    ensures var after := Materialized(c, s, kind, false, now);
            && Final(c, after, kind, k) && AgreeAt(TableOf(after, kind), TableOf(s, kind), k)
            && s.states[kind].watermark.value <= after.states[kind].watermark.value
            && NewObservations(after, kind, after.states[kind]) == []
  {
    var state := s.states[kind];
    if HasNewRows(s, kind, state) {
      FinalIsOutOfRange(c, s, kind, k, now);
      IncrementalAgreesOnRange(c, s, kind, now);
      IncrementalEffect(c, s, kind, state, now);
      LatestTimeGrows(state.watermark, NewEvents(s, kind, state));
      assert ObservationsFor(Materialized(c, s, kind, false, now), kind) == ObservationsFor(s, kind);
    }
  }

  /** Only ingestion of accepted events and incremental calls. */
  ghost predicate EventOnly(step: Step) {
    match step
    case Ingest(rows) => Accepted(rows)
    case Observe(_) => false
    case Materialize(_, rebuild, _) => !rebuild
  }

  /** Window finality: over event-only incremental runs the watermark never decreases and a final
      window is never rewritten. */
  lemma {:induction false} FinalWindows(c: Config, s: Store, steps: seq<Step>, kind: DatasetKind, k: WindowKey)
    requires WellFormed(c, s, kind) && Final(c, s, kind, k) && NewObservations(s, kind, s.states[kind]) == []
    requires forall step :: step in steps ==> EventOnly(step)
    ensures var after := Run(c, s, steps);
            && Final(c, after, kind, k) && AgreeAt(TableOf(after, kind), TableOf(s, kind), k)
            && s.states[kind].watermark.value <= after.states[kind].watermark.value
    decreases |steps|
  {
    if steps != [] {
      var step, next := steps[0], Take(c, s, steps[0]);
      assert EventOnly(step);
      match step {
        case Ingest(rows) =>
          EventsAfterIngest(s, rows, kind);
          assert ObservationsFor(next, kind) == ObservationsFor(s, kind);
          assert Backed(next, kind, c.windowMinutes);
        case Materialize(other, rebuild, now) =>
          if other == kind {
            FinalStays(c, s, kind, k, now);
            MaterializedStaysWellFormed(c, s, kind, false, now);
          } else {
            OtherKindUntouched(c, s, other, rebuild, now, kind);
            assert EventsOf(next, kind) == EventsOf(s, kind) && ObservationsFor(next, kind) == ObservationsFor(s, kind);
          }
      }
      FinalWindows(c, next, steps[1..], kind, k);
    }
  }
}
