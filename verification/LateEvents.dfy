/**
 What one incremental call does with late events: which of them it counts and writes down as within
 and outside the policy, and one that it keeps.
 */
module LateEvents {
  import opened Sequences
  import opened Tables
  import opened Windows
  import opened Materialization
  import opened RangeAgreement
  import opened IncrementalRuns

  /** A stored row of a kind that lies past the cursor and is stamped before a time, or between two. */
  function UnreadStamped(kind: DatasetKind, cursor: Option<Cursor>, from: Option<int>, until: int): Event -> bool {
    (e: Event) =>
      && e.synthetic == (kind == Synthetic)
      && (cursor.Some? ==>
            || cursor.value.ingestedAt < e.ingestedAt
            || (cursor.value.ingestedAt == e.ingestedAt && !TextLeq(e.id, cursor.value.eventId)))
      && (from.Some? ==> from.value <= e.timestamp) && e.timestamp < until
  }

  function Stamped(from: Option<int>, until: int): Event -> bool {
    (e: Event) => (from.Some? ==> from.value <= e.timestamp) && e.timestamp < until
  }

  function Unread(kind: DatasetKind, cursor: Option<Cursor>): Event -> bool {
    (e: Event) => OfKind(kind)(e) && AfterCursor(cursor)(e)
  }

  /** How many new events of a call are stamped between two times. */
  lemma UnreadCount(s: Store, kind: DatasetKind, state: MaterializationState, from: Option<int>, until: int)
    ensures |Filter(NewEvents(s, kind, state), Stamped(from, until))|
         == |Filter(s.events, UnreadStamped(kind, state.cursor, from, until))|
  {
    var mine := Filter(s.events, OfKind(kind));
    var added := Filter(mine, AfterCursor(state.cursor));
    EventOrder();
    FilterSortBy(mine, EventLeq, AfterCursor(state.cursor));
    FilterSortBy(added, EventLeq, Stamped(from, until));
    SortByPermutes(Filter(added, Stamped(from, until)), EventLeq);
    FilterBoth(s.events, OfKind(kind), AfterCursor(state.cursor), Unread(kind, state.cursor));
    FilterBoth(s.events, Unread(kind, state.cursor), Stamped(from, until), UnreadStamped(kind, state.cursor, from, until));
  }

  lemma NoneLate(added: seq<Event>)
    ensures |Filter(added, InsidePolicyLate(None, None))| == 0 && |Filter(added, OutsidePolicy(None))| == 0
  {
    FilterNone(added, InsidePolicyLate(None, None));
    FilterNone(added, OutsidePolicy(None));
  }

  lemma LateByStamp(c: Config, added: seq<Event>, t: int)
    ensures var boundary, oldest := PolicyBoundary(c, Some(t)), t - c.lateEventMinutes * MINUTE;
            && |Filter(added, InsidePolicyLate(boundary, Some(t)))| == |Filter(added, Stamped(Some(oldest), t))|
            && |Filter(added, OutsidePolicy(boundary))| == |Filter(added, Stamped(None, oldest))|
  {
    var boundary, oldest := PolicyBoundary(c, Some(t)), t - c.lateEventMinutes * MINUTE;
    FilterAgree(added, InsidePolicyLate(boundary, Some(t)), Stamped(Some(oldest), t));
    FilterAgree(added, OutsidePolicy(boundary), Stamped(None, oldest));
  }

  lemma CountsAfter(c: Config, s: Store, kind: DatasetKind, now: int)
    requires c.windowMinutes > 0 && kind in s.states && HasNewRows(s, kind, s.states[kind])
    ensures var state, after := s.states[kind], Materialized(c, s, kind, false, now);
            && kind in after.states
            && after.states[kind].lateWithin
               == |Filter(NewEvents(s, kind, state), InsidePolicyLate(PolicyBoundary(c, state.watermark), state.watermark))|
            && after.states[kind].lateOutside
               == |Filter(NewEvents(s, kind, state), OutsidePolicy(PolicyBoundary(c, state.watermark)))|
  {
  }

  /** So many new events are stamped in the late-event interval before a watermark, and before it. */
  ghost predicate CountsLate(c: Config, s: Store, state: MaterializationState, kind: DatasetKind, t: int, within: int,
                             outside: int) {
    var oldest := t - c.lateEventMinutes * MINUTE;
    && within == |Filter(s.events, UnreadStamped(kind, state.cursor, Some(oldest), t))|
    && outside == |Filter(s.events, UnreadStamped(kind, state.cursor, None, oldest))|
  }

  lemma CountedBy(c: Config, s: Store, kind: DatasetKind, state: MaterializationState, t: int)
    ensures CountsLate(c, s, state, kind, t,
                       |Filter(NewEvents(s, kind, state), InsidePolicyLate(PolicyBoundary(c, Some(t)), Some(t)))|,
                       |Filter(NewEvents(s, kind, state), OutsidePolicy(PolicyBoundary(c, Some(t))))|)
  {
    LateByStamp(c, NewEvents(s, kind, state), t);
    UnreadCount(s, kind, state, Some(t - c.lateEventMinutes * MINUTE), t);
    UnreadCount(s, kind, state, None, t - c.lateEventMinutes * MINUTE);
  }

  /** A call counts as late the new events stamped before the watermark: within the policy those no older
      than the late-event interval, outside it the others. */
  lemma LateCounted(c: Config, s: Store, kind: DatasetKind, now: int)
    requires c.windowMinutes > 0 && kind in s.states && HasNewRows(s, kind, s.states[kind])
    ensures var state, after := s.states[kind], Materialized(c, s, kind, false, now);
            && kind in after.states
            && match state.watermark
               case None => after.states[kind].lateWithin == 0 && after.states[kind].lateOutside == 0
               case Some(t) =>
                 CountsLate(c, s, state, kind, t, after.states[kind].lateWithin, after.states[kind].lateOutside)
  {
    var state := s.states[kind];
    CountsAfter(c, s, kind, now);
    if state.watermark.None? {
      NoneLate(NewEvents(s, kind, state));
    } else {
      CountedBy(c, s, kind, state, state.watermark.value);
    }
  }

  /** A full call counts no event as late. */
  lemma NoneLateInFull(c: Config, s: Store, kind: DatasetKind, rebuild: bool, now: int)
    requires c.windowMinutes > 0 && (rebuild || kind !in s.states)
    ensures var after := Materialized(c, s, kind, rebuild, now);
            && kind in after.states && after.states[kind].lateWithin == 0 && after.states[kind].lateOutside == 0
            && after.late == s.late
  {
  }

  // --- The late-event table ----------------------------------------------------------------

  /** What is written down about a late event. */
  ghost predicate IsRecordOf(record: LateRecord, e: Event, c: Config, watermark: int) {
    && record.timestamp == e.timestamp && record.ingestedAt == e.ingestedAt
    && record.boundary == watermark - c.lateEventMinutes * MINUTE
    && (record.withinPolicy <==> watermark - c.lateEventMinutes * MINUTE <= e.timestamp)
  }

  lemma {:induction false} RecordedExactly(c: Config, late: map<LateKey, LateRecord>, kind: DatasetKind, events: seq<Event>,
                                           watermark: int, key: LateKey)
    requires c.lateEventMinutes >= 0
    ensures var after := RecordLate(late, kind, events, PolicyBoundary(c, Some(watermark)), Some(watermark));
            && (key in late ==> key in after && after[key] == late[key])
            && (key in after && key !in late ==>
                  key.kind == kind
                  && exists e :: e in events && e.id == key.eventId && e.timestamp < watermark
                                 && IsRecordOf(after[key], e, c, watermark))
            && (key.kind == kind && (exists e :: e in events && e.id == key.eventId && e.timestamp < watermark)
                ==> key in after)
  {
    if events != [] {
      var init, last := events[..|events| - 1], events[|events| - 1];
      assert events == init + [last];
      RecordedExactly(c, late, kind, init, watermark, key);
      var before := RecordLate(late, kind, init, PolicyBoundary(c, Some(watermark)), Some(watermark));
      var after := RecordLate(late, kind, events, PolicyBoundary(c, Some(watermark)), Some(watermark));
      if key in after && key !in before {
        assert last in events && IsRecordOf(after[key], last, c, watermark);
      } else if key in before && key !in late {
        var e :| e in init && e.id == key.eventId && e.timestamp < watermark && IsRecordOf(before[key], e, c, watermark);
        assert e in events;
      }
    }
  }

  lemma {:induction false} NothingRecorded(late: map<LateKey, LateRecord>, kind: DatasetKind, events: seq<Event>)
    ensures RecordLate(late, kind, events, None, None) == late
  {
    if events != [] {
      NothingRecorded(late, kind, events[..|events| - 1]);
    }
  }

  lemma UnreadMembers(s: Store, kind: DatasetKind, state: MaterializationState, until: int)
    ensures forall e :: e in NewEvents(s, kind, state) && e.timestamp < until
                        <==> e in s.events && UnreadStamped(kind, state.cursor, None, until)(e)
  {
    NewEventsMembers(s, kind, state);
  }

  /** A call writes down every new event stamped before the watermark once, with its times and on which side
      of the policy it lies, and leaves what was written down before. */
  lemma LateRecorded(c: Config, s: Store, kind: DatasetKind, now: int, key: LateKey)
    requires ValidConfig(c) && kind in s.states && HasNewRows(s, kind, s.states[kind])
    ensures var state, late := s.states[kind], Materialized(c, s, kind, false, now).late;
            && (key in s.late ==> key in late && late[key] == s.late[key])
            && match state.watermark
               case None => late == s.late
               case Some(t) =>
                 && (key in late && key !in s.late ==>
                       key.kind == kind
                       && exists e :: && e in s.events && UnreadStamped(kind, state.cursor, None, t)(e)
                                      && e.id == key.eventId && IsRecordOf(late[key], e, c, t))
                 && (forall e :: (e in s.events && UnreadStamped(kind, state.cursor, None, t)(e)
                                  && key == LateKey(kind, e.id)) ==> key in late)
  {
    var state := s.states[kind];
    var added := NewEvents(s, kind, state);
    if state.watermark.None? {
      NothingRecorded(s.late, kind, added);
    } else {
      UnreadMembers(s, kind, state, state.watermark.value);
      RecordedExactly(c, s.late, kind, added, state.watermark.value, key);
    }
  }

  // --- A late event that is kept -----------------------------------------------------------

  /** Half past one, ingested after an event from two o'clock. */
  const HALF_HOUR_LATE := Event("c", 5_400_000_000, "user", "host", "agent", SystemMetrics(0.0, 0.0), true, 1)
  const HALF_PAST_ONE := WindowKey(Profile("user", "host"), 5_400_000_000)

  lemma LateArrives(s: Store)
    requires s == Materialized(DEFAULTS, BeforeLate(), Synthetic, false, 0)
    ensures InStep(DEFAULTS, s.(events := [ON_TIME, HALF_HOUR_LATE]))
  {
    ExampleBefore(s);
    ExampleState(s);
    assert s.events + [HALF_HOUR_LATE] == [ON_TIME, HALF_HOUR_LATE];
    StepStaysInStep(DEFAULTS, s, Ingest([HALF_HOUR_LATE]));
  }

  lemma LateStored(s: Store)
    requires s.events == [ON_TIME, HALF_HOUR_LATE]
    ensures HALF_PAST_ONE in RebuiltOf(DEFAULTS, s, Synthetic)
  {
    FilterMembers(s.events, OfKind(Synthetic));
    SortByPermutes(Filter(s.events, OfKind(Synthetic)), EventLeq);
    assert HALF_HOUR_LATE in s.events;
    assert KeyOf(HALF_HOUR_LATE, 15) == HALF_PAST_ONE;
  }

  lemma UnreadIsLate(s: Store, from: Option<int>, until: int)
    requires s.events == [ON_TIME, HALF_HOUR_LATE] && Synthetic in s.states
    requires s.states[Synthetic].cursor == Some(CursorOf(ON_TIME))
    ensures |Filter(s.events, UnreadStamped(Synthetic, s.states[Synthetic].cursor, from, until))| ==
            if (from.Some? ==> from.value <= 5_400_000_000) && 5_400_000_000 < until then 1 else 0
  {
    var unread := UnreadStamped(Synthetic, s.states[Synthetic].cursor, from, until);
    TextLeqTotal("a", "a");
    assert s.events[..1] == [ON_TIME] && [ON_TIME][..0] == [];
    assert Filter([ON_TIME], unread) == [];
  }

  /** In the default configuration an event that is half an hour late is kept: its window is built, it is
      counted and written down as within the policy, and the table is the rebuild's. */
  lemma LateKept()
    ensures var s := Materialized(DEFAULTS, BeforeLate(), Synthetic, false, 0).(events := [ON_TIME, HALF_HOUR_LATE]);
            var after := Materialized(DEFAULTS, s, Synthetic, false, 0);
            && HALF_PAST_ONE in TableOf(after, Synthetic)
            && TableOf(after, Synthetic) == RebuiltOf(DEFAULTS, s, Synthetic)
            && Synthetic in after.states
            && after.states[Synthetic].lateWithin == 1 && after.states[Synthetic].lateOutside == 0
            && LateKey(Synthetic, "c") in after.late
            && after.late[LateKey(Synthetic, "c")] == LateRecord(5_400_000_000, 1, 3_600_000_000, true)
  {
    var before := Materialized(DEFAULTS, BeforeLate(), Synthetic, false, 0);
    ExampleState(before);
    LateArrives(before);
    assert before.late == map[];
    KeptIn(before.(events := [ON_TIME, HALF_HOUR_LATE]));
  }

  lemma LateIsNew(s: Store)
    requires s.events == [ON_TIME, HALF_HOUR_LATE] && Synthetic in s.states
    requires s.states[Synthetic].cursor == Some(CursorOf(ON_TIME))
    ensures HALF_HOUR_LATE in NewEvents(s, Synthetic, s.states[Synthetic])
    ensures HasNewRows(s, Synthetic, s.states[Synthetic])
  {
    NewEventsMembers(s, Synthetic, s.states[Synthetic]);
    assert HALF_HOUR_LATE in s.events;
  }

  lemma KeptIn(s: Store)
    requires InStep(DEFAULTS, s) && s.events == [ON_TIME, HALF_HOUR_LATE] && Synthetic in s.states && s.late == map[]
    requires s.states[Synthetic].cursor == Some(CursorOf(ON_TIME))
    requires s.states[Synthetic].watermark == Some(7_200_000_000)
    ensures var after := Materialized(DEFAULTS, s, Synthetic, false, 0);
            && HALF_PAST_ONE in TableOf(after, Synthetic)
            && TableOf(after, Synthetic) == RebuiltOf(DEFAULTS, s, Synthetic)
            && Synthetic in after.states
            && after.states[Synthetic].lateWithin == 1 && after.states[Synthetic].lateOutside == 0
            && LateKey(Synthetic, "c") in after.late
            && after.late[LateKey(Synthetic, "c")] == LateRecord(5_400_000_000, 1, 3_600_000_000, true)
  {
    LateIsNew(s);
    LateStored(s);
    InRangeExactly(DEFAULTS, s, 0);
    OnTimeIsInRange(DEFAULTS, s, 0);
    IncrementalExact(DEFAULTS, s, 0);
    LateCounted(DEFAULTS, s, Synthetic, 0);
    UnreadIsLate(s, Some(3_600_000_000), 7_200_000_000);
    UnreadIsLate(s, None, 3_600_000_000);
    WrittenDown(s);
  }

  lemma WrittenDown(s: Store)
    requires s.events == [ON_TIME, HALF_HOUR_LATE] && Synthetic in s.states && s.late == map[]
    requires s.states[Synthetic].cursor == Some(CursorOf(ON_TIME))
    requires s.states[Synthetic].watermark == Some(7_200_000_000)
    ensures var late := Materialized(DEFAULTS, s, Synthetic, false, 0).late;
            && LateKey(Synthetic, "c") in late
            && late[LateKey(Synthetic, "c")] == LateRecord(5_400_000_000, 1, 3_600_000_000, true)
  {
    LateIsNew(s);
    LateRecorded(DEFAULTS, s, Synthetic, 0, LateKey(Synthetic, "c"));
    assert HALF_HOUR_LATE in s.events && HALF_HOUR_LATE.id == "c";
    assert UnreadStamped(Synthetic, s.states[Synthetic].cursor, None, 7_200_000_000)(HALF_HOUR_LATE) by {
      LateAfterFirst();
    }
    assert ON_TIME.id != "c";
  }

  lemma LateAfterFirst()
    ensures UnreadStamped(Synthetic, Some(CursorOf(ON_TIME)), None, 7_200_000_000)(HALF_HOUR_LATE)
  {
  }
}
