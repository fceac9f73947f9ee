/**
 What each detection rule reads off a window: its exact gates and points, on the window's features and
 on the events that the window was built from.
 */
module RuleReadings {
  import opened Sequences
  import opened Tables
  import opened Windows
  import opened Materialization
  import opened RangeAgreement
  import opened StoredWindows
  import opened Rules
  import opened Decision
  import opened Pipeline

  // --- Gates and points --------------------------------------------------------------------

  /** A signal of a rule with so many points when it matched, cut at 100, and none otherwise. */
  ghost predicate Signals(signal: Signal, rule: Rule, points: int) {
    signal.id == rule.id && signal.strength == if signal.matched then Min(100, points) else 0
  }

  /** New processes: five points for each new process but the first. */
  lemma RareProcessExactly(v: FeatureValues, rule: Rule)
    requires ValidRule(rule) && rule.config.RareProcess?
    ensures var signal := EvaluateRule(FeaturesOf(v), rule);
            && (signal.matched <==>
                  && rule.enabled && v.newProcessCount >= rule.config.newProcessMin
                  && v.processCount >= rule.config.processMin && v.activityDensity >= rule.config.activityMin)
            && Signals(signal, rule, rule.config.baseStrength + 5 * Max(0, v.newProcessCount - 1))
  {
  }

  /** New remotes: two points for each one above the gate. */
  lemma NewRemoteExactly(v: FeatureValues, rule: Rule)
    requires ValidRule(rule) && rule.config.NewRemoteSpike?
    ensures var signal := EvaluateRule(FeaturesOf(v), rule);
            && (signal.matched <==>
                  && rule.enabled && v.newRemoteCount >= rule.config.newRemoteMin
                  && v.networkConnectionCount >= rule.config.networkMin && v.activityDensity >= rule.config.activityMin)
            && Signals(signal, rule, rule.config.baseStrength + 2 * Max(0, v.newRemoteCount - rule.config.newRemoteMin))
  {
  }

  /** Failed logins: three points for each one above the gate. */
  lemma FailureBurstExactly(v: FeatureValues, rule: Rule)
    requires ValidRule(rule) && rule.config.AuthenticationFailureBurst?
    ensures var signal := EvaluateRule(FeaturesOf(v), rule);
            && (signal.matched <==>
                  && rule.enabled && v.authFailureCount >= rule.config.failureMin
                  && v.authSuccessCount <= rule.config.successMax && v.activityDensity >= rule.config.activityMin)
            && Signals(signal, rule, rule.config.baseStrength + 3 * Max(0, v.authFailureCount - rule.config.failureMin))
  {
  }

  /** Unusual hours: one point for each whole event per minute above the gate. */
  lemma UnusualHourExactly(v: FeatureValues, rule: Rule)
    requires ValidRule(rule) && rule.config.UnusualHour?
    ensures var signal := EvaluateRule(FeaturesOf(v), rule);
            && (signal.matched <==>
                  && rule.enabled && (v.hourOfDay >= rule.config.startHour || v.hourOfDay <= rule.config.endHour)
                  && v.activityDensity >= rule.config.activityMin
                  && (v.processCount + v.networkConnectionCount) as real >= rule.config.processNetworkMin)
            && Signals(signal, rule, rule.config.baseStrength + Max(0, (v.activityDensity - rule.config.activityMin).Floor))
  {
    WholePoints(rule.config.baseStrength, v.activityDensity - rule.config.activityMin);
  }

  /** Pressure: one point for each whole percent by which the greater peak exceeds the least gate. */
  lemma ResourcePressureExactly(v: FeatureValues, rule: Rule, least: real, peak: real)
    requires ValidRule(rule) && rule.config.ResourcePressure?
    requires least in {rule.config.avgCpuMin, rule.config.maxCpuMin, rule.config.avgRamMin, rule.config.maxRamMin}
    requires && least <= rule.config.avgCpuMin && least <= rule.config.maxCpuMin
             && least <= rule.config.avgRamMin && least <= rule.config.maxRamMin
    requires peak in {v.maxCpuPercent, v.maxRamPercent} && v.maxCpuPercent <= peak && v.maxRamPercent <= peak
    ensures var signal := EvaluateRule(FeaturesOf(v), rule);
            && (signal.matched <==>
                  && rule.enabled
                  && (|| v.avgCpuPercent >= rule.config.avgCpuMin || v.maxCpuPercent >= rule.config.maxCpuMin
                      || v.avgRamPercent >= rule.config.avgRamMin || v.maxRamPercent >= rule.config.maxRamMin))
            && Signals(signal, rule, rule.config.baseStrength + Max(0, (peak - least).Floor))
  {
    assert Excess(FeaturesOf(v), rule.config) == Positive(peak - least);
    WholePoints(rule.config.baseStrength, peak - least);
  }

  lemma WholePoints(base: int, excess: real)
    requires 1 <= base
    ensures Truncate(base as real + Positive(excess)) == base + Max(0, excess.Floor)
  {
  }

  // --- On events ---------------------------------------------------------------------------

  /** The different payloads among some events that none of the earlier events has. */
  ghost function NewPayloads(group: seq<Event>, earlier: seq<Event>, kind: EventType): set<Payload> {
    set e | e in group && HasType(kind)(e) && !HasPayload(earlier, e.payload) :: e.payload
  }

  /** What there is to count about the events of a window. */
  datatype Counts = Counts(events: nat, names: nat, newNames: nat, remotes: nat, newRemotes: nat, failures: nat, successes: nat)

  ghost function CountsOf(group: seq<Event>, earlier: seq<Event>): Counts {
    Counts(|group|,
           |NewPayloads(group, [], ProcessEvent)|, |NewPayloads(group, earlier, ProcessEvent)|,
           |NewPayloads(group, [], NetworkEvent)|, |NewPayloads(group, earlier, NetworkEvent)|,
           |Filter(group, IsLogin(false))|, |Filter(group, IsLogin(true))|)
  }

  /** When a rule fires on a window, by what its events are. */
  ghost predicate FiresOn(config: RuleConfig, n: Counts, group: seq<Event>, start: int, w: int) {
    match config
    case RareProcess(newProcessMin, processMin, activityMin, _) =>
      n.newNames >= newProcessMin && n.names >= processMin && n.events as real >= activityMin * w as real
    case NewRemoteSpike(newRemoteMin, networkMin, activityMin, _) =>
      n.newRemotes >= newRemoteMin && n.remotes >= networkMin && n.events as real >= activityMin * w as real
    case UnusualHour(startHour, endHour, activityMin, processNetworkMin, _) =>
      && (startHour * HOUR <= start % DAY || start % DAY < (endHour + 1) * HOUR)
      && n.events as real >= activityMin * w as real && (n.names + n.remotes) as real >= processNetworkMin
    case ResourcePressure(_, _, _, _, _) => PressureIn(config, group)
    case AuthenticationFailureBurst(failureMin, successMax, activityMin, _) =>
      n.failures >= failureMin && n.successes <= successMax && n.events as real >= activityMin * w as real
  }

  /** A mean or a peak of the readings reaches its gate. */
  ghost predicate PressureIn(config: RuleConfig, group: seq<Event>)
    requires config.ResourcePressure?
  {
    || (exists x :: IsMean(x, group, false) && x >= config.avgCpuMin)
    || (exists x :: IsPeak(x, group, false) && x >= config.maxCpuMin)
    || (exists x :: IsMean(x, group, true) && x >= config.avgRamMin)
    || (exists x :: IsPeak(x, group, true) && x >= config.maxRamMin)
  }

  lemma DensityGate(density: real, count: nat, w: int, gate: real)
    requires w > 0 && density * w as real == count as real
    ensures density >= gate <==> count as real >= gate * w as real
  {
    assert density * w as real - gate * w as real == (density - gate) * w as real;
  }

  /** Process payloads are as many as the names they carry. */
  lemma {:induction false} NamesAsPayloads(names: set<string>, payloads: set<Payload>)
    requires forall p :: p in payloads ==> p.Process?
    requires forall name :: name in names <==> Process(name) in payloads
    ensures |names| == |payloads|
  {
    assert forall p :: p in payloads ==> p.name in names;
    if names != {} {
      var name :| name in names;
      NamesAsPayloads(names - {name}, payloads - {Process(name)});
    }
  }

  lemma NamesCountedAsPayloads(f: FeatureValues, group: seq<Event>, earlier: seq<Event>)
    requires DescribesCounts(f, group) && DescribesNew(f, group, earlier)
    ensures f.processCount == |NewPayloads(group, [], ProcessEvent)|
    ensures f.newProcessCount == |NewPayloads(group, earlier, ProcessEvent)|
  {
    assert forall payload :: !HasPayload([], payload);
    NamesAsPayloads(set e | e in group && e.payload.Process? :: e.payload.name, NewPayloads(group, [], ProcessEvent));
    NamesAsPayloads(set e | e in group && e.payload.Process? && !HasPayload(earlier, e.payload) :: e.payload.name,
                    NewPayloads(group, earlier, ProcessEvent));
  }

  lemma RemotesCountedAsPayloads(f: FeatureValues, group: seq<Event>, earlier: seq<Event>)
    requires DescribesCounts(f, group) && DescribesNew(f, group, earlier)
    ensures f.networkConnectionCount == |NewPayloads(group, [], NetworkEvent)|
    ensures f.newRemoteCount == |NewPayloads(group, earlier, NetworkEvent)|
  {
    assert forall payload :: !HasPayload([], payload);
    assert NewPayloads(group, [], NetworkEvent) == set e | e in group && e.payload.Network? :: e.payload;
    assert NewPayloads(group, earlier, NetworkEvent)
        == set e | e in group && e.payload.Network? && !HasPayload(earlier, e.payload) :: e.payload;
  }

  lemma MeanUnique(x: real, y: real, group: seq<Event>, ram: bool)
    requires IsMean(x, group, ram) && IsMean(y, group, ram)
    ensures x == y
  {
    OneMean(x, y, |Filter(group, IsReading())|, Total(group, ram));
  }

  lemma OneMean(x: real, y: real, count: nat, total: real)
    requires MeanOver(x, count, total) && MeanOver(y, count, total)
    ensures x == y
  {
    if count > 0 {
      var n := count as real;
      assert x * n == total && y * n == total;
      SameFactor(x, y, n);
    }
  }

  lemma SameFactor(x: real, y: real, n: real)
    requires n > 0.0 && x * n == y * n
    ensures x == y
  {
    var d := x - y;
    assert d * n == 0.0;
    assert d > 0.0 ==> d * n > 0.0;
    assert d < 0.0 ==> d * n < 0.0;
  }

  lemma PeakUnique(x: real, y: real, group: seq<Event>, ram: bool)
    requires IsPeak(x, group, ram) && IsPeak(y, group, ram)
    ensures x == y
  {
  }

  lemma PressureOnEvents(f: FeatureValues, group: seq<Event>, config: RuleConfig)
    requires DescribesReadings(f, group) && config.ResourcePressure?
    ensures PressureIn(config, group) <==>
            || f.avgCpuPercent >= config.avgCpuMin || f.maxCpuPercent >= config.maxCpuMin
            || f.avgRamPercent >= config.avgRamMin || f.maxRamPercent >= config.maxRamMin
  {
    forall x ensures IsMean(x, group, false) <==> x == f.avgCpuPercent {
      if IsMean(x, group, false) { MeanUnique(x, f.avgCpuPercent, group, false); }
    }
    forall x ensures IsMean(x, group, true) <==> x == f.avgRamPercent {
      if IsMean(x, group, true) { MeanUnique(x, f.avgRamPercent, group, true); }
    }
    forall x ensures IsPeak(x, group, false) <==> x == f.maxCpuPercent {
      if IsPeak(x, group, false) { PeakUnique(x, f.maxCpuPercent, group, false); }
    }
    forall x ensures IsPeak(x, group, true) <==> x == f.maxRamPercent {
      if IsPeak(x, group, true) { PeakUnique(x, f.maxRamPercent, group, true); }
    }
  }

  /** Features that hold these counts, a density and an hour. */
  ghost predicate Holds(f: FeatureValues, n: Counts, start: int, w: int) {
    && f.processCount == n.names && f.newProcessCount == n.newNames
    && f.networkConnectionCount == n.remotes && f.newRemoteCount == n.newRemotes
    && f.authFailureCount == n.failures && f.authSuccessCount == n.successes
    && f.activityDensity * w as real == n.events as real
    && f.hourOfDay * HOUR <= start % DAY < (f.hourOfDay + 1) * HOUR
  }

  lemma DescribedHolds(f: FeatureValues, group: seq<Event>, earlier: seq<Event>, start: int, w: int)
    requires Describes(f, group, start, w) && DescribesNew(f, group, earlier)
    ensures Holds(f, CountsOf(group, earlier), start, w)
  {
    NamesCountedAsPayloads(f, group, earlier);
    RemotesCountedAsPayloads(f, group, earlier);
  }

  lemma HourGate(hour: nat, start: int, first: int, last: int)
    requires hour * HOUR <= start % DAY < (hour + 1) * HOUR
    ensures hour >= first <==> first * HOUR <= start % DAY
    ensures hour <= last <==> start % DAY < (last + 1) * HOUR
  {
  }

  lemma HourOnCounts(f: FeatureValues, n: Counts, group: seq<Event>, start: int, w: int, rule: Rule)
    requires w > 0 && Holds(f, n, start, w) && ValidRule(rule) && rule.config.UnusualHour?
    ensures EvaluateRule(FeaturesOf(f), rule).matched <==> rule.enabled && FiresOn(rule.config, n, group, start, w)
  {
    UnusualHourExactly(f, rule);
    DensityGate(f.activityDensity, n.events, w, rule.config.activityMin);
    HourGate(f.hourOfDay, start, rule.config.startHour, rule.config.endHour);
  }

  /** Except for pressure, the gates are about the counts. */
  lemma GatesOnCounts(f: FeatureValues, n: Counts, group: seq<Event>, start: int, w: int, rule: Rule)
    requires w > 0 && Holds(f, n, start, w) && ValidRule(rule)
    requires rule.config.ResourcePressure? ==> DescribesReadings(f, group)
    ensures EvaluateRule(FeaturesOf(f), rule).matched <==> rule.enabled && FiresOn(rule.config, n, group, start, w)
  {
    match rule.config
    case RareProcess(_, _, activityMin, _) =>
      RareProcessExactly(f, rule);
      DensityGate(f.activityDensity, n.events, w, activityMin);
    case NewRemoteSpike(_, _, activityMin, _) =>
      NewRemoteExactly(f, rule);
      DensityGate(f.activityDensity, n.events, w, activityMin);
    case UnusualHour(_, _, _, _, _) => HourOnCounts(f, n, group, start, w, rule);
    case ResourcePressure(_, _, _, _, _) => PressureOnEvents(f, group, rule.config);
    case AuthenticationFailureBurst(_, _, activityMin, _) =>
      FailureBurstExactly(f, rule);
      DensityGate(f.activityDensity, n.events, w, activityMin);
  }

  /** From the event table to the signal: on the window that a rebuild stores, a rule matches exactly when it
      is enabled and the window's events pass its gates. */
  lemma RuleOnEvents(c: Config, s: Store, kind: DatasetKind, k: WindowKey, rule: Rule)
    requires ValidConfig(c) && k in RebuiltOf(c, s, kind) && ValidRule(rule)
    ensures EvaluateRule(FeaturesOf(RebuiltOf(c, s, kind)[k].features), rule).matched <==>
            && rule.enabled
            && var group := RowsOf(s, kind, k, c.windowMinutes);
               FiresOn(rule.config, CountsOf(group, RowsBefore(s, kind, k)), group, k.start, c.windowMinutes)
  {
    var f, group, earlier := RebuiltOf(c, s, kind)[k].features, RowsOf(s, kind, k, c.windowMinutes), RowsBefore(s, kind, k);
    WindowDescribed(c, s, kind, k);
    DescribedHolds(f, group, earlier, k.start, c.windowMinutes);
    GatesOnCounts(f, CountsOf(group, earlier), group, k.start, c.windowMinutes, rule);
  }

  /** From the stored window to the decision: a window is skipped exactly when the policy's gate does not let its
      quality pass, and a finding on it carries its dataset kind and profile. */
  lemma WindowDecided(c: Config, s: Store, kind: DatasetKind, k: WindowKey, profileKey: string, policy: Policy,
                      model: Option<ModelSignal>, active: seq<Suppression>)
    requires ValidConfig(c) && k in RebuiltOf(c, s, kind) && ValidPolicy(policy) && ModelInBounds(model)
    ensures var d := DecideWindow(InputOf(kind, profileKey, RebuiltOf(c, s, kind)[k]), policy, model, active);
            && (d.status == SkippedStatus <==> RebuiltOf(c, s, kind)[k].quality.status !in policy.qualityGate)
            && (d.finding ==> d.fingerprint.value.datasetKind == kind && d.fingerprint.value.profileKey == profileKey)
  {
    var input := InputOf(kind, profileKey, RebuiltOf(c, s, kind)[k]);
    PolicySignalsInBounds(input, policy, model);
    StatusExactly(input, policy, model, active);
  }
}
