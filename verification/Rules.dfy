/**
 The five detection rules. Each compares feature values of one window with its configured
 gates and gives a strength between 0 and 100. Feature values are exact reals.
 */
module Rules {
  import opened Sequences

  datatype Features = Features(
    processCount: real, newProcessCount: real, networkConnectionCount: real, newRemoteCount: real,
    avgCpuPercent: real, maxCpuPercent: real, avgRamPercent: real, maxRamPercent: real,
    authSuccessCount: real, authFailureCount: real, hourOfDay: real, activityDensity: real)

  datatype RuleConfig =
    | RareProcess(newProcessMin: int, processMin: int, activityMin: real, baseStrength: int)
    | NewRemoteSpike(newRemoteMin: int, networkMin: int, activityMin: real, baseStrength: int)
    | UnusualHour(startHour: int, endHour: int, activityMin: real, processNetworkMin: real, baseStrength: int)
    | ResourcePressure(avgCpuMin: real, maxCpuMin: real, avgRamMin: real, maxRamMin: real, baseStrength: int)
    | AuthenticationFailureBurst(failureMin: int, successMax: int, activityMin: real, baseStrength: int)

  datatype Rule = Rule(id: string, enabled: bool, config: RuleConfig)

  /** The bound that configuration validation puts on every rule. */
  ghost predicate ValidRule(rule: Rule) { 1 <= rule.config.baseStrength <= 100 }

  datatype Signal = Signal(id: string, strength: int, matched: bool)

  /** Python's `int`: rounds towards zero. */
  function Truncate(x: real): int {
    if x >= 0.0 then x.Floor else -((-x).Floor)
  }

  function AtMost100(strength: int): int { if strength > 100 then 100 else strength }

  function Positive(x: real): real { if x > 0.0 then x else 0.0 }

  function Smaller(x: real, y: real): real { if y < x then y else x }

  function Larger(x: real, y: real): real { if y > x then y else x }

  predicate Matches(x: Features, rule: Rule) {
    rule.enabled &&
    match rule.config
    case RareProcess(newProcessMin, processMin, activityMin, _) =>
      x.newProcessCount >= newProcessMin as real && x.processCount >= processMin as real && x.activityDensity >= activityMin
    case NewRemoteSpike(newRemoteMin, networkMin, activityMin, _) =>
      x.newRemoteCount >= newRemoteMin as real && x.networkConnectionCount >= networkMin as real
      && x.activityDensity >= activityMin
    case UnusualHour(startHour, endHour, activityMin, processNetworkMin, _) =>
      (Truncate(x.hourOfDay) >= startHour || Truncate(x.hourOfDay) <= endHour)
      && x.activityDensity >= activityMin && x.processCount + x.networkConnectionCount >= processNetworkMin
    case ResourcePressure(avgCpuMin, maxCpuMin, avgRamMin, maxRamMin, _) =>
      x.avgCpuPercent >= avgCpuMin || x.maxCpuPercent >= maxCpuMin || x.avgRamPercent >= avgRamMin
      || x.maxRamPercent >= maxRamMin
    case AuthenticationFailureBurst(failureMin, successMax, activityMin, _) =>
      x.authFailureCount >= failureMin as real && x.authSuccessCount <= successMax as real
      && x.activityDensity >= activityMin
  }

  /** How far the observed values exceed the gate, in strength points. */
  function Excess(x: Features, config: RuleConfig): real {
    match config
    case RareProcess(_, _, _, _) => Positive(x.newProcessCount - 1.0) * 5.0
    case NewRemoteSpike(newRemoteMin, _, _, _) => Positive(x.newRemoteCount - newRemoteMin as real) * 2.0
    case UnusualHour(_, _, activityMin, _, _) => Positive(x.activityDensity - activityMin)
    case ResourcePressure(avgCpuMin, maxCpuMin, avgRamMin, maxRamMin, _) =>
      Positive(Larger(x.maxCpuPercent, x.maxRamPercent)
               - Smaller(Smaller(Smaller(avgCpuMin, maxCpuMin), avgRamMin), maxRamMin))
    case AuthenticationFailureBurst(failureMin, _, _, _) => Positive(x.authFailureCount - failureMin as real) * 3.0
  }

  function EvaluateRule(x: Features, rule: Rule): Signal {
    if Matches(x, rule)
    then Signal(rule.id, AtMost100(Truncate(rule.config.baseStrength as real + Excess(x, rule.config))), true)
    else Signal(rule.id, 0, false)
  }

  function EvaluateRules(x: Features, rules: seq<Rule>): (signals: seq<Signal>)
    ensures |signals| == |rules|
  {
    if rules == [] then []
    else EvaluateRules(x, rules[..|rules| - 1]) + [EvaluateRule(x, rules[|rules| - 1])]
  }

  // --- Monotonicity ------------------------------------------------------------------------

  /** No feature is lower in y; the hour and the number of successful logins are the same. */
  ghost predicate Raised(x: Features, y: Features) {
    && x.processCount <= y.processCount && x.newProcessCount <= y.newProcessCount
    && x.networkConnectionCount <= y.networkConnectionCount && x.newRemoteCount <= y.newRemoteCount
    && x.avgCpuPercent <= y.avgCpuPercent && x.maxCpuPercent <= y.maxCpuPercent
    && x.avgRamPercent <= y.avgRamPercent && x.maxRamPercent <= y.maxRamPercent
    && x.authFailureCount <= y.authFailureCount && x.activityDensity <= y.activityDensity
    && x.authSuccessCount == y.authSuccessCount && x.hourOfDay == y.hourOfDay
  }

  /** A signal that is at least as strong, and matched whenever the other is. */
  ghost predicate Dominated(a: Signal, b: Signal) {
    a.id == b.id && (a.matched ==> b.matched) && 0 <= a.strength <= b.strength <= 100
  }

  lemma TruncateMonotone(x: real, y: real)
    requires 0.0 <= x <= y
    ensures 0 <= Truncate(x) <= Truncate(y)
  {
  }

  lemma RuleMonotone(x: Features, y: Features, rule: Rule)
    requires Raised(x, y) && ValidRule(rule)
    ensures Dominated(EvaluateRule(x, rule), EvaluateRule(y, rule))
  {
    var base := rule.config.baseStrength as real;
    assert 0.0 <= Excess(x, rule.config) <= Excess(y, rule.config);
    TruncateMonotone(base + Excess(x, rule.config), base + Excess(y, rule.config));
  }

  lemma {:induction false} RulesMonotone(x: Features, y: Features, rules: seq<Rule>)
    requires Raised(x, y) && forall rule :: rule in rules ==> ValidRule(rule)
    ensures forall i :: 0 <= i < |rules| ==> Dominated(EvaluateRules(x, rules)[i], EvaluateRules(y, rules)[i])
  {
    if rules != [] {
      RulesMonotone(x, y, rules[..|rules| - 1]);
      RuleMonotone(x, y, rules[|rules| - 1]);
    }
  }
}
