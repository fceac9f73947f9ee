/**
 Fusion of detection signals into one score, its risk level, and how the score answers to
 stronger signals.
 */
module Fusion {
  import opened Sequences
  import opened Rules

  datatype RiskLevel = NoRisk | Low | Medium | High | Critical

  datatype RiskThresholds = RiskThresholds(low: int, medium: int, high: int, critical: int)

  ghost predicate ValidThresholds(t: RiskThresholds) { t.low < t.medium < t.high < t.critical }

  datatype Fused = Fused(score: int, risk: RiskLevel, matchedIds: seq<string>, primary: Option<string>,
                         corroboration: nat, finding: bool)

  function RiskForScore(score: int, t: RiskThresholds): RiskLevel {
    if score >= t.critical then Critical
    else if score >= t.high then High
    else if score >= t.medium then Medium
    else if score >= t.low then Low
    else NoRisk
  }

  function RiskRank(risk: RiskLevel): nat {
    match risk
    case NoRisk => 0
    case Low => 1
    case Medium => 2
    case High => 3
    case Critical => 4
  }

  /** Python's `round`: ties go to the even neighbour. */
  function RoundHalfEven(x: real): int {
    var down := x.Floor;
    var rest := x - down as real;
    if rest < 0.5 || (rest == 0.5 && down % 2 == 0) then down else down + 1
  }

  function Quarter(strength: int): int { RoundHalfEven(strength as real * 0.25) }

  function Matched(): Signal -> bool { (s: Signal) => s.matched }

  predicate StrongestFirst(a: Signal, b: Signal) {
    a.strength > b.strength || (a.strength == b.strength && TextLeq(a.id, b.id))
  }

  function Bonus(signals: seq<Signal>): int {
    if signals == [] then 0 else Bonus(signals[..|signals| - 1]) + Quarter(signals[|signals| - 1].strength)
  }

  function Corroboration(matched: nat): int {
    var bonus := (if matched > 0 then matched - 1 else 0) * 4;
    if bonus > 12 then 12 else bonus
  }

  function Ids(signals: seq<Signal>): seq<string> {
    seq(|signals|, i requires 0 <= i < |signals| => signals[i].id)
  }

  function FuseSignals(signals: seq<Signal>, thresholds: RiskThresholds, findingThreshold: int, suppressed: bool): Fused {
    var matched := SortBy(Filter(signals, Matched()), StrongestFirst);
    if matched == [] then Fused(0, NoRisk, [], None, 0, false)
    else
      var total := matched[0].strength + Bonus(matched[1..]) + Corroboration(|matched|);
      var score := if total > 100 then 100 else total;
      Fused(score, RiskForScore(score, thresholds), Ids(matched), Some(matched[0].id), |matched| - 1,
            score >= findingThreshold && !suppressed)
  }

  // --- An order-free account of the score --------------------------------------------------

  function MatchedCount(signals: seq<Signal>): nat {
    if signals == [] then 0
    else MatchedCount(signals[..|signals| - 1]) + if signals[|signals| - 1].matched then 1 else 0
  }

  /** The strongest matched signal. */
  function Top(signals: seq<Signal>): int {
    if signals == [] then 0
    else
      var top, last := Top(signals[..|signals| - 1]), signals[|signals| - 1];
      if last.matched && last.strength > top then last.strength else top
  }

  function MatchedBonus(signals: seq<Signal>): int {
    if signals == [] then 0
    else
      MatchedBonus(signals[..|signals| - 1])
      + if signals[|signals| - 1].matched then Quarter(signals[|signals| - 1].strength) else 0
  }

  /** The top strength keeps what a quarter of it would add, every match adds its rounded quarter, and
      every match but the first adds four points, up to twelve. */
  function ReferenceScore(signals: seq<Signal>): int {
    if MatchedCount(signals) == 0 then 0
    else
      var extra := if MatchedCount(signals) > 4 then 12 else 4 * MatchedCount(signals) - 4;
      var total := Top(signals) - Quarter(Top(signals)) + MatchedBonus(signals) + extra;
      if total > 100 then 100 else total
  }

  ghost predicate InBounds(signals: seq<Signal>) {
    forall s :: s in signals ==> 0 <= s.strength <= 100
  }

  lemma StrongestFirstOrder()
    ensures TotalOrder(StrongestFirst)
  {
    forall a, b ensures StrongestFirst(a, b) || StrongestFirst(b, a) { TextLeqTotal(a.id, b.id); }
    forall a, b, c | StrongestFirst(a, b) && StrongestFirst(b, c) ensures StrongestFirst(a, c) {
      if a.strength == b.strength == c.strength { TextLeqTransitive(a.id, b.id, c.id); }
    }
  }

  lemma {:induction false} BonusInsert(s: seq<Signal>, x: Signal)
    ensures Bonus(Insert(s, x, StrongestFirst)) == Bonus(s) + Quarter(x.strength)
  {
    if s == [] || StrongestFirst(s[|s| - 1], x) {
      assert (s + [x])[..|s|] == s;
    } else {
      var init, last := s[..|s| - 1], s[|s| - 1];
      BonusInsert(init, x);
      var r := Insert(init, x, StrongestFirst);
      assert (r + [last])[..|r|] == r;
    }
  }

  lemma {:induction false} BonusSorted(s: seq<Signal>)
    ensures Bonus(SortBy(s, StrongestFirst)) == Bonus(s)
  {
    if s != [] {
      BonusSorted(s[..|s| - 1]);
      BonusInsert(SortBy(s[..|s| - 1], StrongestFirst), s[|s| - 1]);
    }
  }

  lemma {:induction false} BonusSplit(s: seq<Signal>)
    requires s != []
    ensures Bonus(s) == Quarter(s[0].strength) + Bonus(s[1..])
  {
    if |s| > 1 {
      BonusSplit(s[..|s| - 1]);
      assert s[1..][..|s| - 2] == s[..|s| - 1][1..];
    }
  }

  lemma {:induction false} MatchedIsFiltered(signals: seq<Signal>)
    ensures MatchedCount(signals) == |Filter(signals, Matched())|
    ensures MatchedBonus(signals) == Bonus(Filter(signals, Matched()))
  {
    if signals != [] {
      var init := signals[..|signals| - 1];
      MatchedIsFiltered(init);
      var f := Filter(init, Matched());
      assert (f + [signals[|signals| - 1]])[..|f|] == f;
    }
  }

  lemma {:induction false} TopIsGreatest(signals: seq<Signal>)
    requires InBounds(signals)
    ensures 0 <= Top(signals) <= 100
    ensures forall s :: s in signals && s.matched ==> s.strength <= Top(signals)
    ensures MatchedCount(signals) > 0 ==> exists s :: s in signals && s.matched && s.strength == Top(signals)
  {
    if signals != [] {
      var init, last := signals[..|signals| - 1], signals[|signals| - 1];
      assert signals == init + [last];
      TopIsGreatest(init);
      if last.matched {
        assert last in signals;
        if last.strength <= Top(init) && MatchedCount(init) > 0 {
          var s :| s in init && s.matched && s.strength == Top(init);
          assert s in signals;
        } else if last.strength <= Top(init) {
          NoMatchNoTop(init);
        }
      } else if MatchedCount(init) > 0 {
        var s :| s in init && s.matched && s.strength == Top(init);
        assert s in signals;
      }
    }
  }

  lemma {:induction false} NoMatchNoTop(signals: seq<Signal>)
    requires MatchedCount(signals) == 0
    ensures Top(signals) == 0
  {
    if signals != [] {
      NoMatchNoTop(signals[..|signals| - 1]);
    }
  }

  /** A matched signal that no other matched signal outranks, ties going to the smaller id. */
  ghost predicate Leads(s: Signal, signals: seq<Signal>) {
    s in signals && s.matched && forall t :: t in signals && t.matched ==> StrongestFirst(s, t)
  }

  lemma SortedLeads(signals: seq<Signal>)
    ensures var matched := SortBy(Filter(signals, Matched()), StrongestFirst);
            && (matched != [] ==> Leads(matched[0], signals))
            && (matched == [] ==> forall s :: s in signals ==> !s.matched)
  {
    var filtered := Filter(signals, Matched());
    var matched := SortBy(filtered, StrongestFirst);
    FilterMembers(signals, Matched());
    SortByPermutes(filtered, StrongestFirst);
    assert forall s :: s in signals && s.matched ==> s in matched;
    if matched != [] {
      StrongestFirstOrder();
      SortBySorted(filtered, StrongestFirst);
      assert matched[0] in matched;
      forall t | t in signals && t.matched ensures StrongestFirst(matched[0], t) {
        assert t in matched;
        var i :| 0 <= i < |matched| && matched[i] == t;
        assert i > 0 ==> StrongestFirst(matched[0], matched[i]);
      }
    }
  }

  /** The sorted fusion computes the order-free score, whatever order the signals come in. */
  lemma FuseIsReference(signals: seq<Signal>, thresholds: RiskThresholds, findingThreshold: int, suppressed: bool)
    requires InBounds(signals)
    ensures FuseSignals(signals, thresholds, findingThreshold, suppressed).score == ReferenceScore(signals)
  {
    var filtered := Filter(signals, Matched());
    var matched := SortBy(filtered, StrongestFirst);
    MatchedIsFiltered(signals);
    SortByPermutes(filtered, StrongestFirst);
    if matched != [] {
      SortedLeads(signals);
      TopIsGreatest(signals);
      BonusSorted(filtered);
      BonusSplit(matched);
    }
  }

  /** A decision names the leading signal as its primary one, exactly when something matched. */
  lemma PrimaryLeads(signals: seq<Signal>, thresholds: RiskThresholds, findingThreshold: int, suppressed: bool)
    ensures var primary := FuseSignals(signals, thresholds, findingThreshold, suppressed).primary;
            && (primary.Some? <==> exists s :: s in signals && s.matched)
            && (primary.Some? ==> exists s :: Leads(s, signals) && s.id == primary.value)
  {
    SortedLeads(signals);
  }

  lemma MatchedIds(signals: seq<Signal>, id: string)
    ensures id in Ids(Filter(signals, Matched())) <==> exists s :: s in signals && s.matched && s.id == id
  {
    FilterMembers(signals, Matched());
    var matched := Filter(signals, Matched());
    if s :| s in signals && s.matched && s.id == id {
      assert s in matched;
      var i :| 0 <= i < |matched| && matched[i] == s;
      assert Ids(matched)[i] == id;
    }
    if id in Ids(matched) {
      var i :| 0 <= i < |Ids(matched)| && Ids(matched)[i] == id;
      assert matched[i] in matched;
    }
  }

  lemma IdsSorted(matched: seq<Signal>, id: string)
    ensures id in Ids(SortBy(matched, StrongestFirst)) <==> id in Ids(matched)
  {
    var sorted := SortBy(matched, StrongestFirst);
    SortByPermutes(matched, StrongestFirst);
    if id in Ids(sorted) {
      var i :| 0 <= i < |Ids(sorted)| && Ids(sorted)[i] == id;
      assert sorted[i] in matched;
      var j :| 0 <= j < |matched| && matched[j] == sorted[i];
      assert Ids(matched)[j] == id;
    }
    if id in Ids(matched) {
      var i :| 0 <= i < |Ids(matched)| && Ids(matched)[i] == id;
      assert matched[i] in sorted;
      var j :| 0 <= j < |sorted| && sorted[j] == matched[i];
      assert Ids(sorted)[j] == id;
    }
  }

  /** A decision lists the ids of exactly the matched signals and counts all but the primary one. */
  lemma MatchesListed(signals: seq<Signal>, thresholds: RiskThresholds, findingThreshold: int, suppressed: bool, id: string)
    ensures var fused := FuseSignals(signals, thresholds, findingThreshold, suppressed);
            && (id in fused.matchedIds <==> exists s :: s in signals && s.matched && s.id == id)
            && |fused.matchedIds| == |Filter(signals, Matched())|
            && (fused.matchedIds != [] ==> fused.corroboration == |fused.matchedIds| - 1)
  {
    MatchedIds(signals, id);
    IdsSorted(Filter(signals, Matched()), id);
    SortByPermutes(Filter(signals, Matched()), StrongestFirst);
  }

  // --- Rounding, bonus and risk bands ------------------------------------------------------

  /** Rounding goes to a nearest number, from a tie to the even one. */
  lemma RoundsToNearest(x: real)
    ensures -0.5 <= RoundHalfEven(x) as real - x <= 0.5
    ensures RoundHalfEven(x) as real - x == 0.5 || RoundHalfEven(x) as real - x == -0.5 ==> RoundHalfEven(x) % 2 == 0
  {
  }

  /** With thresholds in order, each risk level is the band of scores from its threshold up to the next. */
  lemma RiskBands(score: int, t: RiskThresholds)
    requires ValidThresholds(t)
    ensures RiskForScore(score, t) == Critical <==> t.critical <= score
    ensures RiskForScore(score, t) == High <==> t.high <= score < t.critical
    ensures RiskForScore(score, t) == Medium <==> t.medium <= score < t.high
    ensures RiskForScore(score, t) == Low <==> t.low <= score < t.medium
    ensures RiskForScore(score, t) == NoRisk <==> score < t.low
  {
  }

  // --- Monotonicity ------------------------------------------------------------------------

  lemma QuarterClosed(n: int)
    requires n >= 0
    ensures Quarter(n) == n / 4 + (if n % 4 == 3 || (n % 4 == 2 && n / 4 % 2 == 1) then 1 else 0)
  {
    var q, r := n / 4, n % 4;
    assert n == 4 * q + r;
    var x := n as real * 0.25;
    assert x == q as real + r as real * 0.25;
    assert x.Floor == q;
  }

  /** One strength point more adds a quarter point at least nothing and at most one. */
  lemma {:induction false} QuarterSlope(a: int, b: int)
    requires 0 <= a <= b
    ensures Quarter(a) <= Quarter(b) <= Quarter(a) + (b - a)
    ensures 0 <= Quarter(a) <= a
    decreases b - a
  {
    QuarterClosed(a);
    if a < b {
      QuarterSlope(a, b - 1);
      QuarterClosed(b - 1);
      QuarterClosed(b);
    }
  }

  ghost predicate AllDominated(a: seq<Signal>, b: seq<Signal>) {
    |a| == |b| && forall i :: 0 <= i < |a| ==> Dominated(a[i], b[i])
  }

  lemma {:induction false} PartsMonotone(a: seq<Signal>, b: seq<Signal>)
    requires AllDominated(a, b)
    ensures MatchedCount(a) <= MatchedCount(b)
    ensures 0 <= Top(a) <= Top(b)
    ensures 0 <= MatchedBonus(a) <= MatchedBonus(b)
  {
    if a != [] {
      PartsMonotone(a[..|a| - 1], b[..|b| - 1]);
      assert Dominated(a[|a| - 1], b[|b| - 1]);
      QuarterSlope(a[|a| - 1].strength, b[|b| - 1].strength);
    }
  }

  lemma ScoreMonotone(a: seq<Signal>, b: seq<Signal>)
    requires AllDominated(a, b)
    ensures 0 <= ReferenceScore(a) <= ReferenceScore(b) <= 100
  {
    PartsMonotone(a, b);
    QuarterSlope(Top(a), Top(b));
  }

  lemma RiskMonotone(a: int, b: int, t: RiskThresholds)
    requires ValidThresholds(t) && a <= b
    ensures RiskRank(RiskForScore(a, t)) <= RiskRank(RiskForScore(b, t))
  {
  }

  /** End to end: with the same policy, hour and successful logins, raising the other features
      never lowers the rules-only score or risk level and never withdraws a finding. */
  lemma RaisingFeaturesNeverLowersRisk(x: Features, y: Features, rules: seq<Rule>, t: RiskThresholds,
                                       findingThreshold: int, suppressed: bool)
    requires Raised(x, y) && (forall rule :: rule in rules ==> ValidRule(rule)) && ValidThresholds(t)
    ensures var a := FuseSignals(EvaluateRules(x, rules), t, findingThreshold, suppressed);
            var b := FuseSignals(EvaluateRules(y, rules), t, findingThreshold, suppressed);
            0 <= a.score <= b.score <= 100 && RiskRank(a.risk) <= RiskRank(b.risk) && (a.finding ==> b.finding)
  {
    var a, b := EvaluateRules(x, rules), EvaluateRules(y, rules);
    RulesMonotone(x, y, rules);
    forall s | s in a || s in b ensures 0 <= s.strength <= 100 {
      if s in a {
        var i :| 0 <= i < |a| && a[i] == s;
        assert Dominated(a[i], b[i]);
      } else {
        var i :| 0 <= i < |b| && b[i] == s;
        assert Dominated(a[i], b[i]);
      }
    }
    FuseIsReference(a, t, findingThreshold, suppressed);
    FuseIsReference(b, t, findingThreshold, suppressed);
    ScoreMonotone(a, b);
    FusedRisk(a, t, findingThreshold, suppressed);
    FusedRisk(b, t, findingThreshold, suppressed);
    PartsMonotone(a, b);
    if MatchedCount(a) > 0 {
      RiskMonotone(ReferenceScore(a), ReferenceScore(b), t);
    }
  }

  /** The score lies between 0 and 100; the risk level and the verdict follow from it and from
      whether anything matched. */
  lemma FusedRisk(signals: seq<Signal>, t: RiskThresholds, findingThreshold: int, suppressed: bool)
    requires InBounds(signals)
    ensures var fused := FuseSignals(signals, t, findingThreshold, suppressed);
            && 0 <= fused.score <= 100
            && fused.risk == (if MatchedCount(signals) == 0 then NoRisk else RiskForScore(fused.score, t))
            && (fused.finding <==> MatchedCount(signals) > 0 && fused.score >= findingThreshold && !suppressed)
            && (fused.matchedIds == [] <==> MatchedCount(signals) == 0)
            && (fused.primary.None? <==> MatchedCount(signals) == 0)
  {
    MatchedIsFiltered(signals);
    SortByPermutes(Filter(signals, Matched()), StrongestFirst);
    FuseIsReference(signals, t, findingThreshold, suppressed);
    assert AllDominated(signals, signals);
    ScoreMonotone(signals, signals);
  }

  // --- The model signal --------------------------------------------------------------------

  const EPSILON: real := 0.000000001

  function Abs(x: real): real { if x < 0.0 then -x else x }

  function ModelRatio(score: real, threshold: real): real {
    var size := Abs(if threshold > 0.0 then threshold else score);
    (score - threshold) / (if size > EPSILON then size else EPSILON)
  }

  /** 0 up to the threshold, then from 50 to 100 with the relative margin. */
  function ModelStrength(score: real, threshold: real): int {
    if score - threshold <= 0.0 then 0
    else
      var ratio := ModelRatio(score, threshold);
      var strength := RoundHalfEven(50.0 + (if ratio < 1.0 then ratio else 1.0) * 50.0);
      if strength < 1 then 1 else if strength > 100 then 100 else strength
  }

  lemma RoundMonotone(x: real, y: real)
    requires x <= y
    ensures RoundHalfEven(x) <= RoundHalfEven(y)
  {
  }

  lemma QuotientMonotone(a: real, b: real, c: real, d: real)
    requires 0.0 < b && 0.0 < d && a * d <= c * b
    ensures a / b <= c / d
  {
    var p, q, n := a / b, c / d, b * d;
    assert a * d == p * n && c * b == q * n by { assert a == p * b && c == q * d; }
    assert n > 0.0 && (p - q) * n <= 0.0;
  }

  lemma ProductLeq(a: real, b: real, c: real, d: real)
    requires 0.0 <= a <= c && 0.0 <= b <= d
    ensures a * b <= c * d
  {
    assert a * b <= c * b;
    assert c * b <= c * d;
  }

  function Denominator(score: real, threshold: real): (r: real)
    ensures r > 0.0 && ModelRatio(score, threshold) == (score - threshold) / r
  {
    var size := Abs(if threshold > 0.0 then threshold else score);
    if size > EPSILON then size else EPSILON
  }

  /** With a threshold at or below zero, a positive score of any size saturates the ratio. */
  lemma SmallScore(b: real, t: real)
    requires t <= 0.0 && t < b
    ensures b > EPSILON ==> ModelRatio(b, t) >= 1.0
  {
    if b > EPSILON {
      QuotientMonotone(1.0, 1.0, b - t, b);
    }
  }

  lemma DenominatorShrinks(a: real, b: real, t: real)
    requires t < a <= b && (t <= 0.0 ==> b <= EPSILON)
    ensures Denominator(b, t) <= Denominator(a, t)
  {
  }

  lemma QuotientGrows(p: real, m: real, q: real, n: real)
    requires 0.0 <= p <= q && 0.0 < n <= m
    ensures p / m <= q / n
  {
    ProductLeq(p, n, q, m);
    QuotientMonotone(p, m, q, n);
  }

  /** A relative margin that is below its cap does not shrink as the score rises. */
  lemma RatioMonotone(a: real, b: real, t: real)
    requires t < a <= b && ModelRatio(b, t) < 1.0
    ensures 0.0 <= ModelRatio(a, t) <= ModelRatio(b, t)
  {
    if t <= 0.0 { SmallScore(b, t); }
    DenominatorShrinks(a, b, t);
    QuotientGrows(0.0, Denominator(a, t), a - t, Denominator(a, t));
    QuotientGrows(a - t, Denominator(a, t), b - t, Denominator(b, t));
  }

  /** With a match the strength is 50 points and up to 50 more, in proportion to how far the score exceeds
      the threshold relative to the threshold, or to the score when the threshold is not positive. */
  lemma ModelStrengthExactly(score: real, threshold: real, size: real, margin: real)
    requires score > threshold && size > 0.0 && margin * size == score - threshold
    requires size == if threshold > EPSILON then threshold
                     else if threshold > 0.0 || -EPSILON < score < EPSILON then EPSILON
                     else if score > 0.0 then score else -score
    ensures if margin >= 1.0 then ModelStrength(score, threshold) == 100
            else -0.5 <= ModelStrength(score, threshold) as real - (50.0 + 50.0 * margin) <= 0.5
  {
    assert Denominator(score, threshold) == size;
    Division(score - threshold, size, margin);
    assert ModelRatio(score, threshold) == margin;
    Division(0.0, size, 0.0);
    MarginPositive(size, margin);
    RoundsToNearest(50.0 + (if margin < 1.0 then margin else 1.0) * 50.0);
  }

  lemma Division(a: real, b: real, q: real)
    requires b > 0.0 && q * b == a
    ensures a / b == q
  {
    assert (a / b - q) * b == 0.0;
  }

  lemma MarginPositive(size: real, margin: real)
    requires size > 0.0 && margin * size > 0.0
    ensures margin > 0.0
  {
    assert margin <= 0.0 ==> margin * size <= 0.0;
  }

  /** The model's strength is 0 exactly without a match, at least 50 with one, and never falls
      when the anomaly score rises. */
  lemma ModelStrengthMonotone(a: real, b: real, t: real)
    requires a <= b
    ensures ModelStrength(a, t) <= ModelStrength(b, t) <= 100
    ensures if a > t then ModelStrength(a, t) >= 50 else ModelStrength(a, t) == 0
  {
    if t < a {
      QuotientMonotone(0.0, Denominator(a, t), a - t, Denominator(a, t));
      var x, y := CappedStrength(a, t), CappedStrength(b, t);
      if ModelRatio(b, t) < 1.0 {
        RatioMonotone(a, b, t);
      }
      RoundMonotone(50.0, x);
      RoundMonotone(x, y);
      RoundMonotone(y, 100.0);
    } else if t < b {
      QuotientMonotone(0.0, Denominator(b, t), b - t, Denominator(b, t));
      RoundMonotone(50.0, CappedStrength(b, t));
      RoundMonotone(CappedStrength(b, t), 100.0);
    }
  }

  function CappedStrength(score: real, threshold: real): real {
    var ratio := ModelRatio(score, threshold);
    50.0 + (if ratio < 1.0 then ratio else 1.0) * 50.0
  }
}
