/**
 The anomaly threshold of a model: the "higher" quantile of its calibration scores. Scores and
 rates are exact reals.
 */
module Calibration {
  import opened Sequences

  const MINIMUM_SIZE := 12

  datatype Score = Finite(value: real) | NotFinite

  datatype Threshold = Threshold(value: real, scoreCount: nat, flagged: nat)

  datatype CalibrationError = BadRate | NotFiniteScores | TooFewScores

  datatype Result = Calibrated(threshold: Threshold) | Failed(error: CalibrationError)

  predicate RealLeq(a: real, b: real) { a <= b }

  function Above(t: real): real -> bool { (score: real) => score > t }

  function AtLeast(t: real): real -> bool { (score: real) => score >= t }

  predicate AllFinite(scores: seq<Score>) {
    forall i :: 0 <= i < |scores| ==> scores[i].Finite?
  }

  function ValuesOf(scores: seq<Score>): (values: seq<real>)
    requires AllFinite(scores)
    ensures |values| == |scores|
    ensures forall i :: 0 <= i < |scores| ==> values[i] == scores[i].value
  {
    seq(|scores|, i requires 0 <= i < |scores| => scores[i].value)
  }

  function Ceiling(x: real): int { -((-x).Floor) }

  /** The position of the quantile in the sorted scores, rounded up. */
  function Position(n: nat, rate: real): int { Ceiling((1.0 - rate) * (n - 1) as real) }

  /** So many scores come after the position: the target share of the others, rounded down. */
  lemma PositionInside(n: nat, rate: real)
    requires n > 0 && 0.0 < rate < 1.0
    ensures 0 <= Position(n, rate) < n
    ensures n - 1 - Position(n, rate) == (rate * (n - 1) as real).Floor
  {
    var x := rate * (n - 1) as real;
    assert 0.0 <= x <= (n - 1) as real;
    assert (1.0 - rate) * (n - 1) as real == (n - 1) as real - x;
  }

  /** Less than the target share of all scores. */
  lemma PositionRate(n: nat, rate: real)
    requires n > 0 && 0.0 < rate < 1.0
    ensures 0 <= Position(n, rate) < n && (n - 1 - Position(n, rate)) as real < rate * n as real
  {
    var x := rate * (n - 1) as real;
    PositionInside(n, rate);
    assert rate * n as real == x + rate;
  }

  function Quantile(values: seq<real>, k: nat): real
    requires k < |values|
  {
    SortByPermutes(values, RealLeq);
    SortBy(values, RealLeq)[k]
  }

  function Calibrate(scores: seq<Score>, rate: real): Result {
    if !(0.0 < rate < 1.0) then Failed(BadRate)
    else if !AllFinite(scores) then Failed(NotFiniteScores)
    else if |scores| < MINIMUM_SIZE then Failed(TooFewScores)
    else
      var values := ValuesOf(scores);
      PositionInside(|values|, rate);
      var t := Quantile(values, Position(|values|, rate));
      Calibrated(Threshold(t, |values|, |Filter(values, AtLeast(t))|))
  }

  // --- What the threshold guarantees -------------------------------------------------------

  lemma RealOrder()
    ensures TotalOrder(RealLeq)
  {
  }

  /** Counting does not depend on the order of the scores. */
  lemma CountSorted(values: seq<real>, p: real -> bool)
    ensures |Filter(values, p)| == |Filter(SortBy(values, RealLeq), p)|
  {
    RealOrder();
    FilterSortBy(values, RealLeq, p);
    SortByPermutes(Filter(values, p), RealLeq);
  }

  /** In sorted scores, those above a given one come after every position that holds it. */
  lemma AboveAt(sorted: seq<real>, k: nat, t: real)
    requires Sorted(sorted, RealLeq) && k < |sorted|
    ensures t >= sorted[k] ==> |Filter(sorted, Above(t))| <= |sorted| - 1 - k
    ensures t < sorted[k] ==> |Filter(sorted, Above(t))| >= |sorted| - k
  {
    assert forall i, j :: 0 <= i <= j < |sorted| ==> i == j || RealLeq(sorted[i], sorted[j]);
    if t >= sorted[k] {
      assert sorted == sorted[..k + 1] + sorted[k + 1..];
      FilterConcat(sorted[..k + 1], sorted[k + 1..], Above(t));
      FilterNone(sorted[..k + 1], Above(t));
    } else {
      assert sorted == sorted[..k] + sorted[k..];
      FilterConcat(sorted[..k], sorted[k..], Above(t));
      FilterAll(sorted[k..], Above(t));
    }
  }

  /** How many scores the engine flags: those strictly above the threshold. */
  function Flagged(values: seq<real>, t: real): nat { |Filter(values, Above(t))| }

  /** The quantile is the least threshold that flags no more scores than come after its position. */
  lemma QuantileExactly(values: seq<real>, k: nat, t: real)
    requires k < |values|
    ensures Quantile(values, k) in values
    ensures Flagged(values, t) <= |values| - 1 - k <==> t >= Quantile(values, k)
  {
    var sorted := SortBy(values, RealLeq);
    RealOrder();
    SortBySorted(values, RealLeq);
    SortByPermutes(values, RealLeq);
    CountSorted(values, Above(t));
    AboveAt(sorted, k, t);
    assert sorted[k] in sorted;
  }

  lemma FlaggedBelow(values: seq<real>, k: nat, bound: real)
    requires k < |values| && (|values| - 1 - k) as real < bound
    ensures Flagged(values, Quantile(values, k)) as real < bound
  {
    QuantileExactly(values, k, Quantile(values, k));
  }

  /** The threshold that calibration returns is the quantile at its position. */
  lemma ChosenThreshold(scores: seq<Score>, rate: real)
    requires Calibrate(scores, rate).Calibrated?
    ensures 0 <= Position(|scores|, rate) < |scores|
    ensures Calibrate(scores, rate).threshold.value == Quantile(ValuesOf(scores), Position(|scores|, rate))
  {
    PositionInside(|scores|, rate);
  }

  /** The scores above the returned threshold, which are what the engine flags, are fewer than the target
      rate. */
  lemma StrictRate(scores: seq<Score>, rate: real)
    requires Calibrate(scores, rate).Calibrated?
    ensures Flagged(ValuesOf(scores), Calibrate(scores, rate).threshold.value) as real < rate * |scores| as real
  {
    ChosenThreshold(scores, rate);
    PositionRate(|scores|, rate);
    FlaggedBelow(ValuesOf(scores), Position(|scores|, rate), rate * |scores| as real);
  }

  /** A threshold flags at most the target share of the other scores, rounded down, exactly when it
      is at or above the returned one: no lower threshold would do. */
  lemma LeastThreshold(scores: seq<Score>, rate: real, t: real)
    requires Calibrate(scores, rate).Calibrated?
    ensures Flagged(ValuesOf(scores), t) <= (rate * (|scores| - 1) as real).Floor
            <==> t >= Calibrate(scores, rate).threshold.value
  {
    ChosenThreshold(scores, rate);
    PositionInside(|scores|, rate);
    QuantileExactly(ValuesOf(scores), Position(|scores|, rate), t);
  }

  /** Calibration chooses one of the scores and reports how many reach it, which is at least one more
      than the engine flags. */
  lemma ThresholdReached(scores: seq<Score>, rate: real)
    requires Calibrate(scores, rate).Calibrated?
    ensures var t, values := Calibrate(scores, rate).threshold, ValuesOf(scores);
            && t.value in values && t.flagged == |Filter(values, AtLeast(t.value))|
            && Flagged(values, t.value) < t.flagged <= t.scoreCount == |scores|
  {
    var values, k := ValuesOf(scores), Position(|scores|, rate);
    ChosenThreshold(scores, rate);
    QuantileExactly(values, k, Quantile(values, k));
    FlaggedMoreThanAbove(values, Quantile(values, k));
  }

  lemma {:induction false} FlaggedMoreThanAbove(values: seq<real>, t: real)
    ensures |Filter(values, Above(t))| <= |Filter(values, AtLeast(t))|
    ensures t in values ==> |Filter(values, Above(t))| < |Filter(values, AtLeast(t))|
  {
    if values != [] {
      FlaggedMoreThanAbove(values[..|values| - 1], t);
      assert values == values[..|values| - 1] + [values[|values| - 1]];
    }
  }

  // --- The rate that calibration reports ---------------------------------------------------

  /** No score before the position in the sorted list equals the one at it. */
  predicate NoTieBelow(values: seq<real>, k: nat)
    requires k < |SortBy(values, RealLeq)|
  {
    k == 0 || SortBy(values, RealLeq)[k - 1] < SortBy(values, RealLeq)[k]
  }

  /** Scores that end in a stretch at or above a threshold, nothing before it reaching it. */
  lemma TailCount(values: seq<real>, from: nat, t: real)
    requires from <= |values| && forall i :: from <= i < |values| ==> values[i] >= t
    ensures |Filter(values, AtLeast(t))| >= |values| - from
    ensures (forall i :: 0 <= i < from ==> values[i] < t) ==> |Filter(values, AtLeast(t))| == |values| - from
  {
    assert values == values[..from] + values[from..];
    FilterConcat(values[..from], values[from..], AtLeast(t));
    FilterAll(values[from..], AtLeast(t));
    if forall i :: 0 <= i < from ==> values[i] < t {
      FilterNone(values[..from], AtLeast(t));
    }
  }

  lemma SortedFrom(sorted: seq<real>, k: nat)
    requires Sorted(sorted, RealLeq) && k < |sorted|
    ensures forall i :: k <= i < |sorted| ==> sorted[i] >= sorted[k]
    ensures forall i :: 0 <= i <= k ==> sorted[i] <= sorted[k]
  {
    forall i | 0 <= i < |sorted| && i != k ensures if i < k then sorted[i] <= sorted[k] else sorted[i] >= sorted[k] {
      assert i < k ==> RealLeq(sorted[i], sorted[k]);
      assert k < i ==> RealLeq(sorted[k], sorted[i]);
    }
  }

  /** In sorted scores, those at or above the score at a position start there, or earlier with a tie. */
  lemma AtLeastAt(sorted: seq<real>, k: nat)
    requires Sorted(sorted, RealLeq) && k < |sorted|
    ensures k > 0 ==> sorted[k - 1] <= sorted[k]
    ensures var count := |Filter(sorted, AtLeast(sorted[k]))|;
            if k == 0 || sorted[k - 1] < sorted[k] then count == |sorted| - k else count > |sorted| - k
  {
    SortedFrom(sorted, k);
    if k == 0 {
      TailCount(sorted, 0, sorted[0]);
    } else {
      SortedFrom(sorted, k - 1);
      TailCount(sorted, if sorted[k - 1] < sorted[k] then k else k - 1, sorted[k]);
    }
  }

  /** So many of the scores are at most the target share of all. */
  predicate WithinTarget(count: int, n: nat, rate: real) { count as real <= rate * n as real }

  /** The target share of all scores, rounded down. */
  function Allowed(n: nat, rate: real): int { (rate * n as real).Floor }

  lemma AllowedMeans(n: nat, rate: real, count: int)
    ensures WithinTarget(count, n, rate) <==> count <= Allowed(n, rate)
  {
  }

  /** The scores from the position on are at most one too many. */
  lemma AllowedFromPosition(n: nat, rate: real)
    requires n > 0 && 0.0 < rate < 1.0
    ensures 0 <= Position(n, rate) < n && Allowed(n, rate) <= n - Position(n, rate)
  {
    var x := rate * (n - 1) as real;
    PositionInside(n, rate);
    assert rate * n as real == x + rate;
  }

  lemma ReachedCount(values: seq<real>, k: nat)
    requires k < |values|
    ensures k < |SortBy(values, RealLeq)|
    ensures var count := |Filter(values, AtLeast(Quantile(values, k)))|;
            if NoTieBelow(values, k) then count == |values| - k else count > |values| - k
  {
    RealOrder();
    SortBySorted(values, RealLeq);
    SortByPermutes(values, RealLeq);
    CountSorted(values, AtLeast(Quantile(values, k)));
    AtLeastAt(SortBy(values, RealLeq), k);
  }

  lemma ReachedWithin(values: seq<real>, k: nat, allowed: int)
    requires k < |values| && allowed <= |values| - k
    ensures k < |SortBy(values, RealLeq)|
    ensures |Filter(values, AtLeast(Quantile(values, k)))| <= allowed <==> |values| - k <= allowed && NoTieBelow(values, k)
  {
    ReachedCount(values, k);
  }

  lemma ReachedExactly(values: seq<real>, rate: real, k: nat)
    requires values != [] && 0.0 < rate < 1.0 && k == Position(|values|, rate)
    ensures k < |values| && k < |SortBy(values, RealLeq)|
    ensures |Filter(values, AtLeast(Quantile(values, k)))| <= Allowed(|values|, rate) <==>
            |values| - k <= Allowed(|values|, rate) && NoTieBelow(values, k)
  {
    AllowedFromPosition(|values|, rate);
    ReachedWithin(values, k, Allowed(|values|, rate));
  }

  /** The flagged rate that calibration reports stays within the target exactly when the scores from the
      threshold's position on, one more than the rounded share of the others, are no more than the target
      share of all and the score before that position is lower. */
  lemma ReportedExactly(scores: seq<Score>, rate: real, k: nat)
    requires Calibrate(scores, rate).Calibrated? && k == |scores| - 1 - (rate * (|scores| - 1) as real).Floor
    ensures k < |SortBy(ValuesOf(scores), RealLeq)|
    ensures WithinTarget(Calibrate(scores, rate).threshold.flagged, |scores|, rate) <==>
            WithinTarget(|scores| - k, |scores|, rate) && NoTieBelow(ValuesOf(scores), k)
  {
    PositionInside(|scores|, rate);
    ThresholdReached(scores, rate);
    ChosenThreshold(scores, rate);
    ReachedExactly(ValuesOf(scores), rate, k);
    AllowedMeans(|scores|, rate, Calibrate(scores, rate).threshold.flagged);
    AllowedMeans(|scores|, rate, |scores| - k);
  }

  /** Whenever the target share of all scores is less than one score, calibration reports more. */
  lemma SmallListsOverReport(scores: seq<Score>, rate: real)
    requires Calibrate(scores, rate).Calibrated? && rate * |scores| as real < 1.0
    ensures !WithinTarget(Calibrate(scores, rate).threshold.flagged, |scores|, rate)
  {
    ThresholdReached(scores, rate);
  }

  const TWELVE_SCORES := [Finite(0.0), Finite(1.0), Finite(2.0), Finite(3.0), Finite(4.0), Finite(5.0), Finite(6.0),
                          Finite(7.0), Finite(8.0), Finite(9.0), Finite(10.0), Finite(11.0)]

  /** No tie is needed: twelve different scores at the default rate report one of twelve. */
  lemma DistinctScoresOverReport()
    ensures Calibrate(TWELVE_SCORES, 0.05).Calibrated? && Distinct(ValuesOf(TWELVE_SCORES))
    ensures !WithinTarget(Calibrate(TWELVE_SCORES, 0.05).threshold.flagged, 12, 0.05)
  {
    SmallListsOverReport(TWELVE_SCORES, 0.05);
  }

  /** With equal scores the reported rate is one while the engine flags none. */
  lemma TiesAreReported(scores: seq<Score>, rate: real, v: real)
    requires Calibrate(scores, rate).Calibrated? && forall i :: 0 <= i < |scores| ==> scores[i] == Finite(v)
    ensures var t := Calibrate(scores, rate).threshold;
            t.value == v && t.flagged == |scores| && Filter(ValuesOf(scores), Above(t.value)) == []
  {
    var values := ValuesOf(scores);
    PositionInside(|values|, rate);
    QuantileExactly(values, Position(|values|, rate), v);
    FilterAll(values, AtLeast(v));
    FilterNone(values, Above(v));
  }

  /** Calibration fails for exactly three reasons, looked at in this order. */
  lemma CalibratesExactly(scores: seq<Score>, rate: real)
    ensures Calibrate(scores, rate).Calibrated? <==>
            0.0 < rate < 1.0 && |scores| >= 12 && forall s :: s in scores ==> s.Finite?
    ensures Calibrate(scores, rate) == Failed(BadRate) <==> rate <= 0.0 || rate >= 1.0
    ensures Calibrate(scores, rate) == Failed(NotFiniteScores) <==>
            0.0 < rate < 1.0 && exists s :: s in scores && s.NotFinite?
  {
    if 0.0 < rate < 1.0 {
      assert AllFinite(scores) <==> forall s :: s in scores ==> s.Finite?;
    }
  }
}
