/** The three rules of the fast router, in prices and volumes: no ratios, and which way each answers. */
module RouterRules {
  import opened PrecomputedMarket
  import opened Reals
  import opened RegimeRouter

  lemma ShareCompare(x: real, whole: real, ratio: real)
    requires whole > 0.0
    ensures x / whole >= ratio <==> x >= Part(ratio, whole)
    ensures x / whole <= ratio <==> x <= Part(ratio, whole)
  {
    QuotientCompare(x, whole, ratio);
  }

  /** The close moved by at least the ratio of the close `period` bars ago; without one it has not moved. */
  predicate RoseBy(d: Precomputed, index: nat, period: nat, ratio: real)
    requires index < |d.close|
  {
    if index < period || d.close[index - period] <= 0.0 then 0.0 >= ratio
    else d.close[index] - d.close[index - period] >= Part(ratio, d.close[index - period])
  }

  predicate FellBy(d: Precomputed, index: nat, period: nat, ratio: real)
    requires index < |d.close|
  {
    if index < period || d.close[index - period] <= 0.0 then 0.0 >= ratio
    else d.close[index] - d.close[index - period] <= Part(-ratio, d.close[index - period])
  }

  lemma ReturnMoves(d: Precomputed, index: nat, period: nat, ratio: real)
    requires index < |d.close|
    ensures Ret(d, index, period) >= ratio <==> RoseBy(d, index, period, ratio)
    ensures Ret(d, index, period) <= -ratio <==> FellBy(d, index, period, ratio)
  {
    hide Part;
    if index >= period && d.close[index - period] > 0.0 {
      var base := d.close[index - period];
      ShareCompare(d.close[index] - base, base, ratio);
      ShareCompare(d.close[index] - base, base, -ratio);
    }
  }

  // ---------------------------------------------------------------- range: back from the edge

  /** The window is wide enough, the bar has a range, and its body is large enough a part of it. */
  predicate Reverses(d: Precomputed, index: nat, p: RangeParams)
    requires Readable(d, index) && p.rangePeriod in d.highOf
  {
    var high, low := d.highOf[p.rangePeriod][index], d.lowOf[p.rangePeriod][index];
    && low > 0.0 && high - low >= Part(p.minRangeRatio, low)
    && d.high[index] > d.low[index]
    && Abs(d.close[index] - d.open[index]) >= Part(p.minReversalBodyRatio, d.high[index] - d.low[index])
  }

  /** Long on a rising bar that closes near the low of the window, short on a falling one near the high. */
  lemma RangeAnswers(d: Precomputed, index: nat, p: RangeParams)
    requires Readable(d, index) && p.rangePeriod in d.highOf && p.minRangeRatio > 0.0
    ensures var high, low := d.highOf[p.rangePeriod][index], d.lowOf[p.rangePeriod][index];
            && (RangeDirection(d, index, p) == 1 <==>
                Reverses(d, index, p) && d.close[index] > d.open[index]
                && d.close[index] - low <= Part(p.edgeRatio, high - low))
            && (RangeDirection(d, index, p) == -1 <==>
                Reverses(d, index, p) && d.close[index] < d.open[index]
                && d.close[index] - low >= Part(1.0 - p.edgeRatio, high - low))
            && -1 <= RangeDirection(d, index, p) <= 1
  {
    hide Part;
    var high, low := d.highOf[p.rangePeriod][index], d.lowOf[p.rangePeriod][index];
    if low > 0.0 {
      ShareCompare(high - low, low, p.minRangeRatio);
      QuotientCompare(high - low, low, 0.0);
      if Gap(high, low, low) >= p.minRangeRatio && d.high[index] > d.low[index] {
        ShareCompare(Abs(d.close[index] - d.open[index]), d.high[index] - d.low[index], p.minReversalBodyRatio);
        ShareCompare(d.close[index] - low, high - low, p.edgeRatio);
        ShareCompare(d.close[index] - low, high - low, 1.0 - p.edgeRatio);
      }
    }
  }

  // ---------------------------------------------------------------- burst: with or against a breakout

  /** Volume is large enough against its average; without an average there is no volume. */
  predicate Loud(d: Precomputed, index: nat, p: BurstParams)
    requires Readable(d, index) && p.volumePeriod in d.highOf
  {
    var average := d.volumeOf[p.volumePeriod][index];
    if average > 0.0 then d.volume[index] >= Part(p.minVolumeRatio, average) else 0.0 >= p.minVolumeRatio
  }

  predicate BreaksUp(d: Precomputed, index: nat, p: BurstParams)
    requires Readable(d, index) && p.volumePeriod in d.highOf && p.breakoutPeriod in d.highOf
  {
    && Loud(d, index, p) && RoseBy(d, index, p.impulsePeriod, p.minImpulseReturn)
    && d.close[index] > d.highOf[p.breakoutPeriod][index] * (1.0 + p.breakoutBuffer)
  }

  predicate BreaksDown(d: Precomputed, index: nat, p: BurstParams)
    requires Readable(d, index) && p.volumePeriod in d.highOf && p.breakoutPeriod in d.highOf
  {
    && Loud(d, index, p) && FellBy(d, index, p.impulsePeriod, p.minImpulseReturn)
    && d.close[index] < d.lowOf[p.breakoutPeriod][index] * (1.0 - p.breakoutBuffer)
  }

  /** With a breakout when it follows, against it when it fades, an upward one looked at first. */
  lemma BurstAnswers(d: Precomputed, index: nat, p: BurstParams)
    requires Readable(d, index) && p.volumePeriod in d.highOf && p.breakoutPeriod in d.highOf
    ensures BurstDirection(d, index, p) ==
            if BreaksUp(d, index, p) then (if p.fade then -1 else 1)
            else if BreaksDown(d, index, p) then (if p.fade then 1 else -1)
            else 0
  {
    hide Ret, RoseBy, FellBy, Part;
    ReturnMoves(d, index, p.impulsePeriod, p.minImpulseReturn);
    if d.volumeOf[p.volumePeriod][index] > 0.0 {
      ShareCompare(d.volume[index], d.volumeOf[p.volumePeriod][index], p.minVolumeRatio);
    }
  }

  // ---------------------------------------------------------------- trend: a pullback in a move

  predicate Wide(d: Precomputed, index: nat, p: TrendParams)
    requires Readable(d, index) && p.pullbackPeriod in d.highOf
  {
    var high, low := d.highOf[p.pullbackPeriod][index], d.lowOf[p.pullbackPeriod][index];
    if low > 0.0 then high - low >= Part(p.minRangeRatio, low) else 0.0 >= p.minRangeRatio
  }

  /** Long on a rise over both lookbacks that closes well below the window's high, short on a fall well above its
      low. */
  lemma TrendAnswers(d: Precomputed, index: nat, p: TrendParams)
    requires Readable(d, index) && p.pullbackPeriod in d.highOf
    ensures var close, high, low :=
              d.close[index], d.highOf[p.pullbackPeriod][index], d.lowOf[p.pullbackPeriod][index];
            TrendDirection(d, index, p) ==
            if !Wide(d, index, p) then 0
            else if RoseBy(d, index, p.trendPeriod, p.minTrendReturn)
                    && RoseBy(d, index, p.triggerPeriod, p.minTriggerReturn)
                    && high - close >= Part(p.minPullback, close) then 1
            else if FellBy(d, index, p.trendPeriod, p.minTrendReturn)
                    && FellBy(d, index, p.triggerPeriod, p.minTriggerReturn)
                    && close - low >= Part(p.minPullback, close) then -1
            else 0
  {
    hide Ret, RoseBy, FellBy, Part;
    var close, high, low := d.close[index], d.highOf[p.pullbackPeriod][index], d.lowOf[p.pullbackPeriod][index];
    ReturnMoves(d, index, p.trendPeriod, p.minTrendReturn);
    ReturnMoves(d, index, p.triggerPeriod, p.minTriggerReturn);
    ShareCompare(high - close, close, p.minPullback);
    ShareCompare(close - low, close, p.minPullback);
    if low > 0.0 {
      ShareCompare(high - low, low, p.minRangeRatio);
    }
  }

  // ---------------------------------------------------------------- the router

  /** Each strategy answers for its own key; range is silent in a market that moved further than it may. */
  lemma EachKeyAnswers(d: Precomputed, index: nat, p: RouterParams)
    requires Readable(d, index) && ValidParams(p) && Supported(d, p)
    ensures Directions(d, index, p).Of(Burst) == BurstDirection(d, index, p.burst)
    ensures Directions(d, index, p).Of(Trend) == TrendDirection(d, index, p.trend)
    ensures Directions(d, index, p).Of(Range) ==
            if -p.maxAbsTrendForRange <= Ret(d, index, p.trendRegimePeriod) <= p.maxAbsTrendForRange
            then RangeDirection(d, index, p.range) else 0
  {
    hide BurstDirection, TrendDirection, RangeDirection, Ret;
  }

  /** The router answers as the first strategy in its order that answers at all. */
  lemma {:induction false} FirstAnswers(order: seq<Key>, directions: PerKey<int>, k: nat)
    requires k <= |order| && forall j :: 0 <= j < k ==> directions.Of(order[j]) == 0
    ensures k == |order| ==> FirstDirection(order, directions) == 0
    ensures k < |order| && directions.Of(order[k]) != 0 ==>
              FirstDirection(order, directions) == directions.Of(order[k])
  {
    if k > 0 {
      assert forall j :: 0 <= j < k - 1 ==> order[1..][j] == order[j + 1];
      FirstAnswers(order[1..], directions, k - 1);
    }
  }
}
