/** When the two routers differ: only the object form skips "trend" on a flat regime. */
module RouterDifference {
  import opened CandleWindows
  import opened PrecomputedMarket
  import opened Reals
  import opened RegimeRouter
  import ScalpingSimulator

  /** No candle of the r before the index reaches above another one's low. */
  ghost predicate Flat(candles: seq<Candle>, index: nat, r: nat)
    requires r <= index < |candles|
  {
    forall j, k :: index - r <= j < index && index - r <= k < index ==> candles[j].high <= candles[k].low
  }

  /** The closes, and the extremes of the pullback window, that the trend rule looks at. */
  datatype TrendView = TrendView(close: real, base: real, trigger: real, high: real, low: real)

  function TrendViewAt(candles: seq<Candle>, index: nat, p: TrendParams): TrendView
    requires index < |candles| && p.trendPeriod <= index && p.triggerPeriod <= index && 0 < p.pullbackPeriod <= index
  {
    var window := candles[index - p.pullbackPeriod..index];
    TrendView(candles[index].close, candles[index - p.trendPeriod].close, candles[index - p.triggerPeriod].close,
              MaxOf(Highs(window)), MinOf(Lows(window)))
  }

  /** A wide enough window, a rise from both earlier closes, and a close well below the window's high. */
  predicate Rises(v: TrendView, p: TrendParams) {
    && v.high - v.low >= Part(p.minRangeRatio, v.low)
    && v.close - v.base >= Part(p.minTrendReturn, v.base)
    && v.close - v.trigger >= Part(p.minTriggerReturn, v.trigger)
    && v.high - v.close >= Part(p.minPullback, v.close)
  }

  predicate Falls(v: TrendView, p: TrendParams) {
    && v.high - v.low >= Part(p.minRangeRatio, v.low)
    && v.close - v.base <= Part(-p.minTrendReturn, v.base)
    && v.close - v.trigger <= Part(-p.minTriggerReturn, v.trigger)
    && v.close - v.low >= Part(p.minPullback, v.close)
  }

  function Side(v: TrendView, p: TrendParams): int {
    if Rises(v, p) then 1 else if Falls(v, p) then -1 else 0
  }

  lemma GapCompare(a: real, b: real, unit: real, k: real)
    requires unit > 0.0
    ensures Gap(a, b, unit) >= k <==> a - b >= Part(k, unit)
    ensures Gap(a, b, unit) <= k <==> a - b <= Part(k, unit)
  {
    QuotientCompare(a - b, unit, k);
  }

  /** The trend rule in prices instead of ratios. */
  lemma TrendRuleIsSide(v: TrendView, p: TrendParams)
    requires v.close > 0.0 && v.base > 0.0 && v.trigger > 0.0 && v.low > 0.0
    ensures TrendRule(ReturnRatio(v.close, v.base), ReturnRatio(v.close, v.trigger), v.high, v.low, v.close, p) ==
              Side(v, p)
  {
    hide Gap, Part;
    GapCompare(v.high, v.low, v.low, p.minRangeRatio);
    GapCompare(v.close, v.base, v.base, p.minTrendReturn);
    GapCompare(v.close, v.base, v.base, -p.minTrendReturn);
    GapCompare(v.close, v.trigger, v.trigger, p.minTriggerReturn);
    GapCompare(v.close, v.trigger, v.trigger, -p.minTriggerReturn);
    GapCompare(v.high, v.close, v.close, p.minPullback);
    GapCompare(v.close, v.low, v.close, p.minPullback);
  }

  /** A market both routers can be asked about at the index. The last two lines follow from the others. */
  ghost predicate Market(candles: seq<Candle>, d: Precomputed, index: nat, candleLimit: nat, p: RouterParams) {
    && AllWellFormed(candles) && index < |candles| && Describes(d, candles) && Supported(d, p)
    && LongEnough(ContextFor(candles, index, candleLimit).Length(), p)
    && Readable(d, index)
    && p.rangeRegimePeriod <= index && p.trend.trendPeriod <= index && p.trend.triggerPeriod <= index
       && p.trend.pullbackPeriod <= index
  }

  lemma MarketIsPastWarmUp(candles: seq<Candle>, d: Precomputed, index: nat, candleLimit: nat, p: RouterParams)
    requires Market(candles, d, index, candleLimit, p) && ValidParams(p)
    ensures PastWarmUp(ContextFor(candles, index, candleLimit), d, index, p)
    ensures var n := ContextFor(candles, index, candleLimit).Length();
            && p.rangeRegimePeriod + 2 <= n && p.trendRegimePeriod + 2 <= n
            && p.trend.pullbackPeriod + 2 <= n && p.trend.trendPeriod + 2 <= n && p.trend.triggerPeriod + 2 <= n
  {
    DescribedEverywhere(d, candles, index);
  }

  lemma FastTrendIsSide(candles: seq<Candle>, d: Precomputed, index: nat, candleLimit: nat, p: RouterParams)
    requires Market(candles, d, index, candleLimit, p) && ValidParams(p)
    ensures TrendDirection(d, index, p.trend) == Side(TrendViewAt(candles, index, p.trend), p.trend)
  {
    hide Gap, MaxOf, MinOf, TrendRule, RangeRule, BurstRule, ReturnRatio, Ret, Side, CandleWindow.Slice,
      CandleWindow.At, Describes, LongEnough, TrendDirection, Highs, Lows;
    var w, q := ContextFor(candles, index, candleLimit), p.trend.pullbackPeriod;
    MarketIsPastWarmUp(candles, d, index, candleLimit, p);
    ViewIsPositive(candles, index, p.trend);
    TrendRuleIsSide(TrendViewAt(candles, index, p.trend), p.trend);
    ColumnsMatchSlice(w, d, index, q);
    ReturnsMatch(w, d, index, p.trend.trendPeriod);
    ReturnsMatch(w, d, index, p.trend.triggerPeriod);
    DescribedLatest(d, candles, index);
    TrendColumnForm(d, index, p, candles[index].close);
  }

  lemma DescribedLatest(d: Precomputed, candles: seq<Candle>, index: nat)
    requires index < |candles| && Describes(d, candles)
    ensures index < |d.open| == |d.close| == |d.high| == |d.low| == |d.volume|
    ensures candles[index].open == d.open[index] && candles[index].close == d.close[index]
    ensures candles[index].high == d.high[index] && candles[index].low == d.low[index]
    ensures candles[index].volume == d.volume[index]
  {
  }

  lemma ViewIsPositive(candles: seq<Candle>, index: nat, p: TrendParams)
    requires AllWellFormed(candles) && index < |candles|
    requires p.trendPeriod <= index && p.triggerPeriod <= index && 0 < p.pullbackPeriod <= index
    ensures var v := TrendViewAt(candles, index, p); v.close > 0.0 && v.base > 0.0 && v.trigger > 0.0 && v.low > 0.0
  {
    hide MaxOf, MinOf;
    LowIsPositive(candles[index - p.pullbackPeriod..index]);
    assert candles[index].WellFormed() && candles[index - p.trendPeriod].WellFormed();
    assert candles[index - p.triggerPeriod].WellFormed();
  }

  lemma LowIsPositive(window: seq<Candle>)
    requires AllWellFormed(window) && window != []
    ensures MinOf(Lows(window)) > 0.0
  {
    var i :| 0 <= i < |window| && Lows(window)[i] == MinOf(Lows(window));
    assert window[i].WellFormed();
  }

  lemma FlatIffNoRange(candles: seq<Candle>, index: nat, r: nat)
    requires AllWellFormed(candles) && r <= index < |candles|
    ensures Flat(candles, index, r) <==> RangeRatio(candles[index - r..index]) <= 0.0
  {
    var window := candles[index - r..index];
    if window != [] {
      if RangeRatio(window) <= 0.0 {
        FlatHasNoSpread(window);
        NoSpreadIsFlat(candles, index, r);
      }
      if Flat(candles, index, r) {
        FlatSpread(candles, index, r);
      }
    }
  }

  lemma NoSpreadIsFlat(candles: seq<Candle>, index: nat, r: nat)
    requires 0 < r <= index < |candles|
    requires MaxOf(Highs(candles[index - r..index])) <= MinOf(Lows(candles[index - r..index]))
    ensures Flat(candles, index, r)
  {
    hide MaxOf, MinOf, Highs, Lows;
    forall j, k | index - r <= j < index && index - r <= k < index
      ensures candles[j].high <= candles[k].low
    {
      InWindow(candles, index - r, index, j);
      InWindow(candles, index - r, index, k);
    }
  }

  lemma InWindow(candles: seq<Candle>, from: nat, to: nat, j: nat)
    requires from <= j < to <= |candles|
    ensures candles[j].high <= MaxOf(Highs(candles[from..to])) && MinOf(Lows(candles[from..to])) <= candles[j].low
  {
    hide MaxOf, MinOf;
    var window := candles[from..to];
    assert Highs(window)[j - from] == candles[j].high && Lows(window)[j - from] == candles[j].low;
  }

  lemma FlatSpread(candles: seq<Candle>, index: nat, r: nat)
    requires AllWellFormed(candles) && 0 < r <= index < |candles| && Flat(candles, index, r)
    ensures RangeRatio(candles[index - r..index]) <= 0.0
  {
    var window := candles[index - r..index];
    var highs, lows := Highs(window), Lows(window);
    LowIsPositive(window);
    var i :| 0 <= i < |window| && highs[i] == MaxOf(highs);
    var k :| 0 <= k < |window| && lows[k] == MinOf(lows);
    assert candles[index - r + i].high == highs[i] && candles[index - r + k].low == lows[k];
    QuotientCompare(MaxOf(highs) - MinOf(lows), MinOf(lows), 0.0);
    assert highs[i] <= lows[k];
    NoMoreThanZero(MaxOf(highs), MinOf(lows));
  }

  lemma NoMoreThanZero(high: real, low: real)
    requires low > 0.0 && high <= low
    ensures Gap(high, low, low) <= 0.0
  {
    QuotientCompare(high - low, low, 0.0);
  }

  /** For any periods: the trend contributions differ exactly on a flat regime under a wide pullback window, with the
      closes far enough from their earlier ones. */
  lemma TrendContributionDiffersIff(candles: seq<Candle>, d: Precomputed, index: nat, candleLimit: nat, p: RouterParams)
    requires Market(candles, d, index, candleLimit, p) && ValidParams(p)
    ensures Tradable(ContextFor(candles, index, candleLimit))
    ensures Directions(d, index, p).trend !=
            Encoded(Outcomes(ContextFor(candles, index, candleLimit), p).trend.direction)
       <==> && Flat(candles, index, p.rangeRegimePeriod)
            && (Rises(TrendViewAt(candles, index, p.trend), p.trend)
                || Falls(TrendViewAt(candles, index, p.trend), p.trend))
  {
    hide TrendEvaluate, RangeEvaluate, BurstEvaluate, TrendDirection, RangeDirection, BurstDirection, RangeRatio,
      ReturnRatio, Rises, Falls, CandleWindow.Slice, CandleWindow.At, Flat, Describes, LongEnough, TrendViewAt;
    var w := ContextFor(candles, index, candleLimit);
    MarketIsPastWarmUp(candles, d, index, candleLimit, p);
    FastTrendIsSide(candles, d, index, candleLimit, p);
    TrendAgrees(w, d, index, p);
    PriorSlice(w, index, p.rangeRegimePeriod);
    FlatIffNoRange(candles, index, p.rangeRegimePeriod);
  }

  // ---------------------------------------------------------------- the answers

  /** What burst and range contribute, to both routers alike. */
  function Others(d: Precomputed, index: nat, p: RouterParams): PerKey<int>
    requires Readable(d, index) && ValidParams(p) && Supported(d, p)
  {
    Directions(d, index, p).(trend := 0)
  }

  function FastAnswer(d: Precomputed, index: nat, p: RouterParams): int
    requires Readable(d, index) && ValidParams(p) && Supported(d, p)
  {
    FirstDirection(p.order, Directions(d, index, p))
  }

  function ObjectAnswer(candles: seq<Candle>, index: nat, candleLimit: nat, p: RouterParams): int
    requires AllWellFormed(candles) && index < |candles| && ValidParams(p)
  {
    Encoded(RouterEvaluate(ContextFor(candles, index, candleLimit), p).direction)
  }

  /** On a flat regime the object router answers without its trend strategy. */
  lemma ObjectAnswerIs(candles: seq<Candle>, d: Precomputed, index: nat, candleLimit: nat, p: RouterParams)
    requires Market(candles, d, index, candleLimit, p) && ValidParams(p)
    ensures ObjectAnswer(candles, index, candleLimit, p) ==
            FirstDirection(
              p.order,
              if Flat(candles, index, p.rangeRegimePeriod) then Others(d, index, p) else Directions(d, index, p))
  {
    hide TrendEvaluate, RangeEvaluate, BurstEvaluate, TrendDirection, RangeDirection, BurstDirection, RangeRatio,
      ReturnRatio, Ret, CandleWindow.Slice, CandleWindow.At, Flat, Describes, LongEnough, FirstDirection, FirstSignal;
    var w := ContextFor(candles, index, candleLimit);
    MarketIsPastWarmUp(candles, d, index, candleLimit, p);
    TrendAgrees(w, d, index, p);
    RangeAgrees(w, d, index, p);
    BurstAgrees(w, d, index, p);
    ReturnsMatch(w, d, index, p.trendRegimePeriod);
    PriorSlice(w, index, p.rangeRegimePeriod);
    FlatIffNoRange(candles, index, p.rangeRegimePeriod);
    var directions :=
      if Flat(candles, index, p.rangeRegimePeriod) then Others(d, index, p) else Directions(d, index, p);
    FirstAgrees(p.order, Outcomes(w, p), directions);
  }

  /** Trend is reached before burst or range answers, and what follows it would answer differently. */
  ghost predicate TrendDecides(order: seq<Key>, others: PerKey<int>, side: int) {
    exists t :: 0 <= t < |order| && order[t] == Trend
                && (forall k :: 0 <= k < t ==> others.Of(order[k]) == 0)
                && FirstDirection(order[t..], others) != side
  }

  lemma {:induction false} SilencingTrend(order: seq<Key>, others: PerKey<int>, side: int)
    requires others.trend == 0 && side != 0
    ensures FirstDirection(order, others.(trend := side)) != FirstDirection(order, others)
       <==> TrendDecides(order, others, side)
  {
    if order == [] {
      assert !TrendDecides(order, others, side);
    } else if order[0] == Trend {
      assert order[0..] == order;
      if TrendDecides(order, others, side) {
        FirstSkips(order, others, side);
      }
    } else {
      SilencingTrend(order[1..], others, side);
      DecidedLater(order, others, side);
      hide TrendDecides;
    }
  }

  lemma DecidedLater(order: seq<Key>, others: PerKey<int>, side: int)
    requires order != [] && order[0] != Trend
    ensures TrendDecides(order, others, side) <==> others.Of(order[0]) == 0 && TrendDecides(order[1..], others, side)
  {
    hide FirstDirection;
    var rest := order[1..];
    if TrendDecides(rest, others, side) && others.Of(order[0]) == 0 {
      var t :| 0 <= t < |rest| && rest[t] == Trend && (forall k :: 0 <= k < t ==> others.Of(rest[k]) == 0)
               && FirstDirection(rest[t..], others) != side;
      assert order[t + 1..] == rest[t..] && order[t + 1] == Trend;
      assert forall k :: 1 <= k < t + 1 ==> order[k] == rest[k - 1];
    }
    if TrendDecides(order, others, side) {
      var t :| 0 <= t < |order| && order[t] == Trend && (forall k :: 0 <= k < t ==> others.Of(order[k]) == 0)
               && FirstDirection(order[t..], others) != side;
      assert rest[t - 1..] == order[t..] && rest[t - 1] == Trend;
      assert forall k :: 0 <= k < t - 1 ==> rest[k] == order[k + 1];
    }
  }

  /** Silent keys in front do not matter. */
  lemma {:induction false} FirstSkips(order: seq<Key>, others: PerKey<int>, side: int)
    requires order != [] && order[0] == Trend && others.trend == 0 && TrendDecides(order, others, side)
    ensures FirstDirection(order, others) != side
  {
    var t :| 0 <= t < |order| && order[t] == Trend && (forall k :: 0 <= k < t ==> others.Of(order[k]) == 0)
             && FirstDirection(order[t..], others) != side;
    SkipSilent(order, others, t);
  }

  lemma {:induction false} SkipSilent(order: seq<Key>, others: PerKey<int>, t: nat)
    requires t <= |order| && forall k :: 0 <= k < t ==> others.Of(order[k]) == 0
    ensures FirstDirection(order, others) == FirstDirection(order[t..], others)
  {
    if t == 0 {
      assert order[0..] == order;
    } else {
      assert order[1..][t - 1..] == order[t..];
      SkipSilent(order[1..], others, t - 1);
    }
  }

  /** For any periods and any order: the routers answer differently exactly when the regime is flat, the pullback window
      is wide and the closes moved enough for the trend rule, no strategy before "trend" answers, and those after it do
      not give the same direction. */
  lemma RoutersDifferIff(candles: seq<Candle>, d: Precomputed, index: nat, candleLimit: nat, p: RouterParams)
    requires Market(candles, d, index, candleLimit, p) && ValidParams(p)
    ensures FastAnswer(d, index, p) != ObjectAnswer(candles, index, candleLimit, p) <==>
            && Flat(candles, index, p.rangeRegimePeriod)
            && (Rises(TrendViewAt(candles, index, p.trend), p.trend)
                || Falls(TrendViewAt(candles, index, p.trend), p.trend))
            && TrendDecides(p.order, Others(d, index, p), Side(TrendViewAt(candles, index, p.trend), p.trend))
  {
    hide TrendDirection, RangeDirection, BurstDirection, Rises, Falls, Flat, Describes, LongEnough, TrendViewAt,
      FirstDirection, TrendDecides, Ret, ObjectAnswer;
    ObjectAnswerIs(candles, d, index, candleLimit, p);
    FastTrendIsSide(candles, d, index, candleLimit, p);
    var side := Side(TrendViewAt(candles, index, p.trend), p.trend);
    assert Directions(d, index, p) == Others(d, index, p).(trend := side);
    if side != 0 {
      SilencingTrend(p.order, Others(d, index, p), side);
    }
  }

  // ---------------------------------------------------------------- for which parameters they always agree

  /** The periods the precomputation has rolling columns for. */
  ghost const LISTED: set<nat> := set p | p in PERIODS

  /** A bar the simulation asks both routers about, over the columns it precomputes. */
  ghost predicate SimulatedMarket(candles: seq<Candle>, d: Precomputed, index: nat, candleLimit: nat, p: RouterParams) {
    Market(candles, d, index, candleLimit, p) && index >= ScalpingSimulator.WARM_UP && d.highOf.Keys == LISTED
  }

  ghost predicate AlwaysAgree(p: RouterParams)
    requires ValidParams(p)
  {
    forall candles: seq<Candle>, d, index, candleLimit :: SimulatedMarket(candles, d, index, candleLimit, p) ==>
      FastAnswer(d, index, p) == ObjectAnswer(candles, index, candleLimit, p)
  }

  /** A period without a column is a KeyError. */
  ghost predicate HasColumns(p: RouterParams) {
    {p.trend.pullbackPeriod, p.range.rangePeriod, p.burst.breakoutPeriod, p.burst.volumePeriod} <= LISTED
  }

  /** Burst is not consulted, or needs some volume, or looks past the flat regime for a close beyond the extremes. */
  predicate BurstIsGated(p: RouterParams) {
    || Burst !in p.order
    || p.burst.minVolumeRatio > 0.0
    || (p.burst.breakoutBuffer >= 0.0 && p.burst.breakoutPeriod > p.rangeRegimePeriod)
  }

  /** A lookback of zero compares the close with itself, which is no rise. */
  predicate TrendCanFire(p: TrendParams) {
    (p.trendPeriod > 0 || p.minTrendReturn <= 0.0) && (p.triggerPeriod > 0 || p.minTriggerReturn <= 0.0)
  }

  /** With "trend" in the order the routers agree on every bar of every simulation if the pullback window lies within
      the regime window or the trend rule can never fire; and only then, when burst is gated. */
  lemma AlwaysAgreeIff(p: RouterParams)
    requires ValidParams(p) && HasColumns(p) && Trend in p.order
    ensures p.trend.pullbackPeriod <= p.rangeRegimePeriod || !TrendCanFire(p.trend) ==> AlwaysAgree(p)
    ensures BurstIsGated(p) && AlwaysAgree(p) ==>
              p.trend.pullbackPeriod <= p.rangeRegimePeriod || !TrendCanFire(p.trend)
  {
    hide FastAnswer, ObjectAnswer, Describes, LongEnough;
    if p.trend.pullbackPeriod <= p.rangeRegimePeriod || !TrendCanFire(p.trend) {
      forall candles: seq<Candle>, d, index, candleLimit | SimulatedMarket(candles, d, index, candleLimit, p)
        ensures FastAnswer(d, index, p) == ObjectAnswer(candles, index, candleLimit, p)
      {
        AgreesWithin(candles, d, index, candleLimit, p);
      }
    } else if BurstIsGated(p) {
      var candles, d, index, candleLimit := MarketThatTellsThemApart(p);
    }
  }

  /** Ungated, burst can answer every time: when it comes first and any close at all counts as a breakout. */
  predicate BurstAlwaysAnswers(p: RouterParams) {
    && p.order != [] && p.order[0] == Burst
    && p.burst.minVolumeRatio <= 0.0 && p.burst.breakoutBuffer <= -1.0
    && p.burst.impulsePeriod == 0 && p.burst.minImpulseReturn <= 0.0
  }

  /** Then the routers agree whatever the other parameters are. */
  lemma BurstMasksTheDifference(p: RouterParams)
    requires ValidParams(p) && BurstAlwaysAnswers(p)
    ensures AlwaysAgree(p)
  {
    hide FastAnswer, ObjectAnswer, Describes, LongEnough;
    forall candles: seq<Candle>, d, index, candleLimit | SimulatedMarket(candles, d, index, candleLimit, p)
      ensures FastAnswer(d, index, p) == ObjectAnswer(candles, index, candleLimit, p)
    {
      RoutersDifferIff(candles, d, index, candleLimit, p);
      BurstAnswers(candles, d, index, candleLimit, p);
      hide Flat, Rises, Falls;
    }
  }

  lemma BurstAnswers(candles: seq<Candle>, d: Precomputed, index: nat, candleLimit: nat, p: RouterParams)
    requires Market(candles, d, index, candleLimit, p) && ValidParams(p) && BurstAlwaysAnswers(p)
    ensures Others(d, index, p).Of(Burst) != 0
  {
    OthersBurst(candles, d, index, candleLimit, p);
    hide BurstOn, Describes, Others, LongEnough;
    BurstOnAnswers(candles, index, p.burst);
  }

  lemma BurstOnAnswers(candles: seq<Candle>, index: nat, p: BurstParams)
    requires AllWellFormed(candles) && index < |candles| && p.impulsePeriod == 0
    requires 0 < p.breakoutPeriod <= index && 0 < p.volumePeriod <= index
    requires p.minVolumeRatio <= 0.0 && p.breakoutBuffer <= -1.0 && p.minImpulseReturn <= 0.0
    ensures BurstOn(candles, index, p) != 0
  {
    hide MaxOf, MinOf, Average, BurstRule;
    var latest, window := candles[index], candles[index - p.breakoutPeriod..index];
    assert latest.WellFormed();
    LowIsPositive(window);
    HighIsPositive(window);
    AnyCloseBreaksOut(ReturnRatio(latest.close, latest.close), latest,
                      Average(Volumes(candles[index - p.volumePeriod..index])), MaxOf(Highs(window)),
                      MinOf(Lows(window)), p);
  }

  /** What burst contributes, read off the candles. */
  lemma OthersBurst(candles: seq<Candle>, d: Precomputed, index: nat, candleLimit: nat, p: RouterParams)
    requires Market(candles, d, index, candleLimit, p) && ValidParams(p)
    ensures p.burst.impulsePeriod <= index && 0 < p.burst.breakoutPeriod <= index && 0 < p.burst.volumePeriod <= index
    ensures Others(d, index, p).burst == BurstOn(candles, index, p.burst)
  {
    hide Describes, BurstDirection, RangeDirection, TrendDirection, BurstOn;
    MarketIsPastWarmUp(candles, d, index, candleLimit, p);
    BurstReadsColumns(ContextFor(candles, index, candleLimit), d, index, p);
  }

  lemma HighIsPositive(window: seq<Candle>)
    requires AllWellFormed(window) && window != []
    ensures MaxOf(Highs(window)) > 0.0
  {
    assert window[0].WellFormed() && Highs(window)[0] == window[0].high;
  }

  lemma AnyCloseBreaksOut(impulse: real, latest: Candle, average: real, high: real, low: real, p: BurstParams)
    requires impulse == 0.0 && latest.WellFormed() && high > 0.0 && low > 0.0
    requires p.minVolumeRatio <= 0.0 && p.breakoutBuffer <= -1.0 && p.minImpulseReturn <= 0.0
    ensures BurstRule(impulse, latest.volume, average, high, low, latest.close, p) != 0
  {
    ProductMonotone(1.0 + p.breakoutBuffer, 0.0, high);
  }

  lemma AgreesWithin(candles: seq<Candle>, d: Precomputed, index: nat, candleLimit: nat, p: RouterParams)
    requires ValidParams(p) && Market(candles, d, index, candleLimit, p)
    requires p.trend.pullbackPeriod <= p.rangeRegimePeriod || !TrendCanFire(p.trend)
    ensures FastAnswer(d, index, p) == ObjectAnswer(candles, index, candleLimit, p)
  {
    hide Describes, LongEnough, FirstDirection, RouterEvaluate, Directions;
    if p.trend.pullbackPeriod <= p.rangeRegimePeriod {
      RoutersAgree(candles, d, index, candleLimit, p);
    } else {
      RoutersDifferIff(candles, d, index, candleLimit, p);
      NeverFires(candles, index, p.trend);
    }
  }

  lemma NeverFires(candles: seq<Candle>, index: nat, p: TrendParams)
    requires AllWellFormed(candles) && index < |candles| && !TrendCanFire(p)
    requires p.trendPeriod <= index && p.triggerPeriod <= index && 0 < p.pullbackPeriod <= index
    ensures var v := TrendViewAt(candles, index, p); !Rises(v, p) && !Falls(v, p)
  {
    hide MaxOf, MinOf, Rises, Falls;
    assert candles[index].WellFormed();
    NoMoveNoSide(TrendViewAt(candles, index, p), p);
  }

  lemma NoMoveNoSide(v: TrendView, p: TrendParams)
    requires v.close > 0.0 && !TrendCanFire(p)
    requires (p.trendPeriod == 0 ==> v.base == v.close) && (p.triggerPeriod == 0 ==> v.trigger == v.close)
    ensures !Rises(v, p) && !Falls(v, p)
  {
    ProductOrder(0.0, p.minTrendReturn, v.close);
    ProductOrder(0.0, p.minTriggerReturn, v.close);
    ProductOrder(-p.minTrendReturn, 0.0, v.close);
    ProductOrder(-p.minTriggerReturn, 0.0, v.close);
    assert p.trendPeriod == 0 && p.minTrendReturn > 0.0 ==>
        Part(p.minTrendReturn, v.base) > 0.0 && Part(-p.minTrendReturn, v.base) < 0.0;
    assert p.triggerPeriod == 0 && p.minTriggerReturn > 0.0 ==>
        Part(p.minTriggerReturn, v.trigger) > 0.0 && Part(-p.minTriggerReturn, v.trigger) < 0.0;
    hide Part;
  }

  // A market that tells them apart: flat at 1 but for one tall candle just before the regime window, then a rise.

  function Length(p: RouterParams): nat {
    ScalpingSimulator.WARM_UP + p.trend.trendPeriod + p.trend.pullbackPeriod + p.trend.triggerPeriod
    + p.range.rangePeriod + p.burst.breakoutPeriod + p.burst.impulsePeriod + p.burst.volumePeriod
    + p.rangeRegimePeriod + p.trendRegimePeriod
  }

  function Rise(p: TrendParams): real {
    1.0 + Max(0.0, Max(p.minTrendReturn, p.minTriggerReturn))
  }

  function Top(p: TrendParams): real {
    Rise(p) * (1.0 + Max(0.0, p.minPullback)) + Max(0.0, p.minRangeRatio)
  }

  function CandleAt(i: nat, p: RouterParams): Candle {
    if i == Length(p) then Candle(i, Rise(p.trend), Rise(p.trend), Rise(p.trend), Rise(p.trend), 0.0)
    else if i == Length(p) - p.rangeRegimePeriod - 1 then Candle(i, 1.0, Top(p.trend), 1.0, 1.0, 0.0)
    else Candle(i, 1.0, 1.0, 1.0, 1.0, 0.0)
  }

  function Telling(p: RouterParams): (candles: seq<Candle>)
    ensures |candles| == Length(p) + 1
  {
    seq(Length(p) + 1, i requires 0 <= i <= Length(p) => CandleAt(i, p))
  }

  lemma TellingIsWellFormed(p: RouterParams)
    ensures AllWellFormed(Telling(p)) && Rise(p.trend) >= 1.0 && Top(p.trend) >= Rise(p.trend)
  {
    ProductMonotone(1.0, 1.0 + Max(0.0, p.trend.minPullback), Rise(p.trend));
  }

  /** The view at the end of it rises ... */
  lemma TellingRises(p: RouterParams)
    requires ValidParams(p) && TrendCanFire(p.trend) && p.trend.pullbackPeriod > p.rangeRegimePeriod
    ensures Rises(TrendViewAt(Telling(p), Length(p), p.trend), p.trend)
  {
    hide MaxOf, MinOf, Rise, Top, Rises, Telling, CandleAt;
    TellingExtremes(p, p.trend.pullbackPeriod);
    TellingClose(p, 0);
    TellingClose(p, p.trend.trendPeriod);
    TellingClose(p, p.trend.triggerPeriod);
    RiseIsEnough(p.trend, TrendViewAt(Telling(p), Length(p), p.trend));
  }

  lemma TellingClose(p: RouterParams, back: nat)
    requires back <= Length(p)
    ensures Telling(p)[Length(p) - back].close == if back == 0 then Rise(p.trend) else 1.0
  {
  }

  /** ... and the regime before it is flat. */
  lemma TellingIsFlat(p: RouterParams)
    ensures Flat(Telling(p), Length(p), p.rangeRegimePeriod)
  {
    hide Rise, Top;
    var n, r := Length(p), p.rangeRegimePeriod;
    forall j | n - r <= j < n
      ensures Telling(p)[j].high == 1.0 && Telling(p)[j].low == 1.0
    {
      assert Telling(p)[j] == CandleAt(j, p);
    }
    hide Telling, Length;
  }

  lemma TellingExtremes(p: RouterParams, q: nat)
    requires p.rangeRegimePeriod < q <= Length(p)
    ensures var window := Telling(p)[Length(p) - q..Length(p)];
            MaxOf(Highs(window)) == Top(p.trend) && MinOf(Lows(window)) == 1.0
  {
    hide MaxOf, MinOf, Top, Rise;
    TellingIsWellFormed(p);
    var n, tall := Length(p), q - p.rangeRegimePeriod - 1;
    var window := Telling(p)[n - q..n];
    var highs, lows := Highs(window), Lows(window);
    forall i | 0 <= i < q
      ensures highs[i] == (if i == tall then Top(p.trend) else 1.0) && lows[i] == 1.0
    {
      assert window[i] == CandleAt(n - q + i, p);
    }
    hide Telling, CandleAt, Length;
    var i :| 0 <= i < q && highs[i] == MaxOf(highs);
    var k :| 0 <= k < q && lows[k] == MinOf(lows);
    assert highs[tall] <= MaxOf(highs);
  }

  lemma RiseIsEnough(p: TrendParams, v: TrendView)
    requires TrendCanFire(p) && v.close == Rise(p) && v.low == 1.0 && v.high == Top(p)
    requires v.base == if p.trendPeriod == 0 then Rise(p) else 1.0
    requires v.trigger == if p.triggerPeriod == 0 then Rise(p) else 1.0
    ensures Rises(v, p)
  {
    var c := Rise(p);
    MovedEnough(c, v.base, p.minTrendReturn, p.trendPeriod);
    MovedEnough(c, v.trigger, p.minTriggerReturn, p.triggerPeriod);
    TopIsEnough(p);
    hide Part, Top, Rise;
  }

  lemma MovedEnough(close: real, base: real, ratio: real, period: nat)
    requires close >= 1.0 && close >= 1.0 + ratio && (period > 0 || ratio <= 0.0)
    requires base == if period == 0 then close else 1.0
    ensures close - base >= Part(ratio, base)
  {
    if period == 0 {
      ProductMonotone(ratio, 0.0, close);
    }
  }

  lemma TopIsEnough(p: TrendParams)
    ensures Rise(p) >= 1.0 && Rise(p) >= 1.0 + p.minTrendReturn && Rise(p) >= 1.0 + p.minTriggerReturn
    ensures Top(p) - Rise(p) >= Part(p.minPullback, Rise(p)) && Top(p) - 1.0 >= Part(p.minRangeRatio, 1.0)
  {
    var c, k := Rise(p), Max(0.0, p.minPullback);
    ProductMonotone(p.minPullback, k, c);
    ProductMonotone(0.0, k, c);
    assert c * (1.0 + k) == c + k * c;
  }

  /** A rolling column, entry by entry. */
  ghost function Column(values: seq<real>, period: nat, fold: seq<real> --> real): seq<real>
    requires forall w: seq<real> :: w != [] ==> fold.requires(w)
  {
    seq(|values|, i requires 0 <= i < |values| =>
      if PriorWindow(values, i, period) == [] then values[i] else fold(PriorWindow(values, i, period)))
  }

  ghost function Columns(candles: seq<Candle>, periods: set<nat>): Precomputed {
    Precomputed(Opens(candles), Highs(candles), Lows(candles), Closes(candles), Volumes(candles),
                map p | p in periods :: Column(Highs(candles), p, MaxOf),
                map p | p in periods :: Column(Lows(candles), p, MinOf),
                map p | p in periods :: Column(Volumes(candles), p, Average))
  }

  lemma ColumnsDescribe(candles: seq<Candle>, periods: set<nat>)
    ensures Describes(Columns(candles, periods), candles) && Columns(candles, periods).highOf.Keys == periods
  {
    hide MaxOf, MinOf, Average;
  }

  lemma MarketThatTellsThemApart(p: RouterParams)
    returns (candles: seq<Candle>, d: Precomputed, index: nat, candleLimit: nat)
    requires ValidParams(p) && HasColumns(p) && Trend in p.order && BurstIsGated(p)
    requires TrendCanFire(p.trend) && p.trend.pullbackPeriod > p.rangeRegimePeriod
    ensures SimulatedMarket(candles, d, index, candleLimit, p)
    ensures FastAnswer(d, index, p) != ObjectAnswer(candles, index, candleLimit, p)
  {
    hide Describes, LongEnough, Telling, CandleAt, Rise, Top, Columns, Flat, Rises, Falls, TrendDecides, FastAnswer,
      ObjectAnswer;
    candles, index, candleLimit := Telling(p), Length(p), Length(p) + 1;
    d := Columns(candles, LISTED);
    TellingIsAMarket(candles, d, index, candleLimit, p);
    TellingRises(p);
    TellingIsFlat(p);
    TellingLatest(p);
    OthersAreSilent(candles, d, index, candleLimit, p);
    SilentOthersLetTrendDecide(p.order, Others(d, index, p), 1);
    hide TrendViewAt;
    RoutersDifferIff(candles, d, index, candleLimit, p);
  }

  lemma TellingLatest(p: RouterParams)
    ensures var latest := Telling(p)[Length(p)];
            latest.volume == 0.0 && latest.high == latest.low && latest.close == Rise(p.trend)
  {
  }

  lemma TellingIsAMarket(candles: seq<Candle>, d: Precomputed, index: nat, candleLimit: nat, p: RouterParams)
    requires ValidParams(p) && HasColumns(p) && candles == Telling(p) && index == Length(p)
             && candleLimit == Length(p) + 1
    requires d == Columns(candles, LISTED)
    ensures SimulatedMarket(candles, d, index, candleLimit, p)
  {
    hide CandleAt, LISTED, Describes, DescribesAt, Columns;
    TellingIsWellFormed(p);
    ColumnsDescribe(candles, LISTED);
    DescribedEverywhere(d, candles, index);
    assert candles[index].WellFormed();
    hide Telling, Rise, Top;
    IsReadable(d, candles, index);
    assert Supported(d, p);
  }

  lemma IsReadable(d: Precomputed, candles: seq<Candle>, index: nat)
    requires DescribesAt(d, candles, index) && candles[index].WellFormed()
    ensures Readable(d, index)
  {
  }

  /** Without a body range stays silent, and without volume, or below the tall candle, burst does. */
  lemma OthersAreSilent(candles: seq<Candle>, d: Precomputed, index: nat, candleLimit: nat, p: RouterParams)
    requires ValidParams(p) && BurstIsGated(p) && Market(candles, d, index, candleLimit, p)
    requires candles == Telling(p) && index == Length(p)
    ensures forall key :: key in p.order ==> Others(d, index, p).Of(key) == 0
  {
    hide Describes, LongEnough, BurstDirection, RangeDirection, TrendDirection, BurstOn, Telling, CandleAt, Length;
    TellingLatest(p);
    DescribedLatest(d, candles, index);
    RangeIsSilent(d, index, p.range);
    if Burst in p.order {
      OthersBurst(candles, d, index, candleLimit, p);
      BurstIsSilent(candles, index, p);
    }
    hide Market;
  }

  lemma RangeIsSilent(d: Precomputed, index: nat, p: RangeParams)
    requires Readable(d, index) && p.rangePeriod in d.highOf && p.minRangeRatio > 0.0
    requires d.high[index] == d.low[index]
    ensures RangeDirection(d, index, p) == 0
  {
    hide Gap;
  }

  lemma BurstIsSilent(candles: seq<Candle>, index: nat, p: RouterParams)
    requires candles == Telling(p) && index == Length(p) && BurstIsGated(p) && Burst in p.order
    requires p.burst.impulsePeriod <= index && 0 < p.burst.breakoutPeriod <= index && 0 < p.burst.volumePeriod <= index
    ensures BurstOn(candles, index, p.burst) == 0
  {
    hide Telling, MaxOf, MinOf, Average, ReturnRatio, Rise, Top;
    TellingLatest(p);
    if p.burst.minVolumeRatio <= 0.0 {
      TellingExtremes(p, p.burst.breakoutPeriod);
      TellingIsWellFormed(p);
      ProductMonotone(1.0, 1.0 + p.burst.breakoutBuffer, Top(p.trend));
    }
  }

  lemma SilentOthersLetTrendDecide(order: seq<Key>, others: PerKey<int>, side: int)
    requires Trend in order && side != 0
    requires forall key :: key in order ==> others.Of(key) == 0
    ensures TrendDecides(order, others, side)
  {
    var t :| 0 <= t < |order| && order[t] == Trend;
    AllSilent(order[t..], others);
  }

  lemma {:induction false} AllSilent(order: seq<Key>, others: PerKey<int>)
    requires forall key :: key in order ==> others.Of(key) == 0
    ensures FirstDirection(order, others) == 0
  {
    if order == [] {
      assert FirstDirection(order, others) == 0;
    } else {
      AllSilent(order[1..], others);
    }
  }
}
