/** Two forms of the regime router: the strategy objects that slice the candle window they are given, and the
    array form that reads precomputed columns at an index. The theorem is that they route alike. */
module RegimeRouter {
  import opened CandleWindows
  import opened PrecomputedMarket
  import opened Reals
  import Results

  datatype Direction = Long | Short | Wait

  datatype Signal = Signal(direction: Direction, confidence: real)

  datatype TrendParams = TrendParams(
    trendPeriod: nat, pullbackPeriod: nat, triggerPeriod: nat,
    minTrendReturn: real, minPullback: real, minTriggerReturn: real, minRangeRatio: real)

  datatype RangeParams = RangeParams(
    rangePeriod: nat, edgeRatio: real, minReversalBodyRatio: real, minRangeRatio: real)

  datatype BurstParams = BurstParams(
    breakoutPeriod: nat, impulsePeriod: nat, volumePeriod: nat,
    minImpulseReturn: real, minVolumeRatio: real, breakoutBuffer: real, fade: bool)

  datatype Key = Burst | Trend | Range

  datatype RouterParams = RouterParams(
    trend: TrendParams, range: RangeParams, burst: BurstParams,
    order: seq<Key>, maxAbsTrendForRange: real, rangeRegimePeriod: nat, trendRegimePeriod: nat)

  const WAIT := Signal(Wait, 0.0)

  function MaxNat(a: nat, b: nat): nat {
    if a < b then b else a
  }

  // ---------------------------------------------------------------- the object form

  function ReturnRatio(current: real, base: real): real {
    if base <= 0.0 then 0.0 else Gap(current, base, base)
  }

  function RangeRatio(candles: seq<Candle>): real {
    if candles == [] then 0.0 else
    var low := MinOf(Lows(candles));
    var high := MaxOf(Highs(candles));
    if low <= 0.0 then 0.0 else Gap(high, low, low)
  }

  /** What the candle types guarantee of any window a strategy is given. */
  ghost predicate Tradable(w: CandleWindow) {
    w.Valid() && AllWellFormed(w.candles)
  }

  function TrendEvaluate(w: CandleWindow, p: TrendParams): Signal
    requires Tradable(w)
  {
    if w.Length() < MaxNat(MaxNat(p.trendPeriod, p.pullbackPeriod), p.triggerPeriod) + 2 then WAIT else
    var latest := w.At(-1).value;
    var trendReturn := ReturnRatio(latest.close, w.At(-1 - p.trendPeriod).value.close);
    var triggerReturn := ReturnRatio(latest.close, w.At(-1 - p.triggerPeriod).value.close);
    var pullbackWindow := w.Slice(-1 - p.pullbackPeriod, -1);
    if RangeRatio(pullbackWindow) < p.minRangeRatio || pullbackWindow == [] then WAIT else
    var high := MaxOf(Highs(pullbackWindow));
    var low := MinOf(Lows(pullbackWindow));
    if trendReturn >= p.minTrendReturn
       && Gap(high, latest.close, latest.close) >= p.minPullback && triggerReturn >= p.minTriggerReturn
    then Signal(Long, 0.72)
    else if trendReturn <= -p.minTrendReturn
            && Gap(latest.close, low, latest.close) >= p.minPullback && triggerReturn <= -p.minTriggerReturn
    then Signal(Short, 0.72)
    else WAIT
  }

  function RangeEvaluate(w: CandleWindow, p: RangeParams): Signal
    requires Tradable(w)
    requires p.rangePeriod > 0 && p.minRangeRatio > 0.0
  {
    if w.Length() < p.rangePeriod + 2 then WAIT else
    var latest := w.At(-1).value;
    var window := w.Slice(-1 - p.rangePeriod, -1);
    var low := MinOf(Lows(window));
    var high := MaxOf(Highs(window));
    var width := high - low;
    if low <= 0.0 || Gap(high, low, low) < p.minRangeRatio then WAIT else
    var candleRange := latest.high - latest.low;
    if candleRange <= 0.0 then WAIT else
    var body := latest.close - latest.open;
    var bodyRatio := Abs(body) / candleRange;
    assert width > 0.0 by { QuotientCompare(width, low, 0.0); }
    var closePosition := Gap(latest.close, low, width);
    if closePosition <= p.edgeRatio && body > 0.0 && bodyRatio >= p.minReversalBodyRatio then Signal(Long, 0.68)
    else if closePosition >= 1.0 - p.edgeRatio && body < 0.0 && bodyRatio >= p.minReversalBodyRatio
    then Signal(Short, 0.68)
    else WAIT
  }

  function BurstEvaluate(w: CandleWindow, p: BurstParams): Signal
    requires Tradable(w)
    requires p.breakoutPeriod > 0
  {
    if w.Length() < MaxNat(MaxNat(p.breakoutPeriod, p.impulsePeriod), p.volumePeriod) + 2 then WAIT else
    var latest := w.At(-1).value;
    var prior := w.Slice(-1 - p.breakoutPeriod, -1);
    var high := MaxOf(Highs(prior));
    var low := MinOf(Lows(prior));
    var impulse := ReturnRatio(latest.close, w.At(-1 - p.impulsePeriod).value.close);
    var volumes := Volumes(w.Slice(-1 - p.volumePeriod, -1));
    var averageVolume := if volumes == [] then 0.0 else Average(volumes);
    var volumeRatio := if averageVolume > 0.0 then latest.volume / averageVolume else 0.0;
    if impulse >= p.minImpulseReturn && volumeRatio >= p.minVolumeRatio
       && latest.close > high * (1.0 + p.breakoutBuffer)
    then Signal(if p.fade then Short else Long, 0.64)
    else if impulse <= -p.minImpulseReturn && volumeRatio >= p.minVolumeRatio
            && latest.close < low * (1.0 - p.breakoutBuffer)
    then Signal(if p.fade then Long else Short, 0.64)
    else WAIT
  }

  /** The periods and thresholds a router is built with. */
  ghost predicate ValidParams(p: RouterParams) {
    && p.range.rangePeriod > 0 && p.range.minRangeRatio > 0.0
    && p.burst.breakoutPeriod > 0 && p.burst.volumePeriod > 0
    && p.trend.pullbackPeriod > 0 && p.trend.minRangeRatio > 0.0
  }

  /** One value per sub-strategy. */
  datatype PerKey<T> = PerKey(burst: T, trend: T, range: T) {
    function Of(key: Key): T {
      match key
      case Burst => burst
      case Trend => trend
      case Range => range
    }
  }

  /** The first sub-strategy in router order that does not wait. */
  function FirstSignal(order: seq<Key>, outcomes: PerKey<Signal>): Signal {
    if order == [] then WAIT
    else if outcomes.Of(order[0]).direction != Wait then outcomes.Of(order[0])
    else FirstSignal(order[1..], outcomes)
  }

  /** What each sub-strategy contributes; a skipped one contributes a wait. */
  function Outcomes(w: CandleWindow, p: RouterParams): PerKey<Signal>
    requires Tradable(w) && ValidParams(p)
    requires MaxNat(p.rangeRegimePeriod, p.trendRegimePeriod) + 2 <= w.Length()
  {
    var latest := w.At(-1).value;
    var trend := ReturnRatio(latest.close, w.At(-1 - p.trendRegimePeriod).value.close);
    var regimeRange := RangeRatio(w.Slice(-1 - p.rangeRegimePeriod, -1));
    PerKey(BurstEvaluate(w, p.burst),
           if regimeRange <= 0.0 then WAIT else TrendEvaluate(w, p.trend),
           if Abs(trend) > p.maxAbsTrendForRange then WAIT else RangeEvaluate(w, p.range))
  }

  function RouterEvaluate(w: CandleWindow, p: RouterParams): Signal
    requires Tradable(w) && ValidParams(p)
  {
    if w.Length() < MaxNat(p.rangeRegimePeriod, p.trendRegimePeriod) + 2 then WAIT
    else FirstSignal(p.order, Outcomes(w, p))
  }

  // ---------------------------------------------------------------- the array form

  /** Columns of equal length, and a positive close at the index. */
  ghost predicate Readable(d: Precomputed, index: nat) {
    && index < |d.close| == |d.open| == |d.high| == |d.low| == |d.volume|
    && d.close[index] > 0.0
    && d.highOf.Keys == d.lowOf.Keys == d.volumeOf.Keys
    && (forall p :: p in d.highOf ==> |d.highOf[p]| == |d.lowOf[p]| == |d.volumeOf[p]| == |d.close|)
  }

  function Ret(d: Precomputed, index: nat, period: nat): real
    requires index < |d.close|
  {
    if index < period then 0.0 else
    var base := d.close[index - period];
    if base > 0.0 then Gap(d.close[index], base, base) else 0.0
  }

  function TrendDirection(d: Precomputed, index: nat, p: TrendParams): int
    requires Readable(d, index) && p.pullbackPeriod in d.highOf
  {
    var trend := Ret(d, index, p.trendPeriod);
    var trigger := Ret(d, index, p.triggerPeriod);
    var high := d.highOf[p.pullbackPeriod][index];
    var low := d.lowOf[p.pullbackPeriod][index];
    var close := d.close[index];
    var rangeRatio := if low > 0.0 then Gap(high, low, low) else 0.0;
    if rangeRatio < p.minRangeRatio then 0
    else if trend >= p.minTrendReturn && Gap(high, close, close) >= p.minPullback
            && trigger >= p.minTriggerReturn then 1
    else if trend <= -p.minTrendReturn && Gap(close, low, close) >= p.minPullback
            && trigger <= -p.minTriggerReturn then -1
    else 0
  }

  function RangeDirection(d: Precomputed, index: nat, p: RangeParams): int
    requires Readable(d, index) && p.rangePeriod in d.highOf && p.minRangeRatio > 0.0
  {
    var low := d.lowOf[p.rangePeriod][index];
    var high := d.highOf[p.rangePeriod][index];
    var width := high - low;
    if low <= 0.0 || Gap(high, low, low) < p.minRangeRatio then 0 else
    var candleRange := d.high[index] - d.low[index];
    if candleRange <= 0.0 then 0 else
    var body := d.close[index] - d.open[index];
    var bodyRatio := Abs(body) / candleRange;
    assert width > 0.0 by { QuotientCompare(width, low, 0.0); }
    var closePosition := Gap(d.close[index], low, width);
    if closePosition <= p.edgeRatio && body > 0.0 && bodyRatio >= p.minReversalBodyRatio then 1
    else if closePosition >= 1.0 - p.edgeRatio && body < 0.0 && bodyRatio >= p.minReversalBodyRatio then -1
    else 0
  }

  function BurstDirection(d: Precomputed, index: nat, p: BurstParams): int
    requires Readable(d, index) && p.breakoutPeriod in d.highOf && p.volumePeriod in d.highOf
  {
    var impulse := Ret(d, index, p.impulsePeriod);
    var high := d.highOf[p.breakoutPeriod][index];
    var low := d.lowOf[p.breakoutPeriod][index];
    var averageVolume := d.volumeOf[p.volumePeriod][index];
    var volumeRatio := if averageVolume > 0.0 then d.volume[index] / averageVolume else 0.0;
    var longBreakout := impulse >= p.minImpulseReturn && volumeRatio >= p.minVolumeRatio
                        && d.close[index] > high * (1.0 + p.breakoutBuffer);
    var shortBreakout := impulse <= -p.minImpulseReturn && volumeRatio >= p.minVolumeRatio
                         && d.close[index] < low * (1.0 - p.breakoutBuffer);
    if longBreakout then (if p.fade then -1 else 1)
    else if shortBreakout then (if p.fade then 1 else -1)
    else 0
  }

  /** The rolling columns the parameters name exist. */
  ghost predicate Supported(d: Precomputed, p: RouterParams) {
    && p.trend.pullbackPeriod in d.highOf && p.range.rangePeriod in d.highOf
    && p.burst.breakoutPeriod in d.highOf && p.burst.volumePeriod in d.highOf
  }

  function FirstDirection(order: seq<Key>, directions: PerKey<int>): int {
    if order == [] then 0
    else if directions.Of(order[0]) != 0 then directions.Of(order[0])
    else FirstDirection(order[1..], directions)
  }

  function Directions(d: Precomputed, index: nat, p: RouterParams): PerKey<int>
    requires Readable(d, index) && ValidParams(p) && Supported(d, p)
  {
    PerKey(BurstDirection(d, index, p.burst),
           TrendDirection(d, index, p.trend),
           if Abs(Ret(d, index, p.trendRegimePeriod)) > p.maxAbsTrendForRange then 0
           else RangeDirection(d, index, p.range))
  }

  /** The array form: sub-strategies are tried lazily, in router order. */
  method EvaluateScalpingDirection(d: Precomputed, index: nat, p: RouterParams) returns (direction: int)
    requires Readable(d, index) && ValidParams(p) && Supported(d, p)
    ensures direction == FirstDirection(p.order, Directions(d, index, p))
  {
    ghost var directions := Directions(d, index, p);
    for k := 0 to |p.order|
      invariant FirstDirection(p.order, directions) == FirstDirection(p.order[k..], directions)
    {
      assert p.order[k..][1..] == p.order[k + 1..];
      var key := p.order[k];
      if key == Range {
        var trend := Ret(d, index, p.trendRegimePeriod);
        if Abs(trend) > p.maxAbsTrendForRange {
          continue;
        }
        direction := RangeDirection(d, index, p.range);
      } else if key == Trend {
        direction := TrendDirection(d, index, p.trend);
      } else {
        direction := BurstDirection(d, index, p.burst);
      }
      if direction != 0 {
        return;
      }
    }
    direction := 0;
  }

  // ---------------------------------------------------------------- agreement

  function Encoded(direction: Direction): int {
    match direction
    case Long => 1
    case Short => -1
    case Wait => 0
  }

  /** The window ends at `index`, is long enough for every sub-strategy, and the columns describe its candles. */
  ghost predicate PastWarmUp(w: CandleWindow, d: Precomputed, index: nat, p: RouterParams) {
    && Tradable(w) && w.end == index + 1 && DescribesAt(d, w.candles, index) && Readable(d, index) && Supported(d, p)
    && LongEnough(w.Length(), p)
  }

  /** The sliced window and the rolling columns see the same values. */
  lemma ColumnsMatchSlice(w: CandleWindow, d: Precomputed, index: nat, p: nat)
    requires Tradable(w) && w.end == index + 1 && DescribesAt(d, w.candles, index)
    requires 0 < p < w.Length() && p in d.highOf
    ensures w.Slice(-1 - p, -1) == w.candles[index - p..index] != []
    ensures WindowAt(d, w.candles, index, p)
    ensures SameExtremes(w, d, index, p, w.candles[index - p..index])
  {
    PriorSlice(w, index, p);
  }

  lemma ReturnsMatch(w: CandleWindow, d: Precomputed, index: nat, p: nat)
    requires Tradable(w) && w.end == index + 1 && DescribesAt(d, w.candles, index) && p < w.Length()
    ensures SameReturn(w, d, index, p)
  {
    PriorSlice(w, index, p);
    PriorSlice(w, index, 0);
  }

  /** What ReturnsMatch and ColumnsMatchSlice establish for one lookback and one window. */
  ghost predicate SameReturn(w: CandleWindow, d: Precomputed, index: nat, p: nat) {
    && w.Valid() && p <= index < |d.close| && index < |w.candles|
    && w.At(-1) == Results.Some(w.candles[index])
    && w.At(-1 - p) == Results.Some(w.candles[index - p])
    && Ret(d, index, p) == ReturnRatio(w.candles[index].close, w.candles[index - p].close)
  }

  ghost predicate SameExtremes(w: CandleWindow, d: Precomputed, index: nat, p: nat, window: seq<Candle>) {
    && w.Valid() && window != [] && w.Slice(-1 - p, -1) == window
    && p in d.highOf && p in d.lowOf && index < |d.highOf[p]| && index < |d.lowOf[p]|
    && d.highOf[p][index] == MaxOf(Highs(window))
    && d.lowOf[p][index] == MinOf(Lows(window))
  }

  /** The three rules on plain numbers: the reference each form is compared with. */
  function TrendRule(trend: real, trigger: real, high: real, low: real, close: real, p: TrendParams): int
    requires close > 0.0
  {
    if (if low > 0.0 then Gap(high, low, low) else 0.0) < p.minRangeRatio then 0
    else if trend >= p.minTrendReturn && Gap(high, close, close) >= p.minPullback
            && trigger >= p.minTriggerReturn then 1
    else if trend <= -p.minTrendReturn && Gap(close, low, close) >= p.minPullback
            && trigger <= -p.minTriggerReturn then -1
    else 0
  }

  function RangeRule(latest: Candle, high: real, low: real, p: RangeParams): int
    requires p.minRangeRatio > 0.0
  {
    if low <= 0.0 || Gap(high, low, low) < p.minRangeRatio || latest.high <= latest.low then 0 else
    assert high > low by { QuotientCompare(high - low, low, 0.0); }
    var position := Gap(latest.close, low, high - low);
    var bodyRatio := Abs(latest.close - latest.open) / (latest.high - latest.low);
    if bodyRatio < p.minReversalBodyRatio then 0
    else if position <= p.edgeRatio && latest.close > latest.open then 1
    else if position >= 1.0 - p.edgeRatio && latest.close < latest.open then -1
    else 0
  }

  function BurstRule(
      impulse: real, volume: real, average: real, high: real, low: real, close: real, p: BurstParams): int
  {
    var follow := if p.fade then -1 else 1;
    if (if average > 0.0 then volume / average else 0.0) < p.minVolumeRatio then 0
    else if impulse >= p.minImpulseReturn && close > high * (1.0 + p.breakoutBuffer) then follow
    else if impulse <= -p.minImpulseReturn && close < low * (1.0 - p.breakoutBuffer) then -follow
    else 0
  }

  lemma TrendSliceForm(w: CandleWindow, p: TrendParams, latest: Candle, base: real, trigger: real, window: seq<Candle>)
    requires Tradable(w) && p.minRangeRatio > 0.0
    requires MaxNat(MaxNat(p.trendPeriod, p.pullbackPeriod), p.triggerPeriod) + 2 <= w.Length()
    requires w.At(-1).value == latest && latest.close > 0.0
    requires w.At(-1 - p.trendPeriod).value.close == base && w.At(-1 - p.triggerPeriod).value.close == trigger
    requires w.Slice(-1 - p.pullbackPeriod, -1) == window != []
    ensures Encoded(TrendEvaluate(w, p).direction) ==
            TrendRule(ReturnRatio(latest.close, base), ReturnRatio(latest.close, trigger),
                      MaxOf(Highs(window)), MinOf(Lows(window)), latest.close, p)
  {
    hide Gap, MaxOf, MinOf, Average, CandleWindow.Slice, CandleWindow.At;
  }

  lemma RangeSliceForm(w: CandleWindow, p: RangeParams, latest: Candle, window: seq<Candle>)
    requires Tradable(w) && p.rangePeriod > 0 && p.minRangeRatio > 0.0 && p.rangePeriod + 2 <= w.Length()
    requires w.At(-1).value == latest
    requires w.Slice(-1 - p.rangePeriod, -1) == window != []
    ensures Encoded(RangeEvaluate(w, p).direction) == RangeRule(latest, MaxOf(Highs(window)), MinOf(Lows(window)), p)
  {
    hide Gap, MaxOf, MinOf, Average, CandleWindow.Slice, CandleWindow.At;
  }

  lemma BurstSliceForm(
      w: CandleWindow, p: BurstParams, latest: Candle, base: real, window: seq<Candle>, recent: seq<Candle>)
    requires Tradable(w) && p.breakoutPeriod > 0
    requires MaxNat(MaxNat(p.breakoutPeriod, p.impulsePeriod), p.volumePeriod) + 2 <= w.Length()
    requires w.At(-1).value == latest && w.At(-1 - p.impulsePeriod).value.close == base
    requires w.Slice(-1 - p.breakoutPeriod, -1) == window != []
    requires w.Slice(-1 - p.volumePeriod, -1) == recent != []
    ensures Encoded(BurstEvaluate(w, p).direction) ==
            BurstRule(ReturnRatio(latest.close, base), latest.volume, Average(Volumes(recent)),
                      MaxOf(Highs(window)), MinOf(Lows(window)), latest.close, p)
  {
    hide Gap, MaxOf, MinOf, Average, CandleWindow.Slice, CandleWindow.At;
  }

  lemma TrendColumnForm(d: Precomputed, index: nat, p: RouterParams, close: real)
    requires Readable(d, index) && ValidParams(p) && Supported(d, p) && close == d.close[index]
    ensures TrendDirection(d, index, p.trend) ==
            TrendRule(Ret(d, index, p.trend.trendPeriod), Ret(d, index, p.trend.triggerPeriod),
                      d.highOf[p.trend.pullbackPeriod][index], d.lowOf[p.trend.pullbackPeriod][index], close, p.trend)
  {
    hide Gap, Ret;
  }

  lemma RangeColumnForm(d: Precomputed, index: nat, p: RouterParams, latest: Candle)
    requires Readable(d, index) && ValidParams(p) && Supported(d, p)
    requires latest.open == d.open[index] && latest.close == d.close[index]
    requires latest.high == d.high[index] && latest.low == d.low[index]
    ensures RangeDirection(d, index, p.range) ==
            RangeRule(latest, d.highOf[p.range.rangePeriod][index], d.lowOf[p.range.rangePeriod][index], p.range)
  {
    hide Gap;
  }

  lemma BurstColumnForm(d: Precomputed, index: nat, p: RouterParams, latest: Candle)
    requires Readable(d, index) && ValidParams(p) && Supported(d, p)
    requires latest.close == d.close[index] && latest.volume == d.volume[index]
    ensures BurstDirection(d, index, p.burst) ==
            BurstRule(Ret(d, index, p.burst.impulsePeriod), latest.volume, d.volumeOf[p.burst.volumePeriod][index],
                      d.highOf[p.burst.breakoutPeriod][index], d.lowOf[p.burst.breakoutPeriod][index],
                      latest.close, p.burst)
  {
    hide Ret;
  }

  lemma TrendAgrees(w: CandleWindow, d: Precomputed, index: nat, p: RouterParams)
    requires ValidParams(p) && PastWarmUp(w, d, index, p)
    ensures TrendDirection(d, index, p.trend) == Encoded(TrendEvaluate(w, p.trend).direction)
  {
    hide Gap, MaxOf, MinOf, Average, CandleWindow.Slice, CandleWindow.At, TrendRule, RangeRule, BurstRule, ReturnRatio,
      Ret;
    var q, latest := p.trend.pullbackPeriod, w.candles[index];
    ColumnsMatchSlice(w, d, index, q);
    ReturnsMatch(w, d, index, p.trend.trendPeriod);
    ReturnsMatch(w, d, index, p.trend.triggerPeriod);
    TrendSliceForm(w, p.trend, latest, w.candles[index - p.trend.trendPeriod].close,
                   w.candles[index - p.trend.triggerPeriod].close, w.candles[index - q..index]);
    TrendColumnForm(d, index, p, latest.close);
  }

  lemma RangeAgrees(w: CandleWindow, d: Precomputed, index: nat, p: RouterParams)
    requires ValidParams(p) && PastWarmUp(w, d, index, p)
    ensures RangeDirection(d, index, p.range) == Encoded(RangeEvaluate(w, p.range).direction)
  {
    hide Gap, MaxOf, MinOf, Average, CandleWindow.Slice, CandleWindow.At, TrendRule, RangeRule, BurstRule, ReturnRatio,
      Ret;
    var q, latest := p.range.rangePeriod, w.candles[index];
    ColumnsMatchSlice(w, d, index, q);
    ReturnsMatch(w, d, index, 0);
    RangeSliceForm(w, p.range, latest, w.candles[index - q..index]);
    RangeColumnForm(d, index, p, latest);
  }

  lemma BurstAgrees(w: CandleWindow, d: Precomputed, index: nat, p: RouterParams)
    requires ValidParams(p) && PastWarmUp(w, d, index, p)
    ensures BurstDirection(d, index, p.burst) == Encoded(BurstEvaluate(w, p.burst).direction)
  {
    hide BurstOn, Encoded, BurstDirection, BurstEvaluate, DescribesAt;
    BurstReadsSlices(w, index, p.burst);
    BurstReadsColumns(w, d, index, p);
  }

  /** The burst rule on the candles before `index`. */
  function BurstOn(candles: seq<Candle>, index: nat, p: BurstParams): int
    requires index < |candles| && p.impulsePeriod <= index
    requires 0 < p.breakoutPeriod <= index && 0 < p.volumePeriod <= index
  {
    var latest, window := candles[index], candles[index - p.breakoutPeriod..index];
    BurstRule(ReturnRatio(latest.close, candles[index - p.impulsePeriod].close), latest.volume,
              Average(Volumes(candles[index - p.volumePeriod..index])),
              MaxOf(Highs(window)), MinOf(Lows(window)), latest.close, p)
  }

  lemma BurstReadsSlices(w: CandleWindow, index: nat, p: BurstParams)
    requires Tradable(w) && w.end == index + 1 && p.breakoutPeriod > 0 && p.volumePeriod > 0
    requires MaxNat(MaxNat(p.breakoutPeriod, p.impulsePeriod), p.volumePeriod) + 2 <= w.Length()
    ensures Encoded(BurstEvaluate(w, p).direction) == BurstOn(w.candles, index, p)
  {
    hide MaxOf, MinOf, Average, CandleWindow.Slice, CandleWindow.At, BurstRule, ReturnRatio, Encoded, BurstEvaluate,
      Highs, Lows, Volumes;
    PriorSlice(w, index, 0);
    PriorSlice(w, index, p.impulsePeriod);
    PriorSlice(w, index, p.breakoutPeriod);
    PriorSlice(w, index, p.volumePeriod);
    BurstSliceForm(w, p, w.candles[index], w.candles[index - p.impulsePeriod].close,
                   w.candles[index - p.breakoutPeriod..index], w.candles[index - p.volumePeriod..index]);
  }

  lemma BurstReadsColumns(w: CandleWindow, d: Precomputed, index: nat, p: RouterParams)
    requires ValidParams(p) && PastWarmUp(w, d, index, p)
    ensures BurstDirection(d, index, p.burst) == BurstOn(w.candles, index, p.burst)
  {
    hide MaxOf, MinOf, Average, CandleWindow.Slice, CandleWindow.At, BurstRule, ReturnRatio, Ret, BurstDirection,
      Highs, Lows, Volumes;
    ColumnsMatchSlice(w, d, index, p.burst.breakoutPeriod);
    ColumnsMatchSlice(w, d, index, p.burst.volumePeriod);
    ReturnsMatch(w, d, index, p.burst.impulsePeriod);
    BurstColumnForm(d, index, p, w.candles[index]);
  }

  /** A window whose ratio is not positive has no spread at all. */
  lemma FlatHasNoSpread(window: seq<Candle>)
    requires AllWellFormed(window) && window != [] && RangeRatio(window) <= 0.0
    ensures MaxOf(Highs(window)) <= MinOf(Lows(window))
  {
    var low, high := MinOf(Lows(window)), MaxOf(Highs(window));
    var i :| 0 <= i < |window| && Lows(window)[i] == low;
    assert window[i].WellFormed();
    QuotientCompare(high - low, low, 0.0);
  }

  /** A window inside a flat window is flat. */
  lemma FlatInsideFlat(outer: seq<Candle>, drop: nat)
    requires AllWellFormed(outer) && drop < |outer| && RangeRatio(outer) <= 0.0
    ensures MaxOf(Highs(outer[drop..])) <= MinOf(Lows(outer[drop..]))
  {
    hide RangeRatio, MaxOf, MinOf;
    FlatHasNoSpread(outer);
    SuffixExtremes(Highs(outer), drop);
    SuffixExtremes(Lows(outer), drop);
    assert Highs(outer[drop..]) == Highs(outer)[drop..];
    assert Lows(outer[drop..]) == Lows(outer)[drop..];
  }

  lemma FlatColumnSilencesTrend(d: Precomputed, index: nat, p: TrendParams)
    requires Readable(d, index) && p.pullbackPeriod in d.highOf && p.minRangeRatio > 0.0
    requires d.highOf[p.pullbackPeriod][index] <= d.lowOf[p.pullbackPeriod][index]
    ensures TrendDirection(d, index, p) == 0
  {
    hide Gap;
    FlatRatio(d.highOf[p.pullbackPeriod][index], d.lowOf[p.pullbackPeriod][index], p.minRangeRatio);
  }

  /** A flat regime makes the pullback window flat, so the fast trend rule, which lacks the skip, waits anyway. */
  lemma FlatRegimeSilencesTrend(w: CandleWindow, d: Precomputed, index: nat, p: RouterParams)
    requires ValidParams(p) && PastWarmUp(w, d, index, p)
    requires p.trend.pullbackPeriod <= p.rangeRegimePeriod
    requires RangeRatio(w.Slice(-1 - p.rangeRegimePeriod, -1)) <= 0.0
    ensures TrendDirection(d, index, p.trend) == 0
  {
    hide Gap, MaxOf, MinOf, CandleWindow.Slice, CandleWindow.At, RangeRatio, Ret, TrendDirection;
    var q, r := p.trend.pullbackPeriod, p.rangeRegimePeriod;
    ColumnsMatchSlice(w, d, index, q);
    PriorSlice(w, index, r);
    var outer := w.candles[index - r..index];
    FlatInsideFlat(outer, r - q);
    assert outer[r - q..] == w.candles[index - q..index];
    FlatColumnSilencesTrend(d, index, p.trend);
  }

  lemma FlatRatio(high: real, low: real, minimum: real)
    requires high <= low && minimum > 0.0
    ensures (if low > 0.0 then Gap(high, low, low) else 0.0) < minimum
  {
    if low > 0.0 {
      QuotientCompare(high - low, low, 0.0);
    }
  }

  lemma {:induction false} FirstAgrees(order: seq<Key>, outcomes: PerKey<Signal>, directions: PerKey<int>)
    requires forall key :: directions.Of(key) == Encoded(outcomes.Of(key).direction)
    ensures FirstDirection(order, directions) == Encoded(FirstSignal(order, outcomes).direction)
  {
    if order == [] {
      assert FirstSignal(order, outcomes) == WAIT;
    } else {
      FirstAgrees(order[1..], outcomes, directions);
    }
  }

  /** Skips included, every sub-strategy contributes the same direction to both routers. */
  lemma ContributionsAgree(w: CandleWindow, d: Precomputed, index: nat, p: RouterParams, key: Key)
    requires ValidParams(p) && PastWarmUp(w, d, index, p)
    requires p.trend.pullbackPeriod <= p.rangeRegimePeriod
    ensures Directions(d, index, p).Of(key) == Encoded(Outcomes(w, p).Of(key).direction)
  {
    hide TrendEvaluate, RangeEvaluate, BurstEvaluate, TrendDirection, RangeDirection, BurstDirection, RangeRatio,
      ReturnRatio;
    match key {
      case Burst => BurstAgrees(w, d, index, p);
      case Range =>
        RangeAgrees(w, d, index, p);
        ReturnsMatch(w, d, index, p.trendRegimePeriod);
      case Trend =>
        if RangeRatio(w.Slice(-1 - p.rangeRegimePeriod, -1)) <= 0.0 {
          FlatRegimeSilencesTrend(w, d, index, p);
        } else {
          TrendAgrees(w, d, index, p);
        }
    }
  }

  lemma ContributionsRouteAlike(w: CandleWindow, d: Precomputed, index: nat, p: RouterParams)
    requires ValidParams(p) && PastWarmUp(w, d, index, p)
    requires p.trend.pullbackPeriod <= p.rangeRegimePeriod
    ensures FirstDirection(p.order, Directions(d, index, p)) == Encoded(RouterEvaluate(w, p).direction)
  {
    forall key {
      ContributionsAgree(w, d, index, p, key);
    }
    FirstAgrees(p.order, Outcomes(w, p), Directions(d, index, p));
  }

  /** The window is long enough for the router and for each of its sub-strategies. */
  predicate LongEnough(length: nat, p: RouterParams) {
    && MaxNat(p.rangeRegimePeriod, p.trendRegimePeriod) + 2 <= length
    && MaxNat(MaxNat(p.trend.trendPeriod, p.trend.pullbackPeriod), p.trend.triggerPeriod) + 2 <= length
    && p.range.rangePeriod + 2 <= length
    && MaxNat(MaxNat(p.burst.breakoutPeriod, p.burst.impulsePeriod), p.burst.volumePeriod) + 2 <= length
  }

  /** Over well-formed candles, both routers give the same direction at every index past the warm-up,
      whatever window length the object form is given and whatever the router order. */
  lemma RoutersAgree(candles: seq<Candle>, d: Precomputed, index: nat, candleLimit: nat, p: RouterParams)
    requires AllWellFormed(candles) && index < |candles| && Describes(d, candles)
    requires ValidParams(p) && Supported(d, p)
    requires p.trend.pullbackPeriod <= p.rangeRegimePeriod
    requires LongEnough(ContextFor(candles, index, candleLimit).Length(), p)
    ensures Readable(d, index)
    ensures FirstDirection(p.order, Directions(d, index, p)) ==
            Encoded(RouterEvaluate(ContextFor(candles, index, candleLimit), p).direction)
  {
    DescribedEverywhere(d, candles, index);
    assert candles[index].WellFormed();
    ContributionsRouteAlike(ContextFor(candles, index, candleLimit), d, index, p);
  }
}
