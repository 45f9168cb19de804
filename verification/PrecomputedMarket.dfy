/** The arrays the fast router reads: raw columns and, for each supported period, rolling columns over
    the candles strictly before each index. */
module PrecomputedMarket {
  import opened CandleWindows
  import opened Reals

  /** values[max(0, i - period)..i] */
  function PriorWindow(values: seq<real>, i: nat, period: nat): seq<real>
    requires i < |values|
  {
    values[(if i < period then 0 else i - period)..i]
  }

  function Average(values: seq<real>): real
    requires values != []
  {
    Sum(values) / |values| as real
  }

  /** Entry i folds the window before i with `fold`; an empty window gives the value itself. */
  ghost predicate IsPriorEntry(values: seq<real>, period: nat, fold: seq<real> --> real, i: nat, entry: real)
    requires i < |values|
  {
    var window := PriorWindow(values, i, period);
    && (window == [] ==> entry == values[i])
    && (window != [] ==> fold.requires(window) && entry == fold(window))
  }

  ghost predicate IsPriorFold(values: seq<real>, period: nat, fold: seq<real> --> real, output: seq<real>) {
    && |output| == |values|
    && forall i :: 0 <= i < |values| ==> IsPriorEntry(values, period, fold, i, output[i])
  }

  method RollingPrior(values: seq<real>, period: nat, fold: seq<real> --> real) returns (output: seq<real>)
    requires forall w: seq<real> :: w != [] ==> fold.requires(w)
    ensures IsPriorFold(values, period, fold, output)
  {
    output := [];
    for index := 0 to |values|
      invariant |output| == index
      invariant forall i :: 0 <= i < index ==> IsPriorEntry(values, period, fold, i, output[i])
    {
      var start := if index < period then 0 else index - period;
      var window := values[start..index];
      output := output + [if window != [] then fold(window) else values[index]];
    }
  }

  /** A running sum that adds the newest prior value and drops the one leaving the window: the mean of the window. */
  method RollingPriorAverage(values: seq<real>, period: nat) returns (output: seq<real>)
    ensures IsPriorFold(values, period, Average, output)
  {
    hide Sum, Quotient, PriorWindow, IsPriorEntry, Average;
    output := [];
    var running := 0.0;
    for index := 0 to |values|
      invariant |output| == index
      invariant running == if index == 0 then 0.0 else Sum(PriorWindow(values, index - 1, period))
      invariant forall i :: 0 <= i < index ==> IsPriorEntry(values, period, Average, i, output[i])
    {
      if index > 0 {
        SlideSum(values, index - 1, period);
        running := running + values[index - 1];
      }
      if index > period {
        running := running - values[index - period - 1];
      }
      var count := if index < period then index else period;
      var entry := if count != 0 then Quotient(running, count) else values[index];
      WindowCount(values, index, period);
      MeanEntry(values, period, index, running, count);
      output := output + [entry];
    }
  }

  lemma MeanEntry(values: seq<real>, period: nat, i: nat, running: real, count: nat)
    requires i < |values| && count == |PriorWindow(values, i, period)|
    requires running == if i == 0 then 0.0 else Sum(PriorWindow(values, i, period))
    ensures IsPriorEntry(values, period, Average, i, if count != 0 then Quotient(running, count) else values[i])
  {
    hide Sum;
  }

  lemma WindowCount(values: seq<real>, i: nat, period: nat)
    requires i < |values|
    ensures |PriorWindow(values, i, period)| == if i < period then i else period
    ensures i == 0 ==> Sum(PriorWindow(values, i, period)) == 0.0
  {
  }

  /** How the window sum changes when the window slides by one. */
  lemma SlideSum(values: seq<real>, i: nat, period: nat)
    requires i + 1 < |values|
    ensures Sum(PriorWindow(values, i + 1, period)) ==
            Sum(PriorWindow(values, i, period)) + values[i] - (if i + 1 > period then values[i - period] else 0.0)
  {
    var window := PriorWindow(values, i, period);
    var start := if i < period then 0 else i - period;
    var wide := values[start..i + 1];
    assert wide == window + [values[i]];
    SumAppend(window, values[i]);
    if i + 1 > period {
      DropFirst(values, i - period, i + 1);
    }
  }

  lemma DropFirst(values: seq<real>, a: nat, b: nat)
    requires a < b <= |values|
    ensures Sum(values[a..b]) == values[a] + Sum(values[a + 1..b])
  {
    assert values[a..b][1..] == values[a + 1..b];
  }

  /** The periods for which rolling columns exist. */
  const PERIODS: seq<nat> := [5, 8, 12, 20, 30, 45, 60, 90, 120, 180, 240]

  datatype Precomputed = Precomputed(
    open: seq<real>, high: seq<real>, low: seq<real>, close: seq<real>, volume: seq<real>,
    highOf: map<nat, seq<real>>, lowOf: map<nat, seq<real>>, volumeOf: map<nat, seq<real>>)

  ghost predicate PeriodReady(d: Precomputed, p: nat) {
    && p in d.highOf && p in d.lowOf && p in d.volumeOf
    && IsPriorFold(d.high, p, MaxOf, d.highOf[p])
    && IsPriorFold(d.low, p, MinOf, d.lowOf[p])
    && IsPriorFold(d.volume, p, Average, d.volumeOf[p])
  }

  ghost predicate Describes(d: Precomputed, candles: seq<Candle>) {
    && d.open == Opens(candles) && d.high == Highs(candles) && d.low == Lows(candles)
    && d.close == Closes(candles) && d.volume == Volumes(candles)
    && d.highOf.Keys == d.lowOf.Keys == d.volumeOf.Keys
    && forall p :: p in d.highOf ==> PeriodReady(d, p)
  }

  method Precompute(candles: seq<Candle>) returns (data: Precomputed)
    ensures Describes(data, candles)
    ensures data.highOf.Keys == set p | p in PERIODS
    ensures data.highOf.Keys == {5, 8, 12, 20, 30, 45, 60, 90, 120, 180, 240}
  {
    data := Precomputed(Opens(candles), Highs(candles), Lows(candles), Closes(candles), Volumes(candles),
                        map[], map[], map[]);
    for k := 0 to |PERIODS|
      invariant data.open == Opens(candles) && data.high == Highs(candles) && data.low == Lows(candles)
      invariant data.close == Closes(candles) && data.volume == Volumes(candles)
      invariant data.highOf.Keys == data.lowOf.Keys == data.volumeOf.Keys == set p | p in PERIODS[..k]
      invariant forall p :: p in data.highOf ==> PeriodReady(data, p)
    {
      var period := PERIODS[k];
      var highs := RollingPrior(data.high, period, MaxOf);
      var lows := RollingPrior(data.low, period, MinOf);
      var volumes := RollingPriorAverage(data.volume, period);
      assert PERIODS[..k + 1] == PERIODS[..k] + [period];
      ghost var before := data;
      data := data.(highOf := data.highOf[period := highs],
                    lowOf := data.lowOf[period := lows],
                    volumeOf := data.volumeOf[period := volumes]);
      forall p | p in data.highOf
        ensures PeriodReady(data, p)
      {
        if p != period {
          assert PeriodReady(before, p);
        }
      }
    }
    assert PERIODS[..|PERIODS|] == PERIODS;
    ElevenPeriods();
  }

  lemma ElevenPeriods()
    ensures (set p | p in PERIODS) == {5, 8, 12, 20, 30, 45, 60, 90, 120, 180, 240}
  {
  }

  /** The prior window of a column is the column of the candles in that window. */
  lemma PriorColumns(candles: seq<Candle>, i: nat, p: nat)
    requires p <= i < |candles|
    ensures PriorWindow(Highs(candles), i, p) == Highs(candles[i - p..i])
    ensures PriorWindow(Lows(candles), i, p) == Lows(candles[i - p..i])
    ensures PriorWindow(Volumes(candles), i, p) == Volumes(candles[i - p..i])
  {
  }

  /** What the columns hold at one index, in terms of the candles before it. */
  ghost predicate DescribesAt(d: Precomputed, candles: seq<Candle>, index: nat) {
    && index < |candles| == |d.open| == |d.high| == |d.low| == |d.close| == |d.volume|
    && d.open[index] == candles[index].open && d.high[index] == candles[index].high
    && d.low[index] == candles[index].low && d.volume[index] == candles[index].volume
    && (forall k :: 0 <= k <= index ==> d.close[k] == candles[k].close)
    && d.highOf.Keys == d.lowOf.Keys == d.volumeOf.Keys
    && (forall p :: p in d.highOf ==> |d.highOf[p]| == |d.lowOf[p]| == |d.volumeOf[p]| == |candles|)
    && (forall p {:trigger WindowAt(d, candles, index, p)} :: p in d.highOf && 0 < p <= index ==>
          WindowAt(d, candles, index, p))
  }

  ghost predicate WindowAt(d: Precomputed, candles: seq<Candle>, index: nat, p: nat)
    requires 0 < p <= index < |candles|
    requires p in d.highOf && p in d.lowOf && p in d.volumeOf
    requires |d.highOf[p]| == |d.lowOf[p]| == |d.volumeOf[p]| == |candles|
  {
    var window := candles[index - p..index];
    && d.highOf[p][index] == MaxOf(Highs(window))
    && d.lowOf[p][index] == MinOf(Lows(window))
    && d.volumeOf[p][index] == Average(Volumes(window))
  }

  lemma DescribedEverywhere(d: Precomputed, candles: seq<Candle>, index: nat)
    requires Describes(d, candles) && index < |candles|
    ensures DescribesAt(d, candles, index)
  {
    forall p | p in d.highOf
      ensures |d.highOf[p]| == |d.lowOf[p]| == |d.volumeOf[p]| == |candles|
      ensures 0 < p <= index ==> WindowAt(d, candles, index, p)
    {
      assert PeriodReady(d, p);
      if 0 < p <= index {
        PriorColumns(candles, index, p);
      }
    }
  }
}
