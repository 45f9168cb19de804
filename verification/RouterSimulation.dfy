/** The fast simulator over the array router, against a run over the object router that sizes each trade by the object
    router's own confidence. */
module RouterSimulation {
  import opened CandleWindows
  import opened Drawdown
  import opened PrecomputedMarket
  import opened Reals
  import opened RegimeRouter
  import opened Results
  import opened ScalpingSimulator

  function Bars(candles: seq<Candle>): seq<ScalpingSimulator.Bar> {
    seq(|candles|, i requires 0 <= i < |candles| => Bar(candles[i].high, candles[i].low, candles[i].close))
  }

  /** Every view past the warm-up is long enough for the router and its strategies. */
  ghost predicate LongViews(candles: seq<Candle>, candleLimit: nat, p: RouterParams) {
    forall i :: WARM_UP <= i < |candles| ==> LongEnough(ContextFor(candles, i, candleLimit).Length(), p)
  }

  /** The array router's direction on each bar past the warm-up. */
  ghost function FastSignals(candles: seq<Candle>, d: Precomputed, p: RouterParams): (signals: seq<int>)
    requires Describes(d, candles) && Supported(d, p) && ValidParams(p) && AllWellFormed(candles)
    ensures |signals| == |candles|
  {
    seq(|candles|, i requires 0 <= i < |candles| =>
      DescribedEverywhere(d, candles, i);
      if i < WARM_UP then 0 else FirstDirection(p.order, Directions(d, i, p)))
  }

  /** The object router's answer, with its confidence. */
  ghost function ObjectSignals(candles: seq<Candle>, candleLimit: nat, p: RouterParams): (signals: seq<Signal>)
    requires ValidParams(p) && AllWellFormed(candles) && LongViews(candles, candleLimit, p)
    ensures |signals| == |candles|
  {
    seq(|candles|, i requires 0 <= i < |candles| =>
      if i < WARM_UP then WAIT else RouterEvaluate(ContextFor(candles, i, candleLimit), p))
  }

  // ---------------------------------------------------------------- confidence

  /** The first strategy in router order that does not wait. */
  function FirstKey(order: seq<Key>, outcomes: PerKey<Signal>): Option<Key> {
    if order == [] then None
    else if outcomes.Of(order[0]).direction != Wait then Some(order[0])
    else FirstKey(order[1..], outcomes)
  }

  function ConfidenceOf(key: Key): real {
    match key
    case Burst => 0.64
    case Trend => 0.72
    case Range => 0.68
  }

  lemma {:induction false} FirstSignalIsOfFirstKey(order: seq<Key>, outcomes: PerKey<Signal>)
    ensures match FirstKey(order, outcomes)
            case None => FirstSignal(order, outcomes) == WAIT
            case Some(key) => FirstSignal(order, outcomes) == outcomes.Of(key) && outcomes.Of(key).direction != Wait
  {
    if order == [] {
      assert FirstSignal(order, outcomes) == WAIT;
    } else {
      FirstSignalIsOfFirstKey(order[1..], outcomes);
    }
  }

  lemma ConfidenceByKey(w: CandleWindow, p: RouterParams, key: Key)
    requires RegimeRouter.Tradable(w) && ValidParams(p)
    requires MaxNat(p.rangeRegimePeriod, p.trendRegimePeriod) + 2 <= w.Length()
    requires Outcomes(w, p).Of(key).direction != Wait
    ensures Outcomes(w, p).Of(key).confidence == ConfidenceOf(key)
  {
    hide Gap, MaxOf, MinOf, Average, ReturnRatio, RangeRatio, CandleWindow.At, CandleWindow.Slice;
  }

  /** When the object router answers, its confidence is the one the fast simulator sizes by exactly when the first
      strategy in router order that does not wait is "range". */
  lemma ConfidencesAgreeIff(w: CandleWindow, p: RouterParams)
    requires RegimeRouter.Tradable(w) && ValidParams(p)
    requires MaxNat(p.rangeRegimePeriod, p.trendRegimePeriod) + 2 <= w.Length()
    requires RouterEvaluate(w, p).direction != Wait
    ensures RouterEvaluate(w, p).confidence == Confidence(Encoded(RouterEvaluate(w, p).direction)) <==>
            FirstKey(p.order, Outcomes(w, p)) == Some(Range)
  {
    hide Outcomes, FirstKey, FirstSignal;
    FirstSignalIsOfFirstKey(p.order, Outcomes(w, p));
    ConfidenceByKey(w, p, FirstKey(p.order, Outcomes(w, p)).value);
  }

  // ---------------------------------------------------------------- the run sized by the object router

  function ObjectStep(s: State, bar: Bar, signal: Signal, c: Config): State
    requires ScalpingSimulator.Tradable(s.position)
  {
    if s.position.Some? then Step(s, bar, 0, c)
    else if signal.direction == Wait then s
    else
      State(s.account, Some(OpenSized(s.account.equity, Encoded(signal.direction), bar.close, signal.confidence, c)))
  }

  function ObjectRun(bars: seq<Bar>, signals: seq<Signal>, c: Config, n: nat): (s: State)
    requires Priced(bars, c) && |signals| == |bars| && n <= |bars|
    ensures ScalpingSimulator.Tradable(s.position)
  {
    if n <= WARM_UP then State(OPENING, None)
    else
      EntryIsPositive(bars[n - 1].close, if Encoded(signals[n - 1].direction) > 0 then 1 else -1, c);
      ObjectStep(ObjectRun(bars, signals, c, n - 1), bars[n - 1], signals[n - 1], c)
  }

  ghost predicate Priced(bars: seq<Bar>, c: Config) {
    (forall i :: 0 <= i < |bars| ==> bars[i].WellFormed()) && 0.0 <= c.slippage < 1.0
  }

  function ObjectOutcome(bars: seq<Bar>, signals: seq<Signal>, c: Config): Account
    requires Priced(bars, c) && |signals| == |bars|
  {
    var s := ObjectRun(bars, signals, c, |bars|);
    if s.position.None? || bars == [] then s.account
    else
      var p := s.position.value;
      Settle(s.account, p, ExitSlippage(bars[|bars| - 1].close, p.direction, c.slippage), c.fee)
  }

  /** The same trades so far: as many, with the same returns, and an open position of the same side and entry. Only the
      sizes may differ. */
  ghost predicate SameTrades(a: Account, b: Account) {
    a.tradeCount == b.tradeCount && a.grossReturns == b.grossReturns
  }

  ghost predicate SamePosition(a: Option<Position>, b: Option<Position>) {
    && (a.Some? <==> b.Some?)
    && (a.Some? ==> a.value.direction == b.value.direction && a.value.entryPrice == b.value.entryPrice)
  }

  /** The directions of some answers. */
  ghost predicate Encode(signals: seq<int>, answers: seq<Signal>) {
    |signals| == |answers| && forall i :: 0 <= i < |answers| ==> signals[i] == Encoded(answers[i].direction)
  }

  lemma SettleKeepsTrades(a: Account, p: Position, b: Account, q: Position, filled: real, fee: real)
    requires SameTrades(a, b) && SamePosition(Some(p), Some(q)) && p.entryPrice != 0.0
    ensures SameTrades(Settle(a, p, filled, fee), Settle(b, q, filled, fee))
  {
    hide Deeper, ReturnFrom;
  }

  lemma {:induction false} RunsTradeAlike(bars: seq<Bar>, signals: seq<int>, answers: seq<Signal>, c: Config, n: nat)
    requires Runnable(bars, signals, c) && Encode(signals, answers) && n <= |bars|
    ensures Priced(bars, c)
    ensures var fast, slow := Run(bars, signals, c, n), ObjectRun(bars, answers, c, n);
            SameTrades(fast.account, slow.account) && SamePosition(fast.position, slow.position)
  {
    hide Settle, Scaled, ExitFrom, EntrySlippage, ExitSlippage;
    if n <= WARM_UP {
      assert Run(bars, signals, c, n) == ObjectRun(bars, answers, c, n);
    } else {
      RunsTradeAlike(bars, signals, answers, c, n - 1);
      var fast, slow := Run(bars, signals, c, n - 1), ObjectRun(bars, answers, c, n - 1);
      assert signals[n - 1] == Encoded(answers[n - 1].direction);
      if fast.position.Some? && ExitPrice(fast.position.value, bars[n - 1], c).Some? {
        var p, exit := fast.position.value, ExitPrice(fast.position.value, bars[n - 1], c).value;
        assert ExitPrice(slow.position.value, bars[n - 1], c) == Some(exit);
        SettleKeepsTrades(fast.account, p, slow.account, slow.position.value,
                          ExitSlippage(exit, p.direction, c.slippage), c.fee);
      }
    }
  }

  /** Whatever the sizes, both runs make the same trades. */
  lemma OutcomesTradeAlike(bars: seq<Bar>, signals: seq<int>, answers: seq<Signal>, c: Config)
    requires Runnable(bars, signals, c) && Encode(signals, answers)
    ensures Priced(bars, c) && SameTrades(Outcome(bars, signals, c), ObjectOutcome(bars, answers, c))
  {
    hide Settle, Run, ObjectRun;
    RunsTradeAlike(bars, signals, answers, c, |bars|);
    var fast, slow := Run(bars, signals, c, |bars|), ObjectRun(bars, answers, c, |bars|);
    if fast.position.Some? && bars != [] {
      var p := fast.position.value;
      SettleKeepsTrades(fast.account, p, slow.account, slow.position.value,
                        ExitSlippage(bars[|bars| - 1].close, p.direction, c.slippage), c.fee);
    }
  }

  /** A confidence that sizes a trade as the fast simulator does: its own, or any if the sizes do not depend on it. */
  predicate SizesAlike(confidence: real, c: Config) {
    confidence == 0.68 || (c.minEquityRatio == c.maxEquityRatio && c.minLeverage == c.maxLeverage)
  }

  /** For the confidences the routers report, a position is the same exactly when they size it alike. */
  lemma OpenedAlikeIff(equity: real, signal: int, close: real, key: Key, c: Config)
    requires equity > 0.0 && (signal == 1 || signal == -1)
    requires Scaled(0.68, c.minEquityRatio, c.maxEquityRatio) > 0.0
    ensures OpenSized(equity, signal, close, ConfidenceOf(key), c) == Open(equity, signal, close, c) <==>
            SizesAlike(ConfidenceOf(key), c)
  {
    var ratio, other :=
      Scaled(0.68, c.minEquityRatio, c.maxEquityRatio), Scaled(ConfidenceOf(key), c.minEquityRatio, c.maxEquityRatio);
    var leverage, another :=
      Scaled(0.68, c.minLeverage, c.maxLeverage), Scaled(ConfidenceOf(key), c.minLeverage, c.maxLeverage);
    ScaledAlikeIff(key, c.minEquityRatio, c.maxEquityRatio);
    ScaledAlikeIff(key, c.minLeverage, c.maxLeverage);
    hide Scaled;
    ProductsEqualIff(equity, ratio, other);
    assert equity * ratio > 0.0;
    ProductsEqualIff(equity * ratio, leverage, another);
  }

  lemma ScaledAlikeIff(key: Key, minimum: real, maximum: real)
    ensures Scaled(ConfidenceOf(key), minimum, maximum) == Scaled(0.68, minimum, maximum) <==>
            ConfidenceOf(key) == 0.68 || minimum == maximum
  {
  }

  lemma ProductsEqualIff(a: real, b: real, c: real)
    requires a > 0.0
    ensures a * b == a * c <==> b == c
  {
    ProductOrder(b, c, a);
    ProductOrder(c, b, a);
  }

  lemma OpenedAlike(equity: real, signal: int, close: real, confidence: real, c: Config)
    requires (signal == 1 || signal == -1) && SizesAlike(confidence, c)
    ensures OpenSized(equity, signal, close, confidence, c) == Open(equity, signal, close, c)
  {
    assert confidence == 0.68 || (Scaled(confidence, c.minEquityRatio, c.maxEquityRatio) == c.minEquityRatio
                                  && Scaled(0.68, c.minEquityRatio, c.maxEquityRatio) == c.minEquityRatio);
    assert confidence == 0.68 || (Scaled(confidence, c.minLeverage, c.maxLeverage) == c.minLeverage
                                  && Scaled(0.68, c.minLeverage, c.maxLeverage) == c.minLeverage);
    hide Scaled, EntrySlippage;
  }

  ghost predicate AllSizedAlike(answers: seq<Signal>, c: Config) {
    forall i :: WARM_UP <= i < |answers| && answers[i].direction != Wait ==> SizesAlike(answers[i].confidence, c)
  }

  lemma {:induction false} RunsAreEqual(bars: seq<Bar>, signals: seq<int>, answers: seq<Signal>, c: Config, n: nat)
    requires Runnable(bars, signals, c) && Encode(signals, answers) && AllSizedAlike(answers, c) && n <= |bars|
    ensures Priced(bars, c) && Run(bars, signals, c, n) == ObjectRun(bars, answers, c, n)
  {
    hide Settle, ExitPrice;
    if n <= WARM_UP {
      assert Run(bars, signals, c, n) == State(OPENING, None);
    } else {
      RunsAreEqual(bars, signals, answers, c, n - 1);
      var answer := answers[n - 1];
      assert signals[n - 1] == Encoded(answer.direction);
      if answer.direction != Wait {
        OpenedAlike(Run(bars, signals, c, n - 1).account.equity, signals[n - 1], bars[n - 1].close, answer.confidence,
                    c);
      }
      hide Open, OpenSized, SizesAlike;
    }
  }

  lemma SignalAgrees(candles: seq<Candle>, d: Precomputed, candleLimit: nat, p: RouterParams, i: nat)
    requires Describes(d, candles) && Supported(d, p) && ValidParams(p) && AllWellFormed(candles)
    requires p.trend.pullbackPeriod <= p.rangeRegimePeriod && LongViews(candles, candleLimit, p) && i < |candles|
    ensures FastSignals(candles, d, p)[i] == Encoded(ObjectSignals(candles, candleLimit, p)[i].direction)
  {
    hide RouterEvaluate, Directions, FirstDirection;
    if WARM_UP <= i {
      assert LongEnough(ContextFor(candles, i, candleLimit).Length(), p);
      RoutersAgree(candles, d, i, candleLimit, p);
    }
  }

  lemma FastSignalsEncode(candles: seq<Candle>, d: Precomputed, candleLimit: nat, p: RouterParams, c: Config)
    requires Describes(d, candles) && Supported(d, p) && ValidParams(p) && AllWellFormed(candles)
    requires p.trend.pullbackPeriod <= p.rangeRegimePeriod && LongViews(candles, candleLimit, p)
    requires 0.0 <= c.slippage < 1.0
    ensures Encode(FastSignals(candles, d, p), ObjectSignals(candles, candleLimit, p))
    ensures Runnable(Bars(candles), FastSignals(candles, d, p), c)
  {
    hide FastSignals, ObjectSignals, LongViews, Describes;
    forall i | 0 <= i < |candles|
      ensures FastSignals(candles, d, p)[i] == Encoded(ObjectSignals(candles, candleLimit, p)[i].direction)
      ensures Bars(candles)[i].WellFormed()
    {
      SignalAgrees(candles, d, candleLimit, p, i);
      assert candles[i].WellFormed();
    }
  }

  /** Simulating over precomputed columns makes the trades that simulating over candle views and sizing by the object
      router's confidence makes, whatever the view length and the router order. The accounts are equal as well when
      every answer past the warm-up is "range" or the sizes do not depend on confidence. */
  lemma FastRunTradesAsObjectRun(candles: seq<Candle>, d: Precomputed, candleLimit: nat, p: RouterParams, c: Config)
    requires Describes(d, candles) && Supported(d, p) && ValidParams(p) && AllWellFormed(candles)
    requires p.trend.pullbackPeriod <= p.rangeRegimePeriod && LongViews(candles, candleLimit, p)
    requires 0.0 <= c.slippage < 1.0
    ensures Runnable(Bars(candles), FastSignals(candles, d, p), c) && Priced(Bars(candles), c)
    ensures var fast, slow := FastSignals(candles, d, p), ObjectSignals(candles, candleLimit, p);
            && SameTrades(Outcome(Bars(candles), fast, c), ObjectOutcome(Bars(candles), slow, c))
            && (AllSizedAlike(slow, c) ==> Outcome(Bars(candles), fast, c) == ObjectOutcome(Bars(candles), slow, c))
  {
    hide FastSignals, ObjectSignals, LongViews, Describes, Run, ObjectRun, Settle, AllSizedAlike, Bars;
    FastSignalsEncode(candles, d, candleLimit, p, c);
    var fast, slow := FastSignals(candles, d, p), ObjectSignals(candles, candleLimit, p);
    OutcomesTradeAlike(Bars(candles), fast, slow, c);
    if AllSizedAlike(slow, c) {
      RunsAreEqual(Bars(candles), fast, slow, c, |Bars(candles)|);
    }
  }

  /** With sizes that depend on confidence, the answers are sized alike exactly when each is given by "range". */
  lemma AllSizedAlikeIff(candles: seq<Candle>, candleLimit: nat, p: RouterParams, c: Config)
    requires ValidParams(p) && AllWellFormed(candles) && LongViews(candles, candleLimit, p)
    requires c.minEquityRatio != c.maxEquityRatio || c.minLeverage != c.maxLeverage
    ensures AllSizedAlike(ObjectSignals(candles, candleLimit, p), c) <==>
            forall i :: WARM_UP <= i < |candles| && ObjectSignals(candles, candleLimit, p)[i].direction != Wait ==>
              AnsweredByRange(candles, i, candleLimit, p)
  {
    forall i | WARM_UP <= i < |candles| && ObjectSignals(candles, candleLimit, p)[i].direction != Wait
      ensures SizesAlike(ObjectSignals(candles, candleLimit, p)[i].confidence, c) <==>
              AnsweredByRange(candles, i, candleLimit, p)
    {
      assert LongEnough(ContextFor(candles, i, candleLimit).Length(), p);
      ConfidencesAgreeIff(ContextFor(candles, i, candleLimit), p);
      hide Outcomes, RouterEvaluate, FirstKey;
    }
  }

  ghost predicate AnsweredByRange(candles: seq<Candle>, i: nat, candleLimit: nat, p: RouterParams)
    requires ValidParams(p) && AllWellFormed(candles) && i < |candles|
  {
    var w := ContextFor(candles, i, candleLimit);
    MaxNat(p.rangeRegimePeriod, p.trendRegimePeriod) + 2 <= w.Length()
    && FirstKey(p.order, Outcomes(w, p)) == Some(Range)
  }
}
