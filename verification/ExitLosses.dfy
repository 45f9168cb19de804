/** What a position can lose under each exit model, on one bar, per trade and over a whole run. */
module ExitLosses {
  import opened Drawdown
  import opened ExitModels
  import opened Reals
  import opened Results
  import Scalping = ScalpingSimulator

  /** A price no worse than the level, for a trade in this direction. */
  predicate Inside(direction: int, price: real, level: real) {
    if direction > 0 then price >= level else price <= level
  }

  /** Slippage keeps prices on their side of a level. */
  lemma FillKeepsSide(direction: int, price: real, level: real)
    requires direction == 1 || direction == -1
    ensures Inside(direction, Fill(price, direction), Fill(level, direction)) <==> Inside(direction, price, level)
  {
    var long, short := 1.0 - SLIPPAGE_RATE, 1.0 + SLIPPAGE_RATE;
    ProductOrder(price, level, long);
    ProductOrder(level, price, long);
    ProductOrder(price, level, short);
    ProductOrder(level, price, short);
  }

  /** One level is inside another exactly when its move is the better one. */
  lemma LevelIsInsideIff(entry: real, direction: int, a: real, b: real)
    requires entry > 0.0 && (direction == 1 || direction == -1)
    ensures Inside(direction, Level(entry, direction, a), Level(entry, direction, b)) <==> a >= b
  {
    LevelByDirection(entry, direction, a);
    LevelByDirection(entry, direction, b);
    ProductOrder(1.0 + a, 1.0 + b, entry);
    ProductOrder(1.0 + b, 1.0 + a, entry);
    ProductOrder(1.0 - a, 1.0 - b, entry);
    ProductOrder(1.0 - b, 1.0 - a, entry);
  }

  function StopLevel(h: Holding, move: real): real {
    Level(h.entryPrice, h.direction, -move)
  }

  // ---------------------------------------------------------------- one bar

  /** Between barriers, exactly: an exit fills worse than the bar's stop would if the time limit closes beyond it, or if
      the take itself is set beyond it. */
  lemma BarrierExitIsWorseIff(c: Candidate, h: Holding, bar: Bar, k: nat)
    requires HasBarriers(c) && h.Tradable()
    ensures var r, stop := Manage(c, h, bar, k), StopLevel(h, StopMove(c, bar));
            && r.Ok?
            && (r.value.exit.Some? && !Inside(h.direction, r.value.exit.value.price, Fill(stop, h.direction)) <==>
                if Expired(c, h, k) then !Inside(h.direction, bar.close, stop)
                else !StopTouched(c, h, bar) && TakeTouched(c, h, bar) && TakeMove(c, bar) < -StopMove(c, bar))
  {
    OneBarBetween(c, h, bar, k);
    var stop := StopLevel(h, StopMove(c, bar));
    FillKeepsSide(h.direction, bar.close, stop);
    FillKeepsSide(h.direction, stop, stop);
    FillKeepsSide(h.direction, Level(h.entryPrice, h.direction, TakeMove(c, bar)), stop);
    LevelIsInsideIff(h.entryPrice, h.direction, TakeMove(c, bar), -StopMove(c, bar));
    hide Manage, Level, Fill, StopTouched, TakeTouched, Expired, AtrMove;
  }

  /** A time-limited candidate whose take lies inside its stop fills worse than its stop exactly when the limit is
      reached on a bar that closes strictly beyond the stop. */
  lemma TimeExitIsWorseIff(c: Candidate, h: Holding, bar: Bar, k: nat)
    requires c.TimeLimited? && h.Tradable() && bar.WellFormed() && c.tp >= -c.sl
    ensures var r, stop := Manage(c, h, bar, k), StopLevel(h, c.sl);
            && r.Ok?
            && (r.value.exit.Some? && !Inside(h.direction, r.value.exit.value.price, Fill(stop, h.direction)) <==>
                k - h.entryIndex >= c.maxHolding && if h.direction > 0 then bar.close < stop else bar.close > stop)
  {
    BarrierExitIsWorseIff(c, h, bar, k);
    hide Manage, Level, Fill;
  }

  /** It happens: a close at half the entry price, on the bar of the limit. */
  lemma TimeExitIgnoresTheStop()
    ensures var c, h := TimeLimited(0.01, 0.01, 1), Opened(1, 100.0, 0, 1.0, 1.0);
            var bar := Bar(60.0, 40.0, 50.0, 0.0, 0);
            && bar.WellFormed()
            && var exit := Manage(c, h, bar, 1).value.exit;
               exit.Some? && !Inside(1, exit.value.price, Fill(StopLevel(h, 0.01), 1))
  {
  }

  /** The trailing kinds never fill worse than their hard stop, and what they keep holding closes inside it. */
  lemma TrailStaysInside(c: Candidate, h: Holding, bar: Bar)
    requires Trails(c) && h.Tradable() && bar.WellFormed()
    ensures var managed, hard := TrailManaged(c, h, bar), StopLevel(h, c.sl);
            if managed.exit.Some? then Inside(h.direction, managed.exit.value.price, Fill(hard, h.direction))
            else Inside(h.direction, bar.close, hard)
  {
    var hard := StopLevel(h, c.sl);
    var stop := Level(Better(h.direction, h.extreme, Best(h.direction, bar)), h.direction, -c.trail);
    FillKeepsSide(h.direction, hard, hard);
    FillKeepsSide(h.direction, stop, hard);
    hide Fill, Level, Partial;
  }

  /** The kinds with a stop that nothing is looked at before, and the farthest that stop can be. */
  predicate Stops(c: Candidate) {
    c.Fixed? || c.Atr? || Trails(c)
  }

  function Farthest(c: Candidate): real
    requires Stops(c)
  {
    if c.Atr? then c.maxSl else c.sl
  }

  /** No target beyond the stop, and no negative share sold. */
  predicate Sensible(c: Candidate)
    requires Stops(c)
  {
    && Farthest(c) >= 0.0
    && match c
       case Fixed(tp, sl) => tp >= -sl
       case Atr(_, minTp, maxTp, _, _, maxSl) => Min(minTp, maxTp) >= -maxSl
       case PartialTrailing(sl, firstTp, partialRatio, _) => firstTp >= -sl && partialRatio >= 0.0
       case _ => true
  }

  lemma AtrMoveWithin(bar: Bar, multiple: real, minimum: real, maximum: real)
    ensures Min(minimum, maximum) <= AtrMove(bar, multiple, minimum, maximum) <= maximum
  {
  }

  /** Whatever a bar does to a position, it is inside the farthest stop: filled there, or closing there. */
  lemma BarStaysInside(c: Candidate, h: Holding, bar: Bar, k: nat)
    requires Stops(c) && Sensible(c) && h.Tradable() && bar.WellFormed()
    ensures var r, level := Manage(c, h, bar, k), StopLevel(h, Farthest(c));
            && r.Ok?
            && if r.value.exit.Some? then Inside(h.direction, r.value.exit.value.price, Fill(level, h.direction))
               else Inside(h.direction, bar.close, level)
  {
    if Trails(c) {
      TrailStaysInside(c, h, bar);
    } else {
      BarrierStaysInside(c, h, bar, k);
    }
  }

  lemma BarrierStaysInside(c: Candidate, h: Holding, bar: Bar, k: nat)
    requires (c.Fixed? || c.Atr?) && Sensible(c) && h.Tradable() && bar.WellFormed()
    ensures var r, level := Manage(c, h, bar, k), StopLevel(h, Farthest(c));
            && r.Ok?
            && if r.value.exit.Some? then Inside(h.direction, r.value.exit.value.price, Fill(level, h.direction))
               else Inside(h.direction, bar.close, level)
  {
    if c.Atr? {
      AtrMoveWithin(bar, c.tpMultiple, c.minTp, c.maxTp);
      AtrMoveWithin(bar, c.slMultiple, c.minSl, c.maxSl);
    }
    hide AtrMove;
    var d, e, level := h.direction, h.entryPrice, StopLevel(h, Farthest(c));
    var stop, take := StopMove(c, bar), TakeMove(c, bar);
    OneBarBetween(c, h, bar, k);
    LevelIsInsideIff(e, d, -stop, -Farthest(c));
    LevelIsInsideIff(e, d, take, -Farthest(c));
    FillKeepsSide(d, Level(e, d, -stop), level);
    FillKeepsSide(d, Level(e, d, take), level);
    hide Manage, Level, Fill;
  }

  // ---------------------------------------------------------------- one trade

  /** The worst return of a fill from inside the stop: the move and both slippages. */
  function Worst(stop: real): real {
    (1.0 + stop) * (1.0 + SLIPPAGE_RATE) - 1.0
  }

  lemma ReturnFromInside(h: Holding, price: real, stop: real)
    requires h.Tradable() && stop >= 0.0 && Inside(h.direction, price, Fill(StopLevel(h, stop), h.direction))
    ensures Return(h, price) >= -Worst(stop)
  {
    var e, w := h.entryPrice, Worst(stop);
    LevelByDirection(e, h.direction, stop);
    if h.direction > 0 {
      Scalping.LongFill(e, stop, SLIPPAGE_RATE, e * (1.0 - stop), w);
      Scalping.ReturnAtLeast(price - e, e, 1, w);
    } else {
      Scalping.ShortFill(e, stop, SLIPPAGE_RATE, e * (1.0 + stop), w);
      Scalping.ReturnAtLeast(price - e, e, -1, w);
    }
  }

  /** What was sold so far lost at most w of it, and the fees still add up. */
  ghost predicate Insured(h: Holding, w: real) {
    && h.Tradable() && h.notional >= 0.0 && 0.0 <= h.remaining <= 1.0
    && h.realized >= -w * (h.notional * (1.0 - h.remaining))
    && FeesPending(h)
  }

  lemma PartialStaysInsured(h: Holding, price: real, ratio: real, w: real)
    requires Insured(h, w) && ratio >= 0.0 && Return(h, price) >= -w
    ensures Insured(Partial(h, price, ratio), w)
  {
    PartialKeepsFees(h, price, ratio);
    PartialKeepsEntry(h, price, ratio);
    SoldAtLeast(h.realized, h.notional, h.remaining, Min(h.remaining, ratio), Return(h, price), w);
    hide FeesInAll, Return;
  }

  lemma SoldAtLeast(realized: real, n: real, remaining: real, share: real, r: real, w: real)
    requires n >= 0.0 && share >= 0.0 && r >= -w && realized >= -w * (n * (1.0 - remaining))
    ensures realized + n * share * r >= -w * (n * (1.0 - (remaining - share)))
  {
    assert n * share >= 0.0;
    ProductMonotone(-w, r, n * share);
    assert r * (n * share) == n * share * r;
    assert n * (1.0 - (remaining - share)) == n * (1.0 - remaining) + n * share;
    assert -w * (n * (1.0 - remaining) + n * share) == -w * (n * (1.0 - remaining)) + -w * (n * share);
  }

  lemma ManageStaysInsured(c: Candidate, h: Holding, bar: Bar, k: nat)
    requires Stops(c) && Sensible(c) && Insured(h, Worst(Farthest(c)))
    ensures var r := Manage(c, h, bar, k); r.Ok? && Insured(r.value.holding, Worst(Farthest(c)))
  {
    var w := Worst(Farthest(c));
    if c.PartialTrailing? {
      var target := Level(h.entryPrice, h.direction, c.firstTp);
      var price := Fill(target, h.direction);
      LevelIsInsideIff(h.entryPrice, h.direction, c.firstTp, -c.sl);
      FillKeepsSide(h.direction, target, StopLevel(h, c.sl));
      ReturnFromInside(h, price, c.sl);
      PartialStaysInsured(h, price, c.partialRatio, w);
      PartialKeepsEntry(h, price, c.partialRatio);
      InsuredIgnoresTrail(Partial(h, price, c.partialRatio), w);
    }
    InsuredIgnoresTrail(h, w);
    hide Insured, Level, Fill, Partial, Worst, StopHit, TargetHit, AtrMove;
  }

  /** Arming and moving the trailing stop change nothing that was bought or sold. */
  lemma InsuredIgnoresTrail(h: Holding, w: real)
    requires Insured(h, w)
    ensures forall activated, extreme, partialDone ::
              Insured(h.(activated := activated, extreme := extreme, partialDone := partialDone), w)
    ensures forall extreme :: Insured(h.(extreme := extreme), w)
    ensures forall activated, extreme :: Insured(h.(activated := activated, extreme := extreme), w)
  {
  }

  /** Closing from inside the stop loses at most w and both fees of the notional. */
  lemma CloseLosesAtMost(h: Holding, price: real, stop: real)
    requires Insured(h, Worst(stop)) && stop >= 0.0
    requires Inside(h.direction, price, Fill(StopLevel(h, stop), h.direction))
    ensures Closed(h, price).net >= -(h.notional * (Worst(stop) + 2.0 * FEE_RATE))
  {
    var w := Worst(stop);
    ReturnFromInside(h, price, stop);
    SoldAtLeast(h.realized, h.notional, h.remaining, h.remaining, Return(h, price), w);
    hide Return, Worst;
    assert Closed(h, price).fee == FeesInAll(h);
    assert h.notional * (w + 2.0 * FEE_RATE) == w * h.notional + 2.0 * h.notional * FEE_RATE;
  }

  // ---------------------------------------------------------------- the run

  function Exposure(sizing: Sizing): real {
    Scalping.Scaled(0.68, sizing.minEquityRatio, sizing.maxEquityRatio)
    * Scalping.Scaled(0.68, sizing.minLeverage, sizing.maxLeverage)
  }

  /** The largest loss per trade, as a share of the equity it was opened with. */
  function LossShare(c: Candidate, sizing: Sizing): real
    requires Stops(c)
  {
    Exposure(sizing) * (Worst(Farthest(c)) + 2.0 * FEE_RATE)
  }

  /** The geometric bound after some trades. */
  function LeastEquity(c: Candidate, sizing: Sizing, trades: nat): real
    requires Stops(c)
  {
    INITIAL_EQUITY * Power(1.0 - LossShare(c, sizing), trades)
  }

  /** Less than all equity at stake per trade, and an entry that lies inside its own farthest stop. */
  predicate Bounded(c: Candidate, sizing: Sizing) {
    && Stops(c) && Sensible(c)
    && Exposure(sizing) >= 0.0 && LossShare(c, sizing) < 1.0
    && (1.0 - SLIPPAGE_RATE) * (1.0 + Farthest(c)) >= 1.0
  }

  ghost predicate AllFilledInside(c: Candidate, log: seq<Settled>)
    requires Stops(c)
  {
    forall k :: 0 <= k < |log| ==> FilledInside(c, log[k])
  }

  /** A trade that was filled no worse than at its farthest stop. */
  predicate FilledInside(c: Candidate, trade: Settled)
    requires Stops(c)
  {
    Inside(trade.holding.direction, trade.exit.price,
           Fill(StopLevel(trade.holding, Farthest(c)), trade.holding.direction))
  }

  /** Between bars: equity above the geometric bound, every trade filled inside its stop, and an open position insured,
      sized by the equity and inside its stop. */
  ghost predicate Sound(c: Candidate, s: State, last: real, sizing: Sizing)
    requires Stops(c)
  {
    && s.account.equity >= LeastEquity(c, sizing, s.account.tradeCount)
    && s.account.equity > 0.0 && Scalping.AllPositive(s.curve)
    && AllFilledInside(c, s.log)
    && (s.position.Some? ==> Covered(c, s.position.value, s.account.equity, last, sizing))
  }

  ghost predicate Covered(c: Candidate, h: Holding, equity: real, last: real, sizing: Sizing)
    requires Stops(c)
  {
    && Insured(h, Worst(Farthest(c))) && h.notional == equity * Exposure(sizing)
    && Inside(h.direction, last, StopLevel(h, Farthest(c)))
  }

  lemma KeptShareIsPositive(c: Candidate, sizing: Sizing)
    requires Bounded(c, sizing)
    ensures 1.0 - LossShare(c, sizing) > 0.0 && Farthest(c) >= 0.0
  {
  }

  /** A trade closed from inside its stop keeps at least the share 1 - LossShare of equity. */
  lemma TradeKeepsShare(c: Candidate, h: Holding, equity: real, price: real, sizing: Sizing)
    requires Bounded(c, sizing) && equity > 0.0 && Insured(h, Worst(Farthest(c)))
    requires h.notional == equity * Exposure(sizing)
    requires Inside(h.direction, price, Fill(StopLevel(h, Farthest(c)), h.direction))
    ensures equity + Closed(h, price).net >= equity * (1.0 - LossShare(c, sizing))
  {
    hide Exposure, Worst, Closed, Inside, Fill, Insured;
    CloseLosesAtMost(h, price, Farthest(c));
    var w := Worst(Farthest(c));
    assert equity * Exposure(sizing) * (w + 2.0 * FEE_RATE) == equity * LossShare(c, sizing);
    assert equity * (1.0 - LossShare(c, sizing)) == equity - equity * LossShare(c, sizing);
  }

  lemma SettleStaysSound(c: Candidate, s: State, h: Holding, at: nat, exit: Exit, last: real, sizing: Sizing)
    requires Bounded(c, sizing) && Sound(c, s, last, sizing)
    requires Insured(h, Worst(Farthest(c))) && h.notional == s.account.equity * Exposure(sizing)
    requires Inside(h.direction, exit.price, Fill(StopLevel(h, Farthest(c)), h.direction))
    ensures Sound(c, Settle(s, h, at, exit), last, sizing)
  {
    hide Exposure, Insured, Inside, Fill, Closed, StopLevel, LossShare, LeastEquity, Bounded, Settle, Stops, Worst,
      Farthest;
    BoundedStops(c, sizing);
    InsuredIsTradable(h, Worst(Farthest(c)));
    SettledAccount(s, h, at, exit);
    TradeKeepsShare(c, h, s.account.equity, exit.price, sizing);
    LeastEquityStep(c, sizing, s.account.tradeCount, s.account.equity, Settle(s, h, at, exit).account.equity);
    assert FilledInside(c, Settled(h, at, exit));
  }

  lemma LeastEquityStep(c: Candidate, sizing: Sizing, n: nat, before: real, after: real)
    requires Bounded(c, sizing) && before > 0.0 && before >= LeastEquity(c, sizing, n)
    requires after >= before * (1.0 - LossShare(c, sizing))
    ensures after >= LeastEquity(c, sizing, n + 1) && after > 0.0
  {
    hide LossShare;
    KeptShareIsPositive(c, sizing);
    Scalping.BoundStep(before, after, 1.0 - LossShare(c, sizing), n);
  }

  lemma SettledAccount(s: State, h: Holding, at: nat, exit: Exit)
    requires h.entryPrice != 0.0
    ensures var after := Settle(s, h, at, exit);
            && after.account.equity == s.account.equity + Closed(h, exit.price).net
            && after.account.tradeCount == s.account.tradeCount + 1
            && after.curve == s.curve + [after.account.equity]
            && after.log == s.log + [Settled(h, at, exit)] && after.position == None
  {
    hide Closed, Deeper;
  }

  lemma EntryIsInside(equity: real, bar: Bar, k: nat, sizing: Sizing, stop: real)
    requires bar.WellFormed() && stop >= 0.0 && (1.0 - SLIPPAGE_RATE) * (1.0 + stop) >= 1.0
    ensures var h := Open(equity, bar, k, sizing); Inside(h.direction, bar.close, StopLevel(h, stop))
  {
    hide Scalping.Scaled;
    var f, close := SLIPPAGE_RATE, bar.close;
    var h := Open(equity, bar, k, sizing);
    LevelByDirection(h.entryPrice, h.direction, stop);
    assert (1.0 + f) * (1.0 - stop) <= 1.0;
    if h.direction > 0 {
      ProductMonotone((1.0 + f) * (1.0 - stop), 1.0, close);
      assert h.entryPrice * (1.0 - stop) == (1.0 + f) * (1.0 - stop) * close;
    } else {
      ProductMonotone(1.0, (1.0 - f) * (1.0 + stop), close);
      assert h.entryPrice * (1.0 + stop) == (1.0 - f) * (1.0 + stop) * close;
    }
  }

  lemma OpenIsCovered(c: Candidate, equity: real, bar: Bar, k: nat, sizing: Sizing)
    requires Bounded(c, sizing) && bar.WellFormed() && equity > 0.0
    ensures Covered(c, Open(equity, bar, k, sizing), equity, bar.close, sizing)
  {
    var h := Open(equity, bar, k, sizing);
    EntryIsInside(equity, bar, k, sizing, Farthest(c));
    OpenIsTradable(equity, bar, k, sizing);
    FreshFeesPending(h);
    var ratio := Scalping.Scaled(0.68, sizing.minEquityRatio, sizing.maxEquityRatio);
    var leverage := Scalping.Scaled(0.68, sizing.minLeverage, sizing.maxLeverage);
    hide Scalping.Scaled, LossShare, Worst, Inside, FeesPending, StopLevel;
    assert h.notional == equity * ratio * leverage == equity * (ratio * leverage);
    assert equity * Exposure(sizing) >= 0.0;
    assert 1.0 - h.remaining == 0.0;
    assert -Worst(Farthest(c)) * (h.notional * (1.0 - h.remaining)) == 0.0;
  }

  lemma StepStaysSound(c: Candidate, s: State, bar: Bar, k: nat, sizing: Sizing, last: real)
    requires Bounded(c, sizing) && Sound(c, s, last, sizing) && bar.WellFormed() && Tradable(s.position, k)
    ensures var r := Step(c, s, bar, k, sizing); r.Ok? && Sound(c, r.value, bar.close, sizing)
  {
    hide Manage, Settle, Open, LeastEquity, Insured, Bounded, LossShare, Exposure, Inside, Level, AllFilledInside, Fill;
    BoundedStops(c, sizing);
    if s.position.Some? {
      var h := s.position.value;
      BarStaysInside(c, h, bar, k);
      ManageStaysInsured(c, h, bar, k);
      ManageKeepsEntry(c, h, bar, k);
      InsuredIsTradable(h, Worst(Farthest(c)));
      var managed := Manage(c, h, bar, k).value;
      if managed.exit.Some? {
        SettleStaysSound(c, s, managed.holding, k, managed.exit.value, last, sizing);
        SettleClosesThePosition(s, managed.holding, k, managed.exit.value);
      }
    } else if bar.signal != 0 {
      OpenIsCovered(c, s.account.equity, bar, k, sizing);
    }
  }

  lemma InsuredIsTradable(h: Holding, w: real)
    requires Insured(h, w)
    ensures h.Tradable()
  {
  }

  lemma BoundedStops(c: Candidate, sizing: Sizing)
    requires Bounded(c, sizing)
    ensures Stops(c) && Sensible(c)
  {
  }

  lemma {:induction false} RunStaysSound(c: Candidate, bars: seq<Bar>, sizing: Sizing, n: nat)
    requires Bounded(c, sizing) && AllWellFormed(bars) && n <= |bars|
    ensures var r := Run(c, bars, sizing, n);
            r.Ok? && Sound(c, r.value, if n == 0 then 0.0 else bars[n - 1].close, sizing)
    ensures n <= WARM_UP ==> Run(c, bars, sizing, n).value.position.None?
  {
    hide Step, Bounded, LossShare;
    if n > WARM_UP {
      RunStaysSound(c, bars, sizing, n - 1);
      StepStaysSound(c, Run(c, bars, sizing, n - 1).value, bars[n - 1], n - 1, sizing, bars[n - 2].close);
    } else {
      BoundedStops(c, sizing);
      assert Power(1.0 - LossShare(c, sizing), 0) == 1.0;
    }
  }

  /** For every kind but the timed one: after the trades of any run each was filled no worse than at its farthest stop,
      equity is at least the initial equity times (1 - LossShare) per trade, which is LeastEquity, and drawdown stays
      below one. This covers partial exits and the close at the end of the data. */
  lemma RunLosesAtMost(c: Candidate, bars: seq<Bar>, sizing: Sizing)
    requires Bounded(c, sizing) && AllWellFormed(bars)
    ensures var r := Outcome(c, bars, sizing);
            && r.Ok?
            && AllFilledInside(c, r.value.log)
            && r.value.account.equity >= LeastEquity(c, sizing, r.value.account.tradeCount)
            && r.value.account.equity > 0.0 && 0.0 <= r.value.account.maxDrawdown < 1.0
  {
    BoundedStops(c, sizing);
    OutcomeStaysSound(c, bars, sizing);
    OutcomeBalances(c, bars, sizing);
    hide Outcome, LossShare, LeastEquity, Bounded, AllFilledInside, MoneyBalances, CountsBalance, InOrder;
    PositiveCurveKeepsDrawdownBelowOne(Outcome(c, bars, sizing).value.curve);
  }

  lemma OutcomeStaysSound(c: Candidate, bars: seq<Bar>, sizing: Sizing)
    requires Bounded(c, sizing) && AllWellFormed(bars)
    ensures var r := Outcome(c, bars, sizing);
            Stops(c) && r.Ok? && Sound(c, r.value, if bars == [] then 0.0 else bars[|bars| - 1].close, sizing)
  {
    BoundedStops(c, sizing);
    RunStaysSound(c, bars, sizing, |bars|);
    hide Run, Bounded, Settle, Sound, Stops;
    var s := Run(c, bars, sizing, |bars|).value;
    if s.position.Some? && bars != [] {
      EndOfDataStaysSound(c, s, bars[|bars| - 1].close, |bars| - 1, sizing);
    }
  }

  lemma EndOfDataStaysSound(c: Candidate, s: State, close: real, at: nat, sizing: Sizing)
    requires Bounded(c, sizing) && Sound(c, s, close, sizing) && s.position.Some? && s.position.value.Tradable()
    ensures Sound(c, Settle(s, s.position.value, at, Exit(Fill(close, s.position.value.direction), EndOfData)), close,
                  sizing)
  {
    hide LossShare, LeastEquity, Settle, Insured, Exposure, Inside, Fill, AllFilledInside;
    var h := s.position.value;
    FillKeepsSide(h.direction, close, StopLevel(h, Farthest(c)));
    SettleStaysSound(c, s, h, at, Exit(Fill(close, h.direction), EndOfData), close, sizing);
  }
}
