/** Exit models over one open position: stops, targets, trailing stops, one partial exit, and the run over them. */
module ExitModels {
  import opened Drawdown
  import opened Reals
  import opened Results
  import Scalping = ScalpingSimulator

  const FEE_RATE := 0.0004
  const SLIPPAGE_RATE := 0.0002
  const INITIAL_EQUITY := 10000.0
  const WARM_UP: nat := 260

  /** One minute: `signal` is the router's direction, 0 where the entry filter rejects it. */
  datatype Bar = Bar(high: real, low: real, close: real, atrRatio: real, signal: int) {
    predicate WellFormed() {
      0.0 < low <= close <= high
    }
  }

  datatype Candidate =
    | Fixed(tp: real, sl: real)
    | TimeLimited(tp: real, sl: real, maxHolding: int)
    | Atr(tpMultiple: real, minTp: real, maxTp: real, slMultiple: real, minSl: real, maxSl: real)
    | Trailing(sl: real, activation: real, trail: real)
    | PartialTrailing(sl: real, firstTp: real, partialRatio: real, trail: real)
    | Unsupported(kind: string)

  datatype Reason = StopLoss | TakeProfit | TimeExit | TrailingTakeProfit | PartialTrailingExit | EndOfData

  datatype Exit = Exit(price: real, reason: Reason)

  /** The value of an open position. */
  datatype Holding = Holding(
    direction: int, entryPrice: real, entryIndex: nat, notional: real, margin: real,
    remaining: real, realized: real, exitFee: real, activated: bool, extreme: real, partialDone: bool)
  {
    predicate Tradable() {
      (direction == 1 || direction == -1) && entryPrice > 0.0
    }
  }

  function Opened(direction: int, entryPrice: real, entryIndex: nat, notional: real, margin: real): Holding {
    Holding(direction, entryPrice, entryIndex, notional, margin, 1.0, 0.0, 0.0, false, entryPrice, false)
  }

  // ---------------------------------------------------------------- both directions at once

  /** The price a relative move away in the favourable direction; a negative move is adverse. */
  function Level(price: real, direction: int, move: real): real {
    price * (1.0 + move * direction as real)
  }

  function Above(price: real, move: real): real {
    price * (1.0 + move)
  }

  function Below(price: real, move: real): real {
    price * (1.0 - move)
  }

  lemma LevelByDirection(price: real, direction: int, move: real)
    requires direction == 1 || direction == -1
    ensures Level(price, direction, move) == if direction > 0 then Above(price, move) else Below(price, move)
    ensures Level(price, direction, -move) == if direction > 0 then Below(price, move) else Above(price, move)
  {
    var d := direction as real;
    assert d == 1.0 || d == -1.0;
    assert move * d == if direction > 0 then move else -move;
    assert -move * d == if direction > 0 then -move else move;
  }

  /** The bar's most favourable price. */
  function Best(direction: int, bar: Bar): real {
    if direction > 0 then bar.high else bar.low
  }

  function Better(direction: int, a: real, b: real): real {
    if direction > 0 then Max(a, b) else Min(a, b)
  }

  predicate StopHit(direction: int, bar: Bar, level: real) {
    if direction > 0 then bar.low <= level else bar.high >= level
  }

  predicate TargetHit(direction: int, bar: Bar, level: real) {
    if direction > 0 then bar.high >= level else bar.low <= level
  }

  /** The price a close at `price` is filled at. */
  function Fill(price: real, direction: int): real {
    Scalping.ExitSlippage(price, direction, SLIPPAGE_RATE)
  }

  function Clamp(value: real, minimum: real, maximum: real): real {
    Min(maximum, Max(minimum, value))
  }

  /** A move that follows volatility, within its bounds. */
  function AtrMove(bar: Bar, multiple: real, minimum: real, maximum: real): real {
    Clamp(bar.atrRatio * multiple, minimum, maximum)
  }

  // ---------------------------------------------------------------- what one bar does to a position

  datatype Managed = Managed(holding: Holding, exit: Option<Exit>)

  function StopTake(h: Holding, bar: Bar, tp: real, sl: real): Option<Exit> {
    var stop, take := Level(h.entryPrice, h.direction, -sl), Level(h.entryPrice, h.direction, tp);
    if StopHit(h.direction, bar, stop) then Some(Exit(Fill(stop, h.direction), StopLoss))
    else if TargetHit(h.direction, bar, take) then Some(Exit(Fill(take, h.direction), TakeProfit))
    else None
  }

  function Return(h: Holding, price: real): real
    requires h.entryPrice != 0.0
  {
    (price - h.entryPrice) / h.entryPrice * h.direction as real
  }

  /** Closes the share `ratio` of the entry notional, or what remains if that is less. */
  function Partial(h: Holding, price: real, ratio: real): Holding
    requires h.entryPrice != 0.0
  {
    var share := Min(h.remaining, ratio);
    h.(realized := h.realized + h.notional * share * Return(h, price),
       exitFee := h.exitFee + h.notional * share * FEE_RATE,
       remaining := h.remaining - share)
  }

  predicate Trails(c: Candidate) {
    c.Trailing? || c.PartialTrailing?
  }

  /** The favourable move that arms the trailing stop. */
  function Trigger(c: Candidate): real
    requires Trails(c)
  {
    if c.Trailing? then c.activation else c.firstTp
  }

  /** What arming does, apart from the extreme price: the partial kind also takes its one partial exit. */
  function Armed(c: Candidate, h: Holding): Holding
    requires Trails(c) && h.entryPrice != 0.0
  {
    if c.Trailing? then h.(activated := true)
    else
      Partial(h, Fill(Level(h.entryPrice, h.direction, c.firstTp), h.direction), c.partialRatio)
        .(activated := true, partialDone := true)
  }

  predicate IsArmed(c: Candidate, h: Holding) {
    if c.PartialTrailing? then h.partialDone else h.activated
  }

  function TrailReason(c: Candidate): Reason {
    if c.PartialTrailing? then PartialTrailingExit else TrailingTakeProfit
  }

  /** The hard stop comes first; then the bar arms the trailing stop, or moves it and may hit it. */
  function TrailManaged(c: Candidate, h: Holding, bar: Bar): Managed
    requires Trails(c) && h.entryPrice != 0.0
  {
    var hard := Level(h.entryPrice, h.direction, -c.sl);
    if StopHit(h.direction, bar, hard) then Managed(h, Some(Exit(Fill(hard, h.direction), StopLoss)))
    else if !IsArmed(c, h) then
      if TargetHit(h.direction, bar, Level(h.entryPrice, h.direction, Trigger(c)))
      then Managed(Armed(c, h).(extreme := Best(h.direction, bar)), None)
      else Managed(h, None)
    else
      var moved := h.(extreme := Better(h.direction, h.extreme, Best(h.direction, bar)));
      var stop := Level(moved.extreme, h.direction, -c.trail);
      Managed(moved,
              if StopHit(h.direction, bar, stop) then Some(Exit(Fill(stop, h.direction), TrailReason(c))) else None)
  }

  /** One bar under a candidate; Err is the ValueError for an unknown kind. */
  function Manage(c: Candidate, h: Holding, bar: Bar, index: nat): Result<Managed, string>
    requires h.entryPrice != 0.0
  {
    match c
    case Fixed(tp, sl) => Ok(Managed(h, StopTake(h, bar, tp, sl)))
    case TimeLimited(tp, sl, maxHolding) =>
      if index - h.entryIndex >= maxHolding
      then Ok(Managed(h, Some(Exit(Fill(bar.close, h.direction), TimeExit))))
      else Ok(Managed(h, StopTake(h, bar, tp, sl)))
    case Atr(tpMultiple, minTp, maxTp, slMultiple, minSl, maxSl) =>
      var tp, sl := AtrMove(bar, tpMultiple, minTp, maxTp), AtrMove(bar, slMultiple, minSl, maxSl);
      Ok(Managed(h, StopTake(h, bar, tp, sl)))
    case Unsupported(kind) => Err(kind)
    case _ => Ok(TrailManaged(c, h, bar))
  }

  /** What a closed position earned and cost. */
  datatype Trade = Trade(gross: real, net: real, fee: real)

  function Closed(h: Holding, price: real): Trade
    requires h.entryPrice != 0.0
  {
    var gross := h.realized + h.notional * h.remaining * Return(h, price);
    var fee := h.notional * FEE_RATE + (h.exitFee + h.notional * h.remaining * FEE_RATE);
    Trade(gross, gross - fee, fee)
  }

  class OpenPosition {
    const direction: int
    const entryPrice: real
    const entryIndex: nat
    const notional: real
    const margin: real
    var remainingRatio: real
    var realizedGrossPnl: real
    var exitFeePaid: real
    var activated: bool
    var extremePrice: real
    var partialDone: bool

    function View(): Holding
      reads this
    {
      Holding(direction, entryPrice, entryIndex, notional, margin, remainingRatio, realizedGrossPnl, exitFeePaid,
              activated, extremePrice, partialDone)
    }

    constructor (direction: int, entryPrice: real, entryIndex: nat, notional: real, margin: real)
      ensures View() == Opened(direction, entryPrice, entryIndex, notional, margin)
    {
      this.direction, this.entryPrice, this.entryIndex := direction, entryPrice, entryIndex;
      this.notional, this.margin := notional, margin;
      remainingRatio, realizedGrossPnl, exitFeePaid := 1.0, 0.0, 0.0;
      activated, extremePrice, partialDone := false, entryPrice, false;
    }

    method StopTakeExit(bar: Bar, tp: real, sl: real) returns (exit: Option<Exit>)
      requires View().Tradable()
      ensures exit == StopTake(View(), bar, tp, sl)
    {
      hide Level, Fill, Above, Below;
      LevelByDirection(entryPrice, direction, sl);
      LevelByDirection(entryPrice, direction, tp);
      if direction > 0 {
        var stop, take := Below(entryPrice, sl), Above(entryPrice, tp);
        if bar.low <= stop {
          return Some(Exit(Fill(stop, direction), StopLoss));
        }
        if bar.high >= take {
          return Some(Exit(Fill(take, direction), TakeProfit));
        }
      } else {
        var stop, take := Above(entryPrice, sl), Below(entryPrice, tp);
        if bar.high >= stop {
          return Some(Exit(Fill(stop, direction), StopLoss));
        }
        if bar.low <= take {
          return Some(Exit(Fill(take, direction), TakeProfit));
        }
      }
      return None;
    }

    method RealizePartial(exitPrice: real, partialRatio: real)
      requires View().Tradable()
      modifies this
      ensures View() == Partial(old(View()), exitPrice, partialRatio)
    {
      var closeRatio := Min(remainingRatio, partialRatio);
      var closeNotional := notional * closeRatio;
      var grossReturn := (exitPrice - entryPrice) / entryPrice * direction as real;
      realizedGrossPnl := realizedGrossPnl + closeNotional * grossReturn;
      exitFeePaid := exitFeePaid + closeNotional * FEE_RATE;
      remainingRatio := remainingRatio - closeRatio;
    }

    method Close(exitPrice: real) returns (trade: Trade)
      requires View().Tradable()
      ensures trade == Closed(View(), exitPrice)
    {
      var closeNotional := notional * remainingRatio;
      var grossReturn := (exitPrice - entryPrice) / entryPrice * direction as real;
      var gross := realizedGrossPnl + closeNotional * grossReturn;
      var entryFee := notional * FEE_RATE;
      var exitFee := exitFeePaid + closeNotional * FEE_RATE;
      return Trade(gross, gross - (entryFee + exitFee), entryFee + exitFee);
    }

    method TrailingExit(c: Candidate, bar: Bar) returns (exit: Option<Exit>)
      requires View().Tradable() && c.Trailing?
      modifies this
      ensures Managed(View(), exit) == TrailManaged(c, old(View()), bar)
    {
      hide Level, Fill, Above, Below;
      LevelByDirection(entryPrice, direction, c.sl);
      LevelByDirection(entryPrice, direction, c.activation);
      LevelByDirection(Better(direction, extremePrice, Best(direction, bar)), direction, c.trail);
      if direction > 0 {
        var hardStop := Below(entryPrice, c.sl);
        if bar.low <= hardStop {
          return Some(Exit(Fill(hardStop, direction), StopLoss));
        }
        if !activated && bar.high >= Above(entryPrice, c.activation) {
          activated := true;
          extremePrice := bar.high;
          return None;
        }
        if activated {
          extremePrice := Max(extremePrice, bar.high);
          var trailStop := Below(extremePrice, c.trail);
          if bar.low <= trailStop {
            return Some(Exit(Fill(trailStop, direction), TrailingTakeProfit));
          }
        }
      } else {
        var hardStop := Above(entryPrice, c.sl);
        if bar.high >= hardStop {
          return Some(Exit(Fill(hardStop, direction), StopLoss));
        }
        if !activated && bar.low <= Below(entryPrice, c.activation) {
          activated := true;
          extremePrice := bar.low;
          return None;
        }
        if activated {
          extremePrice := Min(extremePrice, bar.low);
          var trailStop := Above(extremePrice, c.trail);
          if bar.high >= trailStop {
            return Some(Exit(Fill(trailStop, direction), TrailingTakeProfit));
          }
        }
      }
      return None;
    }

    method PartialTrailingExit(c: Candidate, bar: Bar) returns (exit: Option<Exit>)
      requires View().Tradable() && c.PartialTrailing?
      modifies this
      ensures Managed(View(), exit) == TrailManaged(c, old(View()), bar)
    {
      hide Level, Fill, Above, Below, Partial;
      LevelByDirection(entryPrice, direction, c.sl);
      LevelByDirection(entryPrice, direction, c.firstTp);
      LevelByDirection(Better(direction, extremePrice, Best(direction, bar)), direction, c.trail);
      if direction > 0 {
        var hardStop := Below(entryPrice, c.sl);
        if bar.low <= hardStop {
          return Some(Exit(Fill(hardStop, direction), StopLoss));
        }
        if !partialDone && bar.high >= Above(entryPrice, c.firstTp) {
          RealizePartial(Fill(Above(entryPrice, c.firstTp), direction), c.partialRatio);
          partialDone, activated := true, true;
          extremePrice := bar.high;
          return None;
        }
        if partialDone {
          extremePrice := Max(extremePrice, bar.high);
          var trailStop := Below(extremePrice, c.trail);
          if bar.low <= trailStop {
            return Some(Exit(Fill(trailStop, direction), Reason.PartialTrailingExit));
          }
        }
      } else {
        var hardStop := Above(entryPrice, c.sl);
        if bar.high >= hardStop {
          return Some(Exit(Fill(hardStop, direction), StopLoss));
        }
        if !partialDone && bar.low <= Below(entryPrice, c.firstTp) {
          RealizePartial(Fill(Below(entryPrice, c.firstTp), direction), c.partialRatio);
          partialDone, activated := true, true;
          extremePrice := bar.low;
          return None;
        }
        if partialDone {
          extremePrice := Min(extremePrice, bar.low);
          var trailStop := Above(extremePrice, c.trail);
          if bar.high >= trailStop {
            return Some(Exit(Fill(trailStop, direction), Reason.PartialTrailingExit));
          }
        }
      }
      return None;
    }

    method ExitForCandle(c: Candidate, bar: Bar, index: nat) returns (result: Result<Option<Exit>, string>)
      requires View().Tradable()
      modifies this
      ensures match Manage(c, old(View()), bar, index)
              case Ok(managed) => result == Ok(managed.exit) && View() == managed.holding
              case Err(kind) => result == Err(kind) && View() == old(View())
    {
      hide TrailManaged, StopTake;
      match c {
        case Fixed(tp, sl) =>
          var exit := StopTakeExit(bar, tp, sl);
          result := Ok(exit);
        case TimeLimited(tp, sl, maxHolding) =>
          if index - entryIndex >= maxHolding {
            return Ok(Some(Exit(Fill(bar.close, direction), TimeExit)));
          }
          var exit := StopTakeExit(bar, tp, sl);
          result := Ok(exit);
        case Atr(tpMultiple, minTp, maxTp, slMultiple, minSl, maxSl) =>
          var tp := AtrMove(bar, tpMultiple, minTp, maxTp);
          var sl := AtrMove(bar, slMultiple, minSl, maxSl);
          var exit := StopTakeExit(bar, tp, sl);
          result := Ok(exit);
        case Trailing(_, _, _) =>
          var exit := TrailingExit(c, bar);
          result := Ok(exit);
        case PartialTrailing(_, _, _, _) =>
          var exit := PartialTrailingExit(c, bar);
          result := Ok(exit);
        case Unsupported(kind) =>
          result := Err(kind);
      }
    }
  }

  // ---------------------------------------------------------------- partial exits conserve the position

  /** A partial exit asked for, and the leg that was really closed: its share of the entry notional, its return. */
  datatype Ask = Ask(price: real, ratio: real)
  datatype Leg = Leg(share: real, gain: real)

  function Partials(h: Holding, asks: seq<Ask>): (r: Holding)
    requires h.entryPrice != 0.0
    ensures r.entryPrice == h.entryPrice && r.notional == h.notional
  {
    if asks == [] then h
    else
      var last := asks[|asks| - 1];
      Partial(Partials(h, asks[..|asks| - 1]), last.price, last.ratio)
  }

  /** The legs that asking for partial exits and then closing at `price` makes. */
  function Legs(h: Holding, asks: seq<Ask>, price: real): seq<Leg>
    requires h.entryPrice != 0.0
    decreases |asks|
  {
    if asks == [] then [Leg(h.remaining, Return(h, price))]
    else
      [Leg(Min(h.remaining, asks[0].ratio), Return(h, asks[0].price))]
      + Legs(Partial(h, asks[0].price, asks[0].ratio), asks[1..], price)
  }

  function Shares(legs: seq<Leg>): real {
    if legs == [] then 0.0 else legs[0].share + Shares(legs[1..])
  }

  function WeightedReturn(legs: seq<Leg>): real {
    if legs == [] then 0.0 else legs[0].share * legs[0].gain + WeightedReturn(legs[1..])
  }

  lemma PartialsFromTheFront(h: Holding, asks: seq<Ask>)
    requires h.entryPrice != 0.0 && asks != []
    ensures Partials(h, asks) == Partials(Partial(h, asks[0].price, asks[0].ratio), asks[1..])
  {
    hide Partial;
    var n := |asks| - 1;
    var first := Partial(h, asks[0].price, asks[0].ratio);
    PartialKeepsEntry(h, asks[0].price, asks[0].ratio);
    if n == 0 {
      assert asks[..0] == [] && asks[1..] == [];
    } else {
      PartialsFromTheFront(h, asks[..n]);
      assert asks[..n][1..] == asks[1..][..n - 1];
    }
  }

  lemma PartialKeepsEntry(h: Holding, price: real, ratio: real)
    requires h.entryPrice != 0.0
    ensures var p := Partial(h, price, ratio);
            p.entryPrice == h.entryPrice && p.direction == h.direction && p.notional == h.notional
  {
  }

  /** Whatever is asked, the legs of a fresh position close its notional exactly once, gross profit is their weighted
      return, and the fees are one entry and one exit on the whole notional. */
  lemma ClosedConserves(h: Holding, asks: seq<Ask>, price: real)
    requires h.entryPrice != 0.0 && h.remaining == 1.0 && h.realized == 0.0 && h.exitFee == 0.0
    ensures var legs, trade := Legs(h, asks, price), Closed(Partials(h, asks), price);
            && Shares(legs) == 1.0
            && trade.gross == h.notional * WeightedReturn(legs)
            && trade.fee == 2.0 * h.notional * FEE_RATE
            && trade.net == trade.gross - trade.fee
  {
    hide Closed, Partials, Legs, Return, Shares, WeightedReturn;
    ClosedConservesFrom(h, asks, price);
  }

  /** Gross profit and fees of a position that will still make these legs. */
  function GrossOver(h: Holding, legs: seq<Leg>): real {
    h.realized + h.notional * WeightedReturn(legs)
  }

  function FeesInAll(h: Holding): real {
    h.notional * FEE_RATE + h.exitFee + h.notional * h.remaining * FEE_RATE
  }

  lemma {:induction false} ClosedConservesFrom(h: Holding, asks: seq<Ask>, price: real)
    requires h.entryPrice != 0.0
    ensures var legs, trade := Legs(h, asks, price), Closed(Partials(h, asks), price);
            && Shares(legs) == h.remaining
            && trade.gross == GrossOver(h, legs)
            && trade.fee == FeesInAll(h)
            && trade.net == trade.gross - trade.fee
    decreases |asks|
  {
    var legs := Legs(h, asks, price);
    if asks == [] {
      ClosedAtOnce(h, price);
    } else {
      hide Closed, Return, Legs, Partial, Partials, Shares, GrossOver, FeesInAll;
      var next := Partial(h, asks[0].price, asks[0].ratio);
      PartialKeepsEntry(h, asks[0].price, asks[0].ratio);
      ClosedConservesFrom(next, asks[1..], price);
      PartialsFromTheFront(h, asks);
      LegsStep(h, asks, price);
      OneLegConserves(h, asks[0], Legs(next, asks[1..], price), legs);
    }
  }

  lemma OneLegConserves(h: Holding, ask: Ask, rest: seq<Leg>, legs: seq<Leg>)
    requires h.entryPrice != 0.0 && Shares(rest) == Partial(h, ask.price, ask.ratio).remaining
    requires legs == [Leg(Min(h.remaining, ask.ratio), Return(h, ask.price))] + rest
    ensures var next := Partial(h, ask.price, ask.ratio);
            && Shares(legs) == h.remaining
            && GrossOver(h, legs) == GrossOver(next, rest)
            && FeesInAll(h) == FeesInAll(next)
  {
    hide Return;
    assert legs[1..] == rest;
    var share, r, n := Min(h.remaining, ask.ratio), Return(h, ask.price), h.notional;
    Distribute(n, share, r, WeightedReturn(rest));
    assert n * h.remaining * FEE_RATE == n * share * FEE_RATE + n * (h.remaining - share) * FEE_RATE;
  }

  lemma LegsStep(h: Holding, asks: seq<Ask>, price: real)
    requires h.entryPrice != 0.0 && asks != []
    ensures Legs(h, asks, price)
         == [Leg(Min(h.remaining, asks[0].ratio), Return(h, asks[0].price))]
            + Legs(Partial(h, asks[0].price, asks[0].ratio), asks[1..], price)
  {
  }

  lemma ClosedAtOnce(h: Holding, price: real)
    requires h.entryPrice != 0.0
    ensures var legs, trade := Legs(h, [], price), Closed(h, price);
            && Shares(legs) == h.remaining
            && trade.gross == GrossOver(h, legs)
            && trade.fee == FeesInAll(h)
            && trade.net == trade.gross - trade.fee
  {
    hide Return;
    var legs, n, r := Legs(h, [], price), h.notional, Return(h, price);
    assert legs == [Leg(h.remaining, r)] && legs[1..] == [];
    assert WeightedReturn(legs) == h.remaining * r;
    assert n * h.remaining * r == n * (h.remaining * r);
  }

  lemma Distribute(n: real, share: real, r: real, rest: real)
    ensures n * share * r + n * rest == n * (share * r + rest)
  {
    assert n * share * r == n * (share * r);
  }

  /** What remains after the first n asks. */
  function RemainingAfter(h: Holding, asks: seq<Ask>, n: nat): real
    requires h.entryPrice != 0.0 && n <= |asks|
  {
    Partials(h, asks[..n]).remaining
  }

  /** No ask closes more than remains, and what remains never grows exactly when no ask is negative. */
  lemma RemainingNeverGrowsIff(h: Holding, asks: seq<Ask>)
    requires h.entryPrice != 0.0 && h.remaining >= 0.0
    ensures forall n :: 0 <= n <= |asks| ==> RemainingAfter(h, asks, n) >= 0.0
    ensures (forall m, n :: 0 <= m && n == m + 1 && n <= |asks| ==>
              RemainingAfter(h, asks, n) <= RemainingAfter(h, asks, m))
       <==> (forall n :: 0 <= n < |asks| ==> asks[n].ratio >= 0.0)
  {
    hide RemainingAfter;
    forall n | 0 <= n <= |asks|
      ensures RemainingAfter(h, asks, n) >= 0.0
    {
      AskGrowsIff(h, asks, n);
    }
    forall m, n | 0 <= m && n == m + 1 && n <= |asks|
      ensures RemainingAfter(h, asks, n) <= RemainingAfter(h, asks, m) <==> asks[m].ratio >= 0.0
    {
      AskGrowsIff(h, asks, m);
    }
    if exists m :: 0 <= m < |asks| && asks[m].ratio < 0.0 {
      var m :| 0 <= m < |asks| && asks[m].ratio < 0.0;
      assert RemainingAfter(h, asks, m + 1) > RemainingAfter(h, asks, m);
    }
  }

  lemma AskGrowsIff(h: Holding, asks: seq<Ask>, n: nat)
    requires h.entryPrice != 0.0 && h.remaining >= 0.0 && n <= |asks|
    ensures RemainingAfter(h, asks, n) >= 0.0
    ensures n < |asks| ==> (RemainingAfter(h, asks, n + 1) <= RemainingAfter(h, asks, n) <==> asks[n].ratio >= 0.0)
  {
    hide Return;
    RemainingIsNotNegative(h, asks[..n]);
    if n < |asks| {
      assert asks[..n + 1][..n] == asks[..n] && asks[..n + 1][n] == asks[n];
    }
  }

  lemma {:induction false} RemainingIsNotNegative(h: Holding, asks: seq<Ask>)
    requires h.entryPrice != 0.0 && h.remaining >= 0.0
    ensures Partials(h, asks).remaining >= 0.0
  {
    if asks == [] {
      assert Partials(h, asks) == h;
    } else {
      RemainingIsNotNegative(h, asks[..|asks| - 1]);
    }
  }

  // ---------------------------------------------------------------- a position's whole life under a trailing stop

  ghost predicate AllWellFormed(bars: seq<Bar>) {
    forall i :: 0 <= i < |bars| ==> bars[i].WellFormed()
  }

  /** A position after the bars before n. */
  datatype Life = Held(holding: Holding) | Gone(at: nat, exit: Exit) | Failed(kind: string)

  function Live(c: Candidate, h: Holding, bars: seq<Bar>, n: nat): (life: Life)
    requires h.Tradable() && h.entryIndex < n <= |bars|
    ensures life.Held? ==>
              life.holding.Tradable() && life.holding.entryIndex == h.entryIndex
              && life.holding.direction == h.direction
    ensures life.Gone? ==> life.at < n
    decreases n
  {
    if n == h.entryIndex + 1 then Held(h)
    else
      var before := Live(c, h, bars, n - 1);
      if !before.Held? then before
      else
        match Manage(c, before.holding, bars[n - 1], n - 1)
        case Err(kind) => Failed(kind)
        case Ok(managed) => if managed.exit.Some? then Gone(n - 1, managed.exit.value) else Held(managed.holding)
  }

  /** The first bar in [from, n) that reaches the level, or n. */
  function FirstReach(direction: int, level: real, bars: seq<Bar>, from: nat, n: nat): (k: nat)
    requires from <= n <= |bars|
    ensures from <= k <= n
    ensures k < n ==> TargetHit(direction, bars[k], level)
    ensures forall j :: from <= j < k ==> !TargetHit(direction, bars[j], level)
    decreases n
  {
    if n == from then n
    else
      var before := FirstReach(direction, level, bars, from, n - 1);
      if before < n - 1 then before else if TargetHit(direction, bars[n - 1], level) then n - 1 else n
  }

  /** The best price over bars [a, b). */
  function Extreme(direction: int, bars: seq<Bar>, a: nat, b: nat): (e: real)
    requires a < b <= |bars|
    decreases b
  {
    if b == a + 1 then Best(direction, bars[a])
    else Better(direction, Extreme(direction, bars, a, b - 1), Best(direction, bars[b - 1]))
  }

  /** It is the maximum of the highs for a long and the minimum of the lows for a short. */
  lemma {:induction false} ExtremeIsExtreme(direction: int, bars: seq<Bar>, a: nat, b: nat)
    requires a < b <= |bars|
    ensures direction > 0 ==> Extreme(direction, bars, a, b) == MaxOf(HighsOf(bars[a..b]))
    ensures direction <= 0 ==> Extreme(direction, bars, a, b) == MinOf(LowsOf(bars[a..b]))
    decreases b
  {
    var window, highs, lows := bars[a..b], HighsOf(bars[a..b]), LowsOf(bars[a..b]);
    if b == a + 1 {
      assert highs == [bars[a].high] && lows == [bars[a].low];
    } else {
      ExtremeIsExtreme(direction, bars, a, b - 1);
      assert highs == HighsOf(bars[a..b - 1]) + [bars[b - 1].high];
      assert lows == LowsOf(bars[a..b - 1]) + [bars[b - 1].low];
      MaxOfAppend(HighsOf(bars[a..b - 1]), bars[b - 1].high);
      MinOfAppend(LowsOf(bars[a..b - 1]), bars[b - 1].low);
    }
  }

  function HighsOf(bars: seq<Bar>): seq<real> {
    seq(|bars|, i requires 0 <= i < |bars| => bars[i].high)
  }

  function LowsOf(bars: seq<Bar>): seq<real> {
    seq(|bars|, i requires 0 <= i < |bars| => bars[i].low)
  }

  lemma MinOfAppend(s: seq<real>, x: real)
    requires s != []
    ensures MinOf(s + [x]) == Min(MinOf(s), x)
  {
    var m :| 0 <= m < |s| && s[m] == MinOf(s);
    assert (s + [x])[m] == MinOf(s) && (s + [x])[|s|] == x;
    var n :| 0 <= n <= |s| && (s + [x])[n] == MinOf(s + [x]);
  }

  /** The bar that arms a position's trailing stop, or n. */
  function ArmedAt(c: Candidate, h: Holding, bars: seq<Bar>, n: nat): (a: nat)
    requires Trails(c) && h.entryIndex < n <= |bars|
    ensures h.entryIndex < a <= n
  {
    FirstReach(h.direction, Level(h.entryPrice, h.direction, Trigger(c)), bars, h.entryIndex + 1, n)
  }

  /** The trailing stop tested on bar k by a position armed on bar a. */
  function TrailStop(c: Candidate, h: Holding, bars: seq<Bar>, a: nat, k: nat): real
    requires Trails(c) && a <= k < |bars|
  {
    Level(Extreme(h.direction, bars, a, k + 1), h.direction, -c.trail)
  }

  predicate HardStopHit(c: Candidate, h: Holding, bar: Bar)
    requires Trails(c)
  {
    StopHit(h.direction, bar, Level(h.entryPrice, h.direction, -c.sl))
  }

  /** No bar since entry hit the hard stop, and none since arming hit the trailing stop of all bars since arming. */
  ghost predicate NotStopped(c: Candidate, h: Holding, bars: seq<Bar>, n: nat)
    requires Trails(c) && h.entryIndex < n <= |bars|
  {
    && (forall k :: h.entryIndex < k < n ==> !HardStopHit(c, h, bars[k]))
    && (forall k :: ArmedAt(c, h, bars, n) < k < n ==>
          !StopHit(h.direction, bars[k], TrailStop(c, h, bars, ArmedAt(c, h, bars, n), k)))
  }

  /** What a fresh position has become, said without its history: armed or not, and the best price since. */
  function Survivor(c: Candidate, h: Holding, bars: seq<Bar>, n: nat): Holding
    requires Trails(c) && h.Tradable() && h.entryIndex < n <= |bars|
  {
    var a := ArmedAt(c, h, bars, n);
    if a == n then h else Armed(c, h).(extreme := Extreme(h.direction, bars, a, n))
  }

  predicate Fresh(h: Holding) {
    h.Tradable() && !h.activated && !h.partialDone
  }

  /** The trailing exits, characterised: a position is still held exactly when no stop was hit, it then equals its
      Survivor, and otherwise it left on the first bar that hit a stop, at that stop, the hard stop first. */
  lemma {:induction false} LifeUnderTrailingStop(c: Candidate, h: Holding, bars: seq<Bar>, n: nat)
    requires Trails(c) && Fresh(h) && h.entryIndex < n <= |bars|
    ensures var life := Live(c, h, bars, n);
            && (life.Held? <==> NotStopped(c, h, bars, n))
            && (life.Held? ==> life.holding == Survivor(c, h, bars, n))
            && (!life.Held? ==> life.Gone? && h.entryIndex < life.at && LeftAt(c, h, bars, life.at, life.exit))
    decreases n
  {
    hide Manage, Survivor, NotStopped, LeftAt;
    if n == h.entryIndex + 1 {
      FreshSurvives(c, h, bars);
    } else {
      LifeUnderTrailingStop(c, h, bars, n - 1);
      var before := Live(c, h, bars, n - 1);
      if before.Held? {
        NextBar(c, h, bars, n - 1);
      } else {
        StoppedStaysStopped(c, h, bars, n - 1);
      }
    }
  }

  /** The exit of a position that survived the bars before `at` and not that bar. */
  ghost predicate LeftAt(c: Candidate, h: Holding, bars: seq<Bar>, at: nat, exit: Exit)
    requires Trails(c) && h.entryIndex < at < |bars|
  {
    && NotStopped(c, h, bars, at)
    && if HardStopHit(c, h, bars[at])
       then exit == Exit(Fill(Level(h.entryPrice, h.direction, -c.sl), h.direction), StopLoss)
       else
         var a := ArmedAt(c, h, bars, at);
         && a < at
         && StopHit(h.direction, bars[at], TrailStop(c, h, bars, a, at))
         && exit == Exit(Fill(TrailStop(c, h, bars, a, at), h.direction), TrailReason(c))
  }

  lemma FreshSurvives(c: Candidate, h: Holding, bars: seq<Bar>)
    requires Trails(c) && Fresh(h) && h.entryIndex + 1 <= |bars|
    ensures NotStopped(c, h, bars, h.entryIndex + 1) && Survivor(c, h, bars, h.entryIndex + 1) == h
  {
  }

  lemma StoppedStaysStopped(c: Candidate, h: Holding, bars: seq<Bar>, n: nat)
    requires Trails(c) && h.entryIndex < n < |bars| && !NotStopped(c, h, bars, n)
    ensures !NotStopped(c, h, bars, n + 1)
  {
    hide HardStopHit, StopHit, TrailStop, Level;
    var a := ArmedAt(c, h, bars, n);
    if a < n {
      assert ArmedAt(c, h, bars, n + 1) == a;
    }
  }

  /** One more bar for a position that survived so far. */
  lemma NextBar(c: Candidate, h: Holding, bars: seq<Bar>, n: nat)
    requires Trails(c) && Fresh(h) && h.entryIndex < n < |bars| && NotStopped(c, h, bars, n)
    ensures var before := Survivor(c, h, bars, n);
            && before.Tradable()
            && var result := Manage(c, before, bars[n], n);
            && result.Ok?
            && var managed := result.value;
            && (managed.exit.None? <==> NotStopped(c, h, bars, n + 1))
            && (managed.exit.None? ==> managed.holding == Survivor(c, h, bars, n + 1))
            && (managed.exit.Some? ==> LeftAt(c, h, bars, n, managed.exit.value))
  {
    hide StopHit, Level, Fill, Partial;
    ArmedKeeps(c, h);
    var a, next := ArmedAt(c, h, bars, n), ArmedAt(c, h, bars, n + 1);
    if a < n {
      assert next == a;
      assert Extreme(h.direction, bars, a, n + 1) ==
        Better(h.direction, Extreme(h.direction, bars, a, n), Best(h.direction, bars[n]));
    }
  }

  lemma ArmedKeeps(c: Candidate, h: Holding)
    requires Trails(c) && h.Tradable()
    ensures var armed := Armed(c, h);
            armed.direction == h.direction && armed.entryPrice == h.entryPrice && armed.Tradable() && IsArmed(c, armed)
  {
  }

  /** Between two bars a trailing stop has not loosened exactly when the price has brought no better extreme, or the
      trail keeps the stop on the extreme's side of zero: a long's at most 1, a short's at least -1. */
  lemma TrailTightensIff(c: Candidate, h: Holding, bars: seq<Bar>, a: nat, k: nat, later: nat)
    requires Trails(c) && h.Tradable() && a <= k <= later < |bars|
    ensures var early, late := Extreme(h.direction, bars, a, k + 1), Extreme(h.direction, bars, a, later + 1);
            if h.direction > 0
            then TrailStop(c, h, bars, a, k) <= TrailStop(c, h, bars, a, later) <==> c.trail <= 1.0 || early == late
            else TrailStop(c, h, bars, a, later) <= TrailStop(c, h, bars, a, k) <==> c.trail >= -1.0 || early == late
  {
    hide Level, Extreme;
    ExtremeImproves(h.direction, bars, a, k + 1, later + 1);
    LevelTightensIff(h.direction, Extreme(h.direction, bars, a, k + 1), Extreme(h.direction, bars, a, later + 1),
                     c.trail);
  }

  lemma {:induction false} ExtremeImproves(direction: int, bars: seq<Bar>, a: nat, b: nat, later: nat)
    requires a < b <= later <= |bars|
    ensures var early, late := Extreme(direction, bars, a, b), Extreme(direction, bars, a, later);
            if direction > 0 then early <= late else late <= early
    decreases later
  {
    if b == later {
      assert Extreme(direction, bars, a, b) == Extreme(direction, bars, a, later);
    } else {
      ExtremeImproves(direction, bars, a, b, later - 1);
    }
  }

  lemma LevelTightensIff(direction: int, before: real, after: real, trail: real)
    requires direction == 1 || direction == -1
    requires if direction > 0 then before <= after else after <= before
    ensures if direction > 0
            then Level(before, direction, -trail) <= Level(after, direction, -trail) <==>
            trail <= 1.0 || before == after
            else Level(after, direction, -trail) <= Level(before, direction, -trail) <==>
            trail >= -1.0 || before == after
  {
    hide Level;
    LevelByDirection(before, direction, trail);
    LevelByDirection(after, direction, trail);
    assert Below(after, trail) - Below(before, trail) == (after - before) * (1.0 - trail);
    assert Above(before, trail) - Above(after, trail) == (before - after) * (1.0 + trail);
    hide Above, Below;
    if direction > 0 {
      ProductSign(after - before, 1.0 - trail);
    } else {
      ProductSign(before - after, 1.0 + trail);
    }
  }

  lemma ProductSign(x: real, y: real)
    requires x >= 0.0
    ensures x * y >= 0.0 <==> x == 0.0 || y >= 0.0
  {
    if x > 0.0 && y < 0.0 {
      assert x * y < 0.0;
    }
  }

  lemma ArmedStaysArmed(c: Candidate, h: Holding, bars: seq<Bar>, n: nat, later: nat)
    requires Trails(c) && h.entryIndex < n <= later <= |bars| && ArmedAt(c, h, bars, n) < n
    ensures ArmedAt(c, h, bars, later) == ArmedAt(c, h, bars, n)
  {
    var level := Level(h.entryPrice, h.direction, Trigger(c));
    var a, b := ArmedAt(c, h, bars, n), ArmedAt(c, h, bars, later);
    assert TargetHit(h.direction, bars[a], level);
    assert b <= a;
    assert TargetHit(h.direction, bars[b], level);
  }

  // ---------------------------------------------------------------- a position's whole life between two barriers

  /** The take and the stop that the other kinds test on a bar. */
  predicate HasBarriers(c: Candidate) {
    c.Fixed? || c.TimeLimited? || c.Atr?
  }

  function TakeMove(c: Candidate, bar: Bar): real
    requires HasBarriers(c)
  {
    if c.Atr? then AtrMove(bar, c.tpMultiple, c.minTp, c.maxTp) else c.tp
  }

  function StopMove(c: Candidate, bar: Bar): real
    requires HasBarriers(c)
  {
    if c.Atr? then AtrMove(bar, c.slMultiple, c.minSl, c.maxSl) else c.sl
  }

  predicate Expired(c: Candidate, h: Holding, k: nat) {
    c.TimeLimited? && k - h.entryIndex >= c.maxHolding
  }

  predicate StopTouched(c: Candidate, h: Holding, bar: Bar)
    requires HasBarriers(c)
  {
    StopHit(h.direction, bar, Level(h.entryPrice, h.direction, -StopMove(c, bar)))
  }

  predicate TakeTouched(c: Candidate, h: Holding, bar: Bar)
    requires HasBarriers(c)
  {
    TargetHit(h.direction, bar, Level(h.entryPrice, h.direction, TakeMove(c, bar)))
  }

  /** Nothing that ends a position happened on the bars since its entry. */
  ghost predicate Undisturbed(c: Candidate, h: Holding, bars: seq<Bar>, n: nat)
    requires HasBarriers(c) && h.entryIndex < n <= |bars|
  {
    forall k :: h.entryIndex < k < n ==> !Expired(c, h, k) && !StopTouched(c, h, bars[k]) && !TakeTouched(c, h, bars[k])
  }

  /** The exit on bar k: time before stop, stop before take, so a bar that touches both loses. */
  ghost predicate LeftBetween(c: Candidate, h: Holding, bar: Bar, k: nat, exit: Exit)
    requires HasBarriers(c)
  {
    if Expired(c, h, k) then exit == Exit(Fill(bar.close, h.direction), TimeExit)
    else if StopTouched(c, h, bar) then
      exit == Exit(Fill(Level(h.entryPrice, h.direction, -StopMove(c, bar)), h.direction), StopLoss)
    else
      && TakeTouched(c, h, bar)
      && exit == Exit(Fill(Level(h.entryPrice, h.direction, TakeMove(c, bar)), h.direction), TakeProfit)
  }

  /** The fixed, timed and volatility-scaled exits, characterised: a position is held unchanged exactly while no barrier
      is touched and no limit reached, and leaves on the first bar where one is. */
  lemma {:induction false} LifeBetweenBarriers(c: Candidate, h: Holding, bars: seq<Bar>, n: nat)
    requires HasBarriers(c) && h.Tradable() && h.entryIndex < n <= |bars|
    ensures var life := Live(c, h, bars, n);
            && (life.Held? <==> Undisturbed(c, h, bars, n))
            && (life.Held? ==> life.holding == h)
            && (!life.Held? ==>
                  && life.Gone? && h.entryIndex < life.at
                  && Undisturbed(c, h, bars, life.at) && LeftBetween(c, h, bars[life.at], life.at, life.exit))
    decreases n
  {
    hide Manage, LeftBetween, Expired, StopTouched, TakeTouched;
    if n <= h.entryIndex + 1 {
    } else {
      LifeBetweenBarriers(c, h, bars, n - 1);
      OneBarBetween(c, h, bars[n - 1], n - 1);
    }
  }

  lemma OneBarBetween(c: Candidate, h: Holding, bar: Bar, k: nat)
    requires HasBarriers(c) && h.Tradable()
    ensures var r := Manage(c, h, bar, k);
            && r.Ok? && r.value.holding == h
            && (r.value.exit.None? <==> !Expired(c, h, k) && !StopTouched(c, h, bar) && !TakeTouched(c, h, bar))
            && (r.value.exit.Some? ==> LeftBetween(c, h, bar, k, r.value.exit.value))
  {
    hide StopHit, TargetHit, Level, Fill, AtrMove;
  }

  // ---------------------------------------------------------------- the run over a candidate

  datatype Sizing = Sizing(minEquityRatio: real, maxEquityRatio: real, minLeverage: real, maxLeverage: real)

  datatype Account = Account(
    equity: real, peak: real, maxDrawdown: real, tradeCount: nat, grossWins: nat, netWins: nat,
    grossPnl: real, netPnl: real, feePaid: real,
    grossRoes: seq<real>, netRoes: seq<real>, netReturns: seq<real>, holdingMinutes: seq<int>,
    exitReasons: map<Reason, nat>)

  const OPENING := Account(INITIAL_EQUITY, INITIAL_EQUITY, 0.0, 0, 0, 0, 0.0, 0.0, 0.0, [], [], [], [], map[])

  /** A closed position: what it had become, the bar it closed on, and the fill. */
  datatype Settled = Settled(holding: Holding, at: nat, exit: Exit)

  /** The account and open position, with the closed positions and the equity after each as its history. */
  datatype State = State(account: Account, position: Option<Holding>, log: seq<Settled>, curve: seq<real>)

  function Counted(reasons: map<Reason, nat>, reason: Reason): nat {
    if reason in reasons then reasons[reason] else 0
  }

  /** Books one trade. */
  function Booked(a: Account, h: Holding, trade: Trade, minutes: int, reason: Reason): Account {
    var equity := a.equity + trade.net;
    var peak := Max(a.peak, equity);
    Account(
      equity, peak, Deeper(a.maxDrawdown, peak, equity), a.tradeCount + 1,
      a.grossWins + (if trade.gross > 0.0 then 1 else 0), a.netWins + (if trade.net > 0.0 then 1 else 0),
      a.grossPnl + trade.gross, a.netPnl + trade.net, a.feePaid + trade.fee,
      a.grossRoes + [if h.margin > 0.0 then trade.gross / h.margin else 0.0],
      a.netRoes + [if h.margin > 0.0 then trade.net / h.margin else 0.0],
      a.netReturns + [if h.notional > 0.0 then trade.net / h.notional else 0.0],
      a.holdingMinutes + [minutes],
      a.exitReasons[reason := Counted(a.exitReasons, reason) + 1])
  }

  function Settle(s: State, h: Holding, at: nat, exit: Exit): State
    requires h.entryPrice != 0.0
  {
    var account := Booked(s.account, h, Closed(h, exit.price), at - h.entryIndex, exit.reason);
    State(account, None, s.log + [Settled(h, at, exit)], s.curve + [account.equity])
  }

  function Open(equity: real, bar: Bar, index: nat, sizing: Sizing): Holding {
    var margin := equity * Scalping.Scaled(0.68, sizing.minEquityRatio, sizing.maxEquityRatio);
    var direction := if bar.signal > 0 then 1 else -1;
    Opened(direction, Scalping.EntrySlippage(bar.close, direction, SLIPPAGE_RATE), index,
           margin * Scalping.Scaled(0.68, sizing.minLeverage, sizing.maxLeverage), margin)
  }

  predicate Tradable(position: Option<Holding>, n: nat) {
    position.Some? ==> position.value.Tradable() && position.value.entryIndex < n
  }

  function Step(c: Candidate, s: State, bar: Bar, index: nat, sizing: Sizing): Result<State, string>
    requires Tradable(s.position, index)
  {
    if s.position.None? then
      Ok(if bar.signal == 0 then s else s.(position := Some(Open(s.account.equity, bar, index, sizing))))
    else
      match Manage(c, s.position.value, bar, index)
      case Err(kind) => Err(kind)
      case Ok(managed) =>
        Ok(if managed.exit.None? then s.(position := Some(managed.holding))
           else Settle(s, managed.holding, index, managed.exit.value))
  }

  lemma ManageKeepsEntry(c: Candidate, h: Holding, bar: Bar, index: nat)
    requires h.Tradable()
    ensures match Manage(c, h, bar, index)
            case Ok(managed) =>
              managed.holding.Tradable() && managed.holding.entryIndex == h.entryIndex
              && Origin(managed.holding) == Origin(h)
            case Err(_) => true
  {
    hide Level, StopHit, TargetHit, Fill;
  }

  lemma OpenIsTradable(equity: real, bar: Bar, index: nat, sizing: Sizing)
    requires bar.WellFormed()
    ensures var h := Open(equity, bar, index, sizing); Fresh(h) && h.entryIndex == index && Origin(h) == h
  {
    hide Scalping.Scaled;
    ProductOrder(0.0, 1.0 - SLIPPAGE_RATE, bar.close);
    ProductOrder(0.0, 1.0 + SLIPPAGE_RATE, bar.close);
  }

  lemma StepKeepsTradable(c: Candidate, s: State, bar: Bar, index: nat, sizing: Sizing)
    requires Tradable(s.position, index) && bar.WellFormed()
    ensures var r := Step(c, s, bar, index, sizing); r.Ok? ==> Tradable(r.value.position, index + 1)
  {
    hide Manage, Open, Booked, Closed;
    OpenIsTradable(s.account.equity, bar, index, sizing);
    if s.position.Some? {
      ManageKeepsEntry(c, s.position.value, bar, index);
    }
  }

  /** The loop over bars [WARM_UP, n). */
  function Run(c: Candidate, bars: seq<Bar>, sizing: Sizing, n: nat): (r: Result<State, string>)
    requires AllWellFormed(bars) && n <= |bars|
    ensures r.Ok? ==> Tradable(r.value.position, n)
  {
    hide Manage, Open, Settle;
    if n <= WARM_UP then Ok(State(OPENING, None, [], [INITIAL_EQUITY]))
    else
      match Run(c, bars, sizing, n - 1)
      case Err(kind) => Err(kind)
      case Ok(s) =>
        OpenIsTradable(s.account.equity, bars[n - 1], n - 1, sizing);
        StepKeepsTradable(c, s, bars[n - 1], n - 1, sizing);
        Step(c, s, bars[n - 1], n - 1, sizing)
  }

  /** The whole run: a position still open is closed at the last close, which is slipped like any other fill. */
  function Outcome(c: Candidate, bars: seq<Bar>, sizing: Sizing): Result<State, string>
    requires AllWellFormed(bars)
  {
    match Run(c, bars, sizing, |bars|)
    case Err(kind) => Err(kind)
    case Ok(s) =>
      if s.position.None? || bars == [] then Ok(s)
      else
        var last := |bars| - 1;
        Ok(Settle(s, s.position.value, last, Exit(Fill(bars[last].close, s.position.value.direction), EndOfData)))
  }

  /** A step, case by case. */
  lemma StepCases(c: Candidate, s: State, bar: Bar, index: nat, sizing: Sizing)
    requires Tradable(s.position, index)
    ensures s.position.None? && bar.signal == 0 ==> Step(c, s, bar, index, sizing) == Ok(s)
    ensures s.position.None? && bar.signal != 0 ==>
              Step(c, s, bar, index, sizing) == Ok(s.(position := Some(Open(s.account.equity, bar, index, sizing))))
    ensures s.position.Some? ==>
              match Manage(c, s.position.value, bar, index)
              case Err(kind) => Step(c, s, bar, index, sizing) == Err(kind)
              case Ok(managed) =>
                Step(c, s, bar, index, sizing)
                == Ok(if managed.exit.None? then s.(position := Some(managed.holding))
                      else Settle(s, managed.holding, index, managed.exit.value))
  {
    hide Manage, Open, Settle;
  }

  method Simulate(c: Candidate, bars: seq<Bar>, sizing: Sizing) returns (result: Result<Account, string>)
    requires AllWellFormed(bars)
    ensures match Outcome(c, bars, sizing)
            case Ok(s) => result == Ok(s.account)
            case Err(kind) => result == Err(kind)
  {
    hide Manage, Booked, Closed, Scalping.Scaled, Scalping.EntrySlippage, Fill, Step;
    var account := OPENING;
    var position: OpenPosition? := null;
    ghost var log: seq<Settled> := [];
    ghost var curve := [INITIAL_EQUITY];
    var index := 0;
    while index < |bars|
      invariant 0 <= index <= |bars|
      invariant position != null ==> fresh(position)
      invariant Run(c, bars, sizing, index) == Ok(State(account, ViewOf(position), log, curve))
    {
      var bar := bars[index];
      if index >= WARM_UP {
        ghost var s := State(account, ViewOf(position), log, curve);
        assert Run(c, bars, sizing, index + 1) == Step(c, s, bar, index, sizing);
        StepCases(c, s, bar, index, sizing);
        if position != null {
          var exitResult := position.ExitForCandle(c, bar, index);
          if exitResult.Err? {
            ErrStays(c, bars, sizing, index + 1);
            return Err(exitResult.error);
          }
          if exitResult.value.Some? {
            var exit := exitResult.value.value;
            ManageKeepsEntry(c, Run(c, bars, sizing, index).value.position.value, bar, index);
            var trade := position.Close(exit.price);
            account := Booked(account, position.View(), trade, index - position.entryIndex, exit.reason);
            log, curve := log + [Settled(position.View(), index, exit)], curve + [account.equity];
            position := null;
          }
        } else if bar.signal != 0 {
          var direction := if bar.signal > 0 then 1 else -1;
          var margin := account.equity * Scalping.Scaled(0.68, sizing.minEquityRatio, sizing.maxEquityRatio);
          var notional := margin * Scalping.Scaled(0.68, sizing.minLeverage, sizing.maxLeverage);
          var entryPrice := Scalping.EntrySlippage(bar.close, direction, SLIPPAGE_RATE);
          position := new OpenPosition(direction, entryPrice, index, notional, margin);
          assert position.View() == Open(account.equity, bar, index, sizing);
        }
      }
      index := index + 1;
    }
    if position != null && bars != [] {
      var exitPrice := Fill(bars[|bars| - 1].close, position.direction);
      var trade := position.Close(exitPrice);
      account := Booked(account, position.View(), trade, |bars| - 1 - position.entryIndex, EndOfData);
    }
    result := Ok(account);
  }

  function ViewOf(position: OpenPosition?): Option<Holding>
    reads position
  {
    if position == null then None else Some(position.View())
  }

  lemma {:induction false} ErrStays(c: Candidate, bars: seq<Bar>, sizing: Sizing, n: nat)
    requires AllWellFormed(bars) && n <= |bars| && Run(c, bars, sizing, n).Err?
    ensures Outcome(c, bars, sizing) == Err(Run(c, bars, sizing, n).error)
  {
    ErrStaysTo(c, bars, sizing, n, |bars|);
  }

  lemma {:induction false} ErrStaysTo(c: Candidate, bars: seq<Bar>, sizing: Sizing, n: nat, m: nat)
    requires AllWellFormed(bars) && n <= m <= |bars| && Run(c, bars, sizing, n).Err?
    ensures Run(c, bars, sizing, m) == Run(c, bars, sizing, n)
  {
    if n >= m {
    } else {
      ErrStaysTo(c, bars, sizing, n, m - 1);
    }
  }

  /** The position as it was opened. */
  function Origin(h: Holding): Holding {
    Opened(h.direction, h.entryPrice, h.entryIndex, h.notional, h.margin)
  }

  // ---------------------------------------------------------------- what every run keeps

  /** Both fees on every notional ever closed. */
  function FeesOf(log: seq<Settled>): real {
    if log == [] then 0.0
    else FeesOf(log[..|log| - 1]) + 2.0 * log[|log| - 1].holding.notional * FEE_RATE
  }

  function CountOf(log: seq<Settled>, reason: Reason): nat {
    if log == [] then 0
    else CountOf(log[..|log| - 1], reason) + (if log[|log| - 1].exit.reason == reason then 1 else 0)
  }

  /** All exits counted, whatever their reason. */
  function AllReasons(reasons: map<Reason, nat>): nat {
    Counted(reasons, StopLoss) + Counted(reasons, TakeProfit) + Counted(reasons, TimeExit)
    + Counted(reasons, TrailingTakeProfit) + Counted(reasons, Reason.PartialTrailingExit) + Counted(reasons, EndOfData)
  }

  /** Money: equity moved by gross profit less fees, and fees are both sides of every closed notional. */
  ghost predicate MoneyBalances(s: State) {
    && s.account.equity == INITIAL_EQUITY + s.account.grossPnl - s.account.feePaid
    && s.account.netPnl == s.account.grossPnl - s.account.feePaid
    && s.account.feePaid == FeesOf(s.log)
  }

  /** Counts: every list and counter has one entry per closed position. */
  ghost predicate CountsBalance(s: State) {
    var a := s.account;
    && a.tradeCount == |s.log| == |a.grossRoes| == |a.netRoes| == |a.netReturns| == |a.holdingMinutes|
    && a.grossWins <= a.tradeCount && a.netWins <= a.tradeCount
    && (forall r :: Counted(a.exitReasons, r) == CountOf(s.log, r))
    && AllReasons(a.exitReasons) == a.tradeCount
    && (forall k :: 0 <= k < |s.log| ==> a.holdingMinutes[k] == s.log[k].at - s.log[k].holding.entryIndex)
  }

  /** Risk: the peak and drawdown are those of the equity curve. */
  ghost predicate CurveFollowed(s: State) {
    && |s.curve| == s.account.tradeCount + 1
    && s.curve[0] == INITIAL_EQUITY && s.curve[|s.curve| - 1] == s.account.equity
    && s.account.peak == MaxOf(s.curve) && s.account.maxDrawdown == Deepest(s.curve)
  }

  /** Order: one position at a time, each opened strictly after the one before it closed. */
  ghost predicate InOrder(s: State, n: nat) {
    && (forall k :: 0 <= k < |s.log| ==> s.log[k].holding.entryIndex <= s.log[k].at < n)
    && (forall j, k :: 0 <= j < k < |s.log| ==> s.log[j].at < s.log[k].holding.entryIndex)
    && (s.position.Some? ==>
          forall k :: 0 <= k < |s.log| ==> s.log[k].at < s.position.value.entryIndex)
  }

  /** The fees already paid and still to come on a position make both sides of its notional. */
  predicate FeesPending(h: Holding) {
    FeesInAll(h) == 2.0 * h.notional * FEE_RATE
  }

  lemma PartialKeepsFees(h: Holding, price: real, ratio: real)
    requires h.entryPrice != 0.0
    ensures FeesInAll(Partial(h, price, ratio)) == FeesInAll(h)
  {
    var share, n := Min(h.remaining, ratio), h.notional;
    assert n * h.remaining * FEE_RATE == n * share * FEE_RATE + n * (h.remaining - share) * FEE_RATE;
  }

  lemma ManageKeepsFees(c: Candidate, h: Holding, bar: Bar, index: nat)
    requires h.Tradable() && FeesPending(h)
    ensures match Manage(c, h, bar, index)
            case Ok(managed) => FeesPending(managed.holding)
            case Err(_) => true
  {
    hide Partial, Level, StopHit, TargetHit, Fill;
    if Trails(c) {
      if c.PartialTrailing? {
        var price := Fill(Level(h.entryPrice, h.direction, c.firstTp), h.direction);
        PartialKeepsFees(h, price, c.partialRatio);
        PartialKeepsEntry(h, price, c.partialRatio);
      }
    }
  }

  lemma SettleKeepsMoney(s: State, h: Holding, at: nat, exit: Exit)
    requires MoneyBalances(s) && h.Tradable() && FeesPending(h)
    ensures MoneyBalances(Settle(s, h, at, exit))
  {
    var after := Settle(s, h, at, exit);
    var trade := Closed(h, exit.price);
    assert after.log[..|after.log| - 1] == s.log;
    assert trade.fee == FeesInAll(h);
  }

  lemma SettleKeepsCounts(s: State, h: Holding, at: nat, exit: Exit)
    requires CountsBalance(s) && h.Tradable()
    ensures CountsBalance(Settle(s, h, at, exit))
  {
    hide Closed, Booked, AllReasons, Counted;
    var after := Settle(s, h, at, exit);
    assert after.log[..|after.log| - 1] == s.log;
    BookingCountsOnce(s.account, h, Closed(h, exit.price), at - h.entryIndex, exit.reason);
    OneMoreExit(s.account.exitReasons, exit.reason);
  }

  lemma BookingCountsOnce(a: Account, h: Holding, trade: Trade, minutes: int, reason: Reason)
    ensures var b := Booked(a, h, trade, minutes, reason);
            && b.tradeCount == a.tradeCount + 1
            && |b.grossRoes| == |a.grossRoes| + 1 && |b.netRoes| == |a.netRoes| + 1
            && |b.netReturns| == |a.netReturns| + 1 && b.holdingMinutes == a.holdingMinutes + [minutes]
            && b.grossWins <= a.grossWins + 1 && b.netWins <= a.netWins + 1
            && b.exitReasons == a.exitReasons[reason := Counted(a.exitReasons, reason) + 1]
  {
    hide Deeper, Counted;
  }

  lemma OneMoreExit(reasons: map<Reason, nat>, reason: Reason)
    ensures var more := reasons[reason := Counted(reasons, reason) + 1];
            && AllReasons(more) == AllReasons(reasons) + 1
            && forall r :: Counted(more, r) == Counted(reasons, r) + (if r == reason then 1 else 0)
  {
    OneMoreCounted(reasons, reason);
    hide Counted;
  }

  lemma OneMoreCounted(reasons: map<Reason, nat>, reason: Reason)
    ensures forall r :: Counted(reasons[reason := Counted(reasons, reason) + 1], r)
                     == Counted(reasons, r) + (if r == reason then 1 else 0)
  {
  }

  lemma SettleFollowsCurve(s: State, h: Holding, at: nat, exit: Exit)
    requires CurveFollowed(s) && h.Tradable()
    ensures CurveFollowed(Settle(s, h, at, exit))
  {
    hide Closed, Deeper, Deepest, MaxOf;
    DeeperFollows(s.curve, Settle(s, h, at, exit).account.equity);
  }

  lemma SettleKeepsOrder(s: State, h: Holding, at: nat, exit: Exit)
    requires s.position.Some? && InOrder(s, at) && h.entryPrice != 0.0
    requires h.entryIndex == s.position.value.entryIndex <= at
    ensures InOrder(Settle(s, h, at, exit), at + 1)
  {
    hide Booked, Closed;
  }

  ghost predicate Kept(s: State, n: nat) {
    && MoneyBalances(s) && CountsBalance(s) && CurveFollowed(s) && InOrder(s, n)
    && (s.position.Some? ==> FeesPending(s.position.value))
  }

  lemma SettleKeeps(s: State, h: Holding, at: nat, exit: Exit)
    requires s.position.Some? && Kept(s, at) && h.Tradable() && FeesPending(h)
    requires h.entryIndex == s.position.value.entryIndex <= at
    ensures Kept(Settle(s, h, at, exit), at + 1)
  {
    hide MoneyBalances, CountsBalance, CurveFollowed, InOrder, FeesPending;
    SettleKeepsMoney(s, h, at, exit);
    SettleKeepsCounts(s, h, at, exit);
    SettleFollowsCurve(s, h, at, exit);
    SettleKeepsOrder(s, h, at, exit);
    SettleClosesThePosition(s, h, at, exit);
  }

  lemma SettleClosesThePosition(s: State, h: Holding, at: nat, exit: Exit)
    requires h.entryPrice != 0.0
    ensures var after := Settle(s, h, at, exit); after.position == None && after.log == s.log + [Settled(h, at, exit)]
  {
  }

  lemma StartIsKept()
    ensures Kept(State(OPENING, None, [], [INITIAL_EQUITY]), 0)
  {
    assert [INITIAL_EQUITY][..0] == [];
    assert Deepest([]) == 0.0;
  }

  lemma NotSettlingKeeps(s: State, position: Option<Holding>, at: nat)
    requires Kept(s, at) && (position.Some? ==> FeesPending(position.value))
    requires if s.position.Some? then position.Some? && position.value.entryIndex == s.position.value.entryIndex
             else position.Some? ==> position.value.entryIndex == at
    ensures Kept(s.(position := position), at + 1)
  {
    hide FeesPending;
  }

  lemma StepKeeps(c: Candidate, s: State, bar: Bar, index: nat, sizing: Sizing)
    requires Tradable(s.position, index) && bar.WellFormed() && Kept(s, index)
    ensures match Step(c, s, bar, index, sizing)
            case Ok(after) => Kept(after, index + 1)
            case Err(_) => true
  {
    hide Manage, Open, Settle, Kept, FeesPending;
    if s.position.Some? {
      var h := s.position.value;
      KeptPosition(s, index);
      ManageKeepsEntry(c, h, bar, index);
      ManageKeepsFees(c, h, bar, index);
      var result := Manage(c, h, bar, index);
      if result.Ok? {
        if result.value.exit.Some? {
          SettleKeeps(s, result.value.holding, index, result.value.exit.value);
        } else {
          NotSettlingKeeps(s, Some(result.value.holding), index);
        }
      }
    } else if bar.signal == 0 {
      NotSettlingKeeps(s, None, index);
      assert s.(position := None) == s;
    } else {
      OpenIsTradable(s.account.equity, bar, index, sizing);
      FreshFeesPending(Open(s.account.equity, bar, index, sizing));
      NotSettlingKeeps(s, Some(Open(s.account.equity, bar, index, sizing)), index);
    }
  }

  lemma KeptPosition(s: State, n: nat)
    requires Kept(s, n)
    ensures s.position.Some? ==> FeesPending(s.position.value)
  {
  }

  lemma FreshFeesPending(h: Holding)
    requires Origin(h) == h
    ensures FeesPending(h)
  {
  }

  lemma {:induction false} RunKeeps(c: Candidate, bars: seq<Bar>, sizing: Sizing, n: nat)
    requires AllWellFormed(bars) && n <= |bars| && Run(c, bars, sizing, n).Ok?
    ensures Kept(Run(c, bars, sizing, n).value, n)
  {
    hide Step, Kept;
    if n <= WARM_UP {
      StartIsKeptAt(n);
    } else {
      RunKeeps(c, bars, sizing, n - 1);
      StepKeeps(c, Run(c, bars, sizing, n - 1).value, bars[n - 1], n - 1, sizing);
    }
  }

  lemma StartIsKeptAt(n: nat)
    ensures Kept(State(OPENING, None, [], [INITIAL_EQUITY]), n)
  {
    StartIsKept();
  }

  /** Every finished run balances: money, counts, drawdown and order. */
  lemma OutcomeBalances(c: Candidate, bars: seq<Bar>, sizing: Sizing)
    requires AllWellFormed(bars)
    ensures match Outcome(c, bars, sizing)
            case Ok(s) => MoneyBalances(s) && CountsBalance(s) && CurveFollowed(s) && InOrder(s, |bars|)
            case Err(kind) => c == Unsupported(kind)
  {
    hide Settle, Manage, Open, MoneyBalances, CountsBalance, CurveFollowed, InOrder, FeesPending;
    if Run(c, bars, sizing, |bars|).Err? {
      OnlyUnsupportedFails(c, bars, sizing, |bars|);
    } else {
      RunKeeps(c, bars, sizing, |bars|);
      var s := Run(c, bars, sizing, |bars|).value;
      if s.position.Some? && bars != [] {
        var last := |bars| - 1;
        OpenSinceBefore(s, last);
        SettleKeeps(s, s.position.value, last, Exit(Fill(bars[last].close, s.position.value.direction), EndOfData));
      }
    }
  }

  /** While a position is open nothing can have closed on the last bar. */
  lemma OpenSinceBefore(s: State, last: nat)
    requires Kept(s, last + 1) && s.position.Some? && s.position.value.entryIndex <= last
    ensures Kept(s, last)
  {
    hide MoneyBalances, CountsBalance, CurveFollowed, FeesPending;
  }

  lemma {:induction false} OnlyUnsupportedFails(c: Candidate, bars: seq<Bar>, sizing: Sizing, n: nat)
    requires AllWellFormed(bars) && n <= |bars| && Run(c, bars, sizing, n).Err?
    ensures c == Unsupported(Run(c, bars, sizing, n).error)
  {
    hide Settle, Open, TrailManaged, StopTake;
    if Run(c, bars, sizing, n - 1).Err? {
      OnlyUnsupportedFails(c, bars, sizing, n - 1);
    }
  }

  // ---------------------------------------------------------------- positions of a run live as described

  /** The open position of a run is its origin after the bars since. */
  lemma {:induction false} OpenPositionLives(c: Candidate, bars: seq<Bar>, sizing: Sizing, n: nat)
    requires AllWellFormed(bars) && n <= |bars| && Run(c, bars, sizing, n).Ok?
    requires Run(c, bars, sizing, n).value.position.Some?
    ensures var h := Run(c, bars, sizing, n).value.position.value;
            Fresh(Origin(h)) && Live(c, Origin(h), bars, n) == Held(h)
  {
    hide Manage, Open, Settle;
    var before := Run(c, bars, sizing, n - 1).value;
    if before.position.Some? {
      OpenPositionLives(c, bars, sizing, n - 1);
      ManageKeepsEntry(c, before.position.value, bars[n - 1], n - 1);
      SettleClosesAlways(before, n - 1);
    } else {
      OpenIsTradable(before.account.equity, bars[n - 1], n - 1, sizing);
    }
  }

  lemma SettleClosesAlways(s: State, at: nat)
    ensures forall h: Holding, exit :: h.entryPrice != 0.0 ==> Settle(s, h, at, exit).position == None
  {
  }

  /** How a logged position left: at the end of the data, or on the bar its life says. */
  ghost predicate LeftAsDescribed(c: Candidate, bars: seq<Bar>, entry: Settled)
    requires Trails(c)
  {
    var origin := Origin(entry.holding);
    && Fresh(origin) && origin.entryIndex <= entry.at < |bars|
    && if entry.exit.reason == EndOfData then
         && entry.at == |bars| - 1
         && NotStopped(c, origin, bars, |bars|)
         && entry.holding == Survivor(c, origin, bars, |bars|)
         && entry.exit.price == Fill(bars[entry.at].close, origin.direction)
       else
         origin.entryIndex < entry.at && LeftAt(c, origin, bars, entry.at, entry.exit)
  }

  ghost predicate AllLeftAsDescribed(c: Candidate, bars: seq<Bar>, log: seq<Settled>)
    requires Trails(c)
  {
    forall k :: 0 <= k < |log| ==> LeftAsDescribed(c, bars, log[k])
  }

  lemma ExitIsDescribed(c: Candidate, bars: seq<Bar>, h: Holding, n: nat)
    requires Trails(c) && h.Tradable() && Fresh(Origin(h)) && h.entryIndex < n < |bars|
    requires Live(c, Origin(h), bars, n) == Held(h)
    ensures var result := Manage(c, h, bars[n], n);
            result.Ok? && (result.value.exit.Some? ==>
                             LeftAsDescribed(c, bars, Settled(result.value.holding, n, result.value.exit.value)))
  {
    hide Live, LeftAt, NotStopped, Survivor, Fresh;
    LifeUnderTrailingStop(c, Origin(h), bars, n);
    NextBar(c, Origin(h), bars, n);
    ManageKeepsEntry(c, h, bars[n], n);
    hide Manage;
    var result := Manage(c, h, bars[n], n);
    if result.value.exit.Some? {
      LeavesByAStop(c, Origin(h), bars, n, result.value.exit.value);
    }
  }

  lemma LeavesByAStop(c: Candidate, h: Holding, bars: seq<Bar>, at: nat, exit: Exit)
    requires Trails(c) && h.entryIndex < at < |bars| && LeftAt(c, h, bars, at, exit)
    ensures exit.reason != EndOfData
  {
    hide NotStopped, HardStopHit, StopHit, TrailStop;
  }

  lemma {:induction false} RunLeavesAsDescribed(c: Candidate, bars: seq<Bar>, sizing: Sizing, n: nat)
    requires Trails(c) && AllWellFormed(bars) && n <= |bars|
    ensures var r := Run(c, bars, sizing, n); r.Ok? && AllLeftAsDescribed(c, bars, r.value.log)
  {
    hide Manage, Open, Settle, LeftAsDescribed, Live;
    if n <= WARM_UP {
    } else {
      RunLeavesAsDescribed(c, bars, sizing, n - 1);
      var s := Run(c, bars, sizing, n - 1).value;
      if s.position.Some? {
        var h := s.position.value;
        OpenPositionLives(c, bars, sizing, n - 1);
        ExitIsDescribed(c, bars, h, n - 1);
        var managed := Manage(c, h, bars[n - 1], n - 1).value;
        if managed.exit.Some? {
          ManageKeepsEntry(c, h, bars[n - 1], n - 1);
          SettleClosesThePosition(s, managed.holding, n - 1, managed.exit.value);
        }
      }
    }
  }

  /** Every trade of a trailing run left exactly when and where the stops over its bars say. */
  lemma TrailingRunIsDescribed(c: Candidate, bars: seq<Bar>, sizing: Sizing)
    requires Trails(c) && AllWellFormed(bars)
    ensures var r := Outcome(c, bars, sizing); r.Ok? && AllLeftAsDescribed(c, bars, r.value.log)
  {
    hide Manage, Open, Settle, Live, NotStopped, Survivor, LeftAt, Fresh;
    RunLeavesAsDescribed(c, bars, sizing, |bars|);
    var s := Run(c, bars, sizing, |bars|).value;
    if s.position.Some? && bars != [] {
      var h, last := s.position.value, |bars| - 1;
      OpenPositionLives(c, bars, sizing, |bars|);
      LifeUnderTrailingStop(c, Origin(h), bars, |bars|);
      SettleClosesThePosition(s, h, last, Exit(Fill(bars[last].close, h.direction), EndOfData));
    }
  }

  // ---------------------------------------------------------------- holding times and stops

  /** The longest a time-limited position may be held: a position is never looked at on the bar that opens it. */
  function Limit(c: Candidate): int
    requires c.TimeLimited?
  {
    if c.maxHolding < 1 then 1 else c.maxHolding
  }

  ghost predicate WithinLimit(c: Candidate, s: State, n: nat)
    requires c.TimeLimited?
  {
    && (forall k :: 0 <= k < |s.log| ==> s.log[k].at - s.log[k].holding.entryIndex <= Limit(c))
    && (s.position.Some? ==> n - 1 - s.position.value.entryIndex < Limit(c))
  }

  lemma {:induction false} RunStaysWithinLimit(c: Candidate, bars: seq<Bar>, sizing: Sizing, n: nat)
    requires c.TimeLimited? && AllWellFormed(bars) && n <= |bars|
    ensures var r := Run(c, bars, sizing, n); r.Ok? && WithinLimit(c, r.value, n)
  {
    hide Open, Settle, StopTake;
    if n <= WARM_UP {
    } else {
      RunStaysWithinLimit(c, bars, sizing, n - 1);
      var s := Run(c, bars, sizing, n - 1).value;
      if s.position.Some? {
        var managed := Manage(c, s.position.value, bars[n - 1], n - 1).value;
        if managed.exit.Some? {
          SettleClosesThePosition(s, managed.holding, n - 1, managed.exit.value);
        }
      } else {
        OpenIsTradable(s.account.equity, bars[n - 1], n - 1, sizing);
      }
    }
  }

  /** A time-limited candidate never holds a position longer than its limit, the end-of-data close included. */
  lemma TimeLimitHolds(c: Candidate, bars: seq<Bar>, sizing: Sizing)
    requires c.TimeLimited? && AllWellFormed(bars)
    ensures var r := Outcome(c, bars, sizing);
            r.Ok? && forall k :: 0 <= k < |r.value.account.holdingMinutes| ==>
              r.value.account.holdingMinutes[k] <= Limit(c)
  {
    hide Manage, Open, Settle;
    RunStaysWithinLimit(c, bars, sizing, |bars|);
    OutcomeBalances(c, bars, sizing);
    var s := Run(c, bars, sizing, |bars|).value;
    if s.position.Some? && bars != [] {
      var h, last := s.position.value, |bars| - 1;
      SettleClosesThePosition(s, h, last, Exit(Fill(bars[last].close, h.direction), EndOfData));
    }
  }
}
