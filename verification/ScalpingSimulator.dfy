/** The fast scalping simulator: one position at a time, fixed stop and take, and what it can lose. */
module ScalpingSimulator {
  import opened Drawdown
  import opened Reals
  import opened Results

  const WARM_UP: nat := 260

  datatype Bar = Bar(high: real, low: real, close: real) {
    predicate WellFormed() {
      0.0 < low <= close <= high
    }
  }

  datatype Config = Config(
    stopLoss: real, rewardRisk: real, minEquityRatio: real, maxEquityRatio: real, minLeverage: real, maxLeverage: real,
    fee: real, slippage: real)

  datatype Position = Position(direction: int, entryPrice: real, notional: real, margin: real)

  /** The running totals, with the equity after each trade as `curve`. */
  datatype Account = Account(
    equity: real, peak: real, maxDrawdown: real, tradeCount: nat, grossWins: nat, netWins: nat,
    grossReturns: seq<real>, grossRoes: seq<real>, netReturns: seq<real>, grossPnl: real, feePaid: real,
    curve: seq<real>)

  const INITIAL_EQUITY := 10000.0

  const OPENING := Account(INITIAL_EQUITY, INITIAL_EQUITY, 0.0, 0, 0, 0, [], [], [], 0.0, 0.0, [INITIAL_EQUITY])

  function Up(price: real, share: real): real {
    price * (1.0 + share)
  }

  function Down(price: real, share: real): real {
    price * (1.0 - share)
  }

  function EntrySlippage(price: real, direction: int, slippage: real): real {
    if direction > 0 then Up(price, slippage) else Down(price, slippage)
  }

  function ExitSlippage(price: real, direction: int, slippage: real): real {
    if direction > 0 then Down(price, slippage) else Up(price, slippage)
  }

  function Scaled(confidence: real, minimum: real, maximum: real): real {
    var c := Min(1.0, Max(0.0, confidence));
    minimum + (maximum - minimum) * c
  }

  /** The array router only ever answers -1, 0 or 1, so a trade is always sized at 0.68. */
  function Confidence(signal: int): real {
    if signal == 1 || signal == -1 then 0.68 else 0.64
  }

  function TakeMove(c: Config): real {
    c.stopLoss * c.rewardRisk
  }

  /** Where a bar closes a position of this side and entry: the stop is tested before the take. */
  function ExitFrom(direction: int, entryPrice: real, bar: Bar, c: Config): Option<real> {
    if direction > 0 then
      var stop, take := Down(entryPrice, c.stopLoss), Up(entryPrice, TakeMove(c));
      if bar.low <= stop then Some(stop) else if bar.high >= take then Some(take) else None
    else
      var stop, take := Up(entryPrice, c.stopLoss), Down(entryPrice, TakeMove(c));
      if bar.high >= stop then Some(stop) else if bar.low <= take then Some(take) else None
  }

  function ExitPrice(p: Position, bar: Bar, c: Config): Option<real> {
    ExitFrom(p.direction, p.entryPrice, bar, c)
  }

  function ReturnFrom(direction: int, entryPrice: real, filled: real): real
    requires entryPrice != 0.0
  {
    (filled - entryPrice) / entryPrice * direction as real
  }

  function GrossReturn(p: Position, filled: real): real
    requires p.entryPrice != 0.0
  {
    ReturnFrom(p.direction, p.entryPrice, filled)
  }

  /** What one closed trade earned and cost. */
  datatype Trade = Trade(grossReturn: real, gross: real, cost: real, roe: real, netReturn: real)

  function Closed(p: Position, filled: real, fee: real): Trade
    requires p.entryPrice != 0.0
  {
    var grossReturn := GrossReturn(p, filled);
    var gross := p.notional * grossReturn;
    var cost := p.notional * fee * 2.0;
    Trade(grossReturn, gross, cost,
          if p.margin > 0.0 then gross / p.margin else 0.0,
          if p.notional > 0.0 then (gross - cost) / p.notional else 0.0)
  }

  /** Booking a trade, with the running peak and drawdown. */
  function Record(a: Account, t: Trade): Account {
    var net := t.gross - t.cost;
    var equity := a.equity + net;
    var peak := Max(a.peak, equity);
    Account(equity, peak, Deeper(a.maxDrawdown, peak, equity), a.tradeCount + 1,
            a.grossWins + (if t.gross > 0.0 then 1 else 0), a.netWins + (if net > 0.0 then 1 else 0),
            a.grossReturns + [t.grossReturn], a.grossRoes + [t.roe], a.netReturns + [t.netReturn],
            a.grossPnl + t.gross, a.feePaid + t.cost, a.curve + [equity])
  }

  /** Closing a position at a filled price: profit and both fees. */
  function Settle(a: Account, p: Position, filled: real, fee: real): Account
    requires p.entryPrice != 0.0
  {
    Record(a, Closed(p, filled, fee))
  }

  /** A position sized by a confidence. */
  function OpenSized(equity: real, signal: int, close: real, confidence: real, c: Config): Position {
    var margin := equity * Scaled(confidence, c.minEquityRatio, c.maxEquityRatio);
    var direction := if signal > 0 then 1 else -1;
    Position(direction, EntrySlippage(close, direction, c.slippage),
             margin * Scaled(confidence, c.minLeverage, c.maxLeverage), margin)
  }

  function Open(equity: real, signal: int, close: real, c: Config): Position {
    OpenSized(equity, signal, close, Confidence(signal), c)
  }

  /** A position as the loop opens them. */
  predicate Tradable(p: Option<Position>) {
    p.Some? ==> p.value.entryPrice > 0.0 && (p.value.direction == 1 || p.value.direction == -1)
  }

  datatype State = State(account: Account, position: Option<Position>)

  /** One bar: an open position is closed or kept, and only a flat account opens one. */
  function Step(s: State, bar: Bar, signal: int, c: Config): State
    requires Tradable(s.position)
  {
    if s.position.Some? then
      var exit := ExitPrice(s.position.value, bar, c);
      if exit.None? then s
      else State(Settle(s.account, s.position.value,
                        ExitSlippage(exit.value, s.position.value.direction, c.slippage), c.fee), None)
    else if signal == 0 then s
    else State(s.account, Some(Open(s.account.equity, signal, bar.close, c)))
  }

  /** What the simulator takes for granted of its market, its signals and its slippage. */
  ghost predicate Runnable(bars: seq<Bar>, signals: seq<int>, c: Config) {
    && |signals| == |bars|
    && (forall i :: 0 <= i < |bars| ==> bars[i].WellFormed())
    && (forall i :: 0 <= i < |signals| ==> -1 <= signals[i] <= 1)
    && 0.0 <= c.slippage < 1.0
  }

  lemma EntryIsPositive(close: real, direction: int, c: Config)
    requires close > 0.0 && 0.0 <= c.slippage < 1.0
    ensures EntrySlippage(close, direction, c.slippage) > 0.0
  {
    ProductOrder(0.0, 1.0 - c.slippage, close);
    ProductOrder(0.0, 1.0 + c.slippage, close);
  }

  /** The loop over bars [WARM_UP, n). */
  function Run(bars: seq<Bar>, signals: seq<int>, c: Config, n: nat): (s: State)
    requires Runnable(bars, signals, c) && n <= |bars|
    ensures Tradable(s.position)
  {
    if n <= WARM_UP then State(OPENING, None)
    else
      EntryIsPositive(bars[n - 1].close, if signals[n - 1] > 0 then 1 else -1, c);
      Step(Run(bars, signals, c, n - 1), bars[n - 1], signals[n - 1], c)
  }

  /** The whole run: a position still open at the end of the data is closed at the last close. */
  function Outcome(bars: seq<Bar>, signals: seq<int>, c: Config): Account
    requires Runnable(bars, signals, c)
  {
    var s := Run(bars, signals, c, |bars|);
    if s.position.None? || bars == [] then s.account
    else
      var p := s.position.value;
      Settle(s.account, p, ExitSlippage(bars[|bars| - 1].close, p.direction, c.slippage), c.fee)
  }

  method Simulate(bars: seq<Bar>, signals: seq<int>, c: Config) returns (account: Account)
    requires Runnable(bars, signals, c)
    ensures account == Outcome(bars, signals, c)
  {
    hide Settle, ExitPrice, Open, ExitSlippage;
    account := OPENING;
    var position: Option<Position> := None;
    for index := 0 to |bars|
      invariant State(account, position) == Run(bars, signals, c, index)
    {
      if index < WARM_UP {
        continue;
      }
      var bar := bars[index];
      if position.Some? {
        var exit := ExitPrice(position.value, bar, c);
        if exit.Some? {
          var filled := ExitSlippage(exit.value, position.value.direction, c.slippage);
          account := Settle(account, position.value, filled, c.fee);
          position := None;
        }
        continue;
      }
      if signals[index] == 0 {
        continue;
      }
      position := Some(Open(account.equity, signals[index], bar.close, c));
    }
    if position.Some? && bars != [] {
      var filled := ExitSlippage(bars[|bars| - 1].close, position.value.direction, c.slippage);
      account := Settle(account, position.value, filled, c.fee);
    }
  }

  // ---------------------------------------------------------------- books that balance

  /** Equity is the initial equity plus gross profit less fees; every list has one entry per trade; the peak and
      drawdown are those of the equity curve. */
  ghost predicate Balanced(a: Account) {
    && a.equity == INITIAL_EQUITY + a.grossPnl - a.feePaid
    && |a.grossReturns| == |a.grossRoes| == |a.netReturns| == a.tradeCount == |a.curve| - 1
    && a.grossWins <= a.tradeCount && a.netWins <= a.tradeCount
    && a.curve[0] == INITIAL_EQUITY && a.curve[|a.curve| - 1] == a.equity
    && a.peak == MaxOf(a.curve) && a.maxDrawdown == Deepest(a.curve)
  }

  lemma OpeningIsBalanced()
    ensures Balanced(OPENING)
  {
    assert Deepest([INITIAL_EQUITY]) == Max(Deepest([]), Fall(INITIAL_EQUITY, INITIAL_EQUITY)) by {
      assert [INITIAL_EQUITY][..0] == [];
    }
  }

  lemma RecordKeepsBalance(a: Account, t: Trade)
    requires Balanced(a)
    ensures Balanced(Record(a, t))
  {
    hide Deepest, Deeper, MaxOf;
    var equity := a.equity + (t.gross - t.cost);
    DeeperFollows(a.curve, equity);
  }

  lemma SettleKeepsBalance(a: Account, p: Position, filled: real, fee: real)
    requires Balanced(a) && p.entryPrice != 0.0
    ensures Balanced(Settle(a, p, filled, fee))
  {
    hide Balanced, Record, Closed;
    RecordKeepsBalance(a, Closed(p, filled, fee));
  }

  lemma {:induction false} RunIsBalanced(bars: seq<Bar>, signals: seq<int>, c: Config, n: nat)
    requires Runnable(bars, signals, c) && n <= |bars|
    ensures Balanced(Run(bars, signals, c, n).account)
  {
    hide Settle, ExitPrice, Open, Balanced;
    if n <= WARM_UP {
      OpeningIsBalanced();
    } else {
      RunIsBalanced(bars, signals, c, n - 1);
      var s := Run(bars, signals, c, n - 1);
      if s.position.Some? && ExitPrice(s.position.value, bars[n - 1], c).Some? {
        var exit := ExitPrice(s.position.value, bars[n - 1], c).value;
        SettleKeepsBalance(s.account, s.position.value, ExitSlippage(exit, s.position.value.direction, c.slippage),
                           c.fee);
      }
    }
  }

  /** Every run balances its books. */
  lemma OutcomeIsBalanced(bars: seq<Bar>, signals: seq<int>, c: Config)
    requires Runnable(bars, signals, c)
    ensures Balanced(Outcome(bars, signals, c))
  {
    hide Settle, Balanced;
    RunIsBalanced(bars, signals, c, |bars|);
    var s := Run(bars, signals, c, |bars|);
    if s.position.Some? && bars != [] {
      SettleKeepsBalance(s.account, s.position.value,
                         ExitSlippage(bars[|bars| - 1].close, s.position.value.direction, c.slippage), c.fee);
    }
  }

  // ---------------------------------------------------------------- what a run can lose

  /** The largest loss per trade, as a share of the equity it was opened with: the stop and both slippages on the
      notional, and both fees. */
  function LossShare(c: Config): real {
    Exposure(c) * (WorstReturn(c) + 2.0 * c.fee)
  }

  function Exposure(c: Config): real {
    Scaled(0.68, c.minEquityRatio, c.maxEquityRatio) * Scaled(0.68, c.minLeverage, c.maxLeverage)
  }

  function WorstReturn(c: Config): real {
    (1.0 + c.stopLoss) * (1.0 + c.slippage) - 1.0
  }

  /** Nonnegative parameters, less than all equity at stake per trade, and an entry that lies inside its own stop. */
  predicate Bounded(c: Config) {
    && 0.0 <= c.slippage < 1.0 && c.stopLoss >= 0.0 && c.rewardRisk >= 0.0 && c.fee >= 0.0
    && Exposure(c) >= 0.0 && LossShare(c) < 1.0
    && (1.0 - c.slippage) * (1.0 + c.stopLoss) >= 1.0
  }

  /** The price is no worse than the stop. */
  predicate InsideStop(p: Position, price: real, c: Config) {
    if p.direction > 0 then price >= Down(p.entryPrice, c.stopLoss) else price <= Up(p.entryPrice, c.stopLoss)
  }

  /** However a trade is closed, the price before slippage is inside the stop. */
  lemma ExitIsInsideStop(p: Position, bar: Bar, c: Config)
    requires c.stopLoss >= 0.0 && c.rewardRisk >= 0.0 && p.entryPrice > 0.0 && bar.WellFormed()
    ensures match ExitPrice(p, bar, c)
            case Some(price) => InsideStop(p, price, c)
            case None => InsideStop(p, bar.close, c)
  {
    assert TakeMove(c) >= 0.0;
    TakeIsBeyondStop(p.entryPrice, c.stopLoss, TakeMove(c));
    hide Up, Down, TakeMove;
  }

  lemma TakeIsBeyondStop(entry: real, stop: real, take: real)
    requires entry > 0.0 && stop >= 0.0 && take >= 0.0
    ensures Down(entry, stop) <= Up(entry, take)
    ensures Down(entry, take) <= Up(entry, stop)
  {
    ProductMonotone(1.0 - stop, 1.0 + take, entry);
    ProductMonotone(1.0 - take, 1.0 + stop, entry);
  }

  /** An entry, slipped, lies inside its own stop. */
  lemma EntryIsInsideStop(equity: real, signal: int, close: real, c: Config)
    requires Bounded(c) && close > 0.0
    ensures InsideStop(Open(equity, signal, close, c), close, c)
  {
    hide Scaled, Exposure, LossShare;
    var s, f := c.stopLoss, c.slippage;
    assert (1.0 - f) * (1.0 + s) == 1.0 - f + s - f * s;
    assert (1.0 + f) * (1.0 - s) == 1.0 + f - s - f * s;
    assert f * s >= 0.0;
    if signal > 0 {
      ProductMonotone((1.0 + f) * (1.0 - s), 1.0, close);
      assert close * (1.0 + f) * (1.0 - s) == (1.0 + f) * (1.0 - s) * close;
    } else {
      ProductMonotone(1.0, (1.0 - f) * (1.0 + s), close);
      assert close * (1.0 - f) * (1.0 + s) == (1.0 - f) * (1.0 + s) * close;
    }
  }

  /** A long sold from inside its stop, after slippage, is worth at least 1 - w of its entry price e ... */
  lemma LongFill(e: real, s: real, f: real, price: real, w: real)
    requires e > 0.0 && s >= 0.0 && 0.0 <= f < 1.0 && price >= e * (1.0 - s) && w == (1.0 + s) * (1.0 + f) - 1.0
    ensures price * (1.0 - f) >= (1.0 - w) * e
  {
    ProductMonotone(e * (1.0 - s), price, 1.0 - f);
    assert e * (1.0 - s) * (1.0 - f) == ((1.0 - s) * (1.0 - f)) * e;
    assert f * s >= 0.0;
    assert (1.0 - s) * (1.0 - f) == 1.0 - w + 2.0 * (f * s);
    ProductMonotone(1.0 - w, (1.0 - s) * (1.0 - f), e);
  }

  /** ... and a short is bought back for at most 1 + w. */
  lemma ShortFill(e: real, s: real, f: real, price: real, w: real)
    requires e > 0.0 && 0.0 <= f < 1.0 && price <= e * (1.0 + s) && w == (1.0 + s) * (1.0 + f) - 1.0
    ensures price * (1.0 + f) <= (1.0 + w) * e
  {
    ProductMonotone(price, e * (1.0 + s), 1.0 + f);
    assert e * (1.0 + s) * (1.0 + f) == ((1.0 + s) * (1.0 + f)) * e;
  }

  /** A fill from inside the stop loses at most WorstReturn. */
  lemma FillLosesAtMost(p: Position, price: real, c: Config)
    requires 0.0 <= c.slippage < 1.0 && c.stopLoss >= 0.0 && p.entryPrice > 0.0
    requires p.direction == 1 || p.direction == -1
    requires InsideStop(p, price, c)
    ensures GrossReturn(p, ExitSlippage(price, p.direction, c.slippage)) >= -WorstReturn(c)
  {
    var e, w := p.entryPrice, WorstReturn(c);
    var filled := ExitSlippage(price, p.direction, c.slippage);
    if p.direction > 0 {
      LongFill(e, c.stopLoss, c.slippage, price, w);
      ReturnAtLeast(filled - e, e, 1, w);
    } else {
      ShortFill(e, c.stopLoss, c.slippage, price, w);
      ReturnAtLeast(filled - e, e, -1, w);
    }
  }

  lemma ReturnAtLeast(move: real, e: real, direction: int, w: real)
    requires e > 0.0 && (direction == 1 || direction == -1)
    requires if direction == 1 then move >= -w * e else move <= w * e
    ensures move / e * direction as real >= -w
  {
    var q := move / e;
    assert q * e == move;
    if direction == 1 {
      QuotientCompare(move, e, -w);
    } else {
      QuotientCompare(move, e, w);
    }
  }

  /** One trade keeps at least the share 1 - LossShare of equity. */
  lemma TradeKeepsShare(a: Account, p: Position, price: real, c: Config)
    requires Bounded(c) && a.equity >= 0.0 && p.entryPrice > 0.0 && (p.direction == 1 || p.direction == -1)
    requires p.notional == a.equity * Exposure(c) && InsideStop(p, price, c)
    ensures Settle(a, p, ExitSlippage(price, p.direction, c.slippage), c.fee).equity >= a.equity * (1.0 - LossShare(c))
  {
    hide Scaled, Exposure, InsideStop, ExitSlippage, GrossReturn, WorstReturn, Deeper;
    FillLosesAtMost(p, price, c);
    var filled := ExitSlippage(price, p.direction, c.slippage);
    var r, n, w := GrossReturn(p, filled), p.notional, WorstReturn(c);
    assert n >= 0.0;
    assert n * r >= n * -w;
    assert n * (w + 2.0 * c.fee) == a.equity * LossShare(c);
    assert n * -w - n * c.fee * 2.0 == -(n * (w + 2.0 * c.fee));
    assert a.equity * (1.0 - LossShare(c)) == a.equity - a.equity * LossShare(c);
  }

  ghost predicate AllPositive(curve: seq<real>) {
    forall i :: 0 <= i < |curve| ==> curve[i] > 0.0
  }

  /** The share is exact: a short stopped out loses all of it. */
  lemma StoppedShortLosesTheShare(a: Account, p: Position, c: Config)
    requires p.entryPrice > 0.0 && p.direction == -1 && p.notional == a.equity * Exposure(c)
    ensures var stop := p.entryPrice * (1.0 + c.stopLoss);
            Settle(a, p, ExitSlippage(stop, p.direction, c.slippage), c.fee).equity == a.equity * (1.0 - LossShare(c))
  {
    hide Scaled, Exposure, Deeper;
    var stop := p.entryPrice * (1.0 + c.stopLoss);
    var filled := ExitSlippage(stop, p.direction, c.slippage);
    var e, w, n := p.entryPrice, WorstReturn(c), p.notional;
    assert filled - e == w * e;
    assert (filled - e) / e == w;
    assert GrossReturn(p, filled) == -w;
    assert n * (w + 2.0 * c.fee) == a.equity * LossShare(c);
    assert n * -w - n * c.fee * 2.0 == -(n * (w + 2.0 * c.fee));
    assert a.equity * (1.0 - LossShare(c)) == a.equity - a.equity * LossShare(c);
  }

  /** Between bars: equity is above the geometric bound, and an open position is sized by it and inside its stop. */
  ghost predicate Sound(s: State, last: real, c: Config) {
    && s.account.equity >= INITIAL_EQUITY * Power(1.0 - LossShare(c), s.account.tradeCount)
    && s.account.equity > 0.0 && AllPositive(s.account.curve)
    && (s.position.Some? ==>
          var p := s.position.value;
          p.entryPrice > 0.0 && (p.direction == 1 || p.direction == -1)
          && p.notional == s.account.equity * Exposure(c) && InsideStop(p, last, c))
  }

  lemma BoundStep(before: real, after: real, k: real, n: nat)
    requires k > 0.0 && before > 0.0 && before >= INITIAL_EQUITY * Power(k, n) && after >= before * k
    ensures after >= INITIAL_EQUITY * Power(k, n + 1) && after > 0.0
  {
    ProductMonotone(INITIAL_EQUITY * Power(k, n), before, k);
    assert INITIAL_EQUITY * Power(k, n) * k == INITIAL_EQUITY * (k * Power(k, n));
    ProductOrder(0.0, before, k);
  }

  lemma CloseKeepsSound(s: State, price: real, c: Config)
    requires Bounded(c) && Sound(s, price, c) && s.position.Some?
    ensures var p := s.position.value;
            Sound(State(Settle(s.account, p, ExitSlippage(price, p.direction, c.slippage), c.fee), None), price, c)
  {
    hide InsideStop, ExitSlippage, LossShare, Exposure, Settle, Bounded;
    var a, p, k := s.account, s.position.value, 1.0 - LossShare(c);
    TradeKeepsShare(a, p, price, c);
    KeptShareIsPositive(c);
    BoundStep(a.equity, Settle(a, p, ExitSlippage(price, p.direction, c.slippage), c.fee).equity, k, a.tradeCount);
    SettleAppends(a, p, ExitSlippage(price, p.direction, c.slippage), c.fee);
  }

  lemma KeptShareIsPositive(c: Config)
    requires Bounded(c)
    ensures 1.0 - LossShare(c) > 0.0
  {
  }

  lemma SettleAppends(a: Account, p: Position, filled: real, fee: real)
    requires p.entryPrice != 0.0
    ensures var b := Settle(a, p, filled, fee);
            b.tradeCount == a.tradeCount + 1 && b.curve == a.curve + [b.equity]
  {
  }

  lemma OpenIsSound(account: Account, signal: int, close: real, c: Config, last: real)
    requires Bounded(c) && close > 0.0 && signal != 0 && -1 <= signal <= 1
    requires Sound(State(account, None), last, c)
    ensures Sound(State(account, Some(Open(account.equity, signal, close, c))), close, c)
  {
    hide InsideStop, Scaled, LossShare;
    EntryIsInsideStop(account.equity, signal, close, c);
    EntryIsPositive(close, if signal > 0 then 1 else -1, c);
    var p := Open(account.equity, signal, close, c);
    var ratio, leverage := Scaled(0.68, c.minEquityRatio, c.maxEquityRatio), Scaled(0.68, c.minLeverage, c.maxLeverage);
    assert p.notional == account.equity * ratio * leverage == account.equity * (ratio * leverage);
  }

  lemma {:induction false} RunIsSound(bars: seq<Bar>, signals: seq<int>, c: Config, n: nat)
    requires Runnable(bars, signals, c) && Bounded(c) && WARM_UP <= n <= |bars|
    ensures n == WARM_UP ==> Run(bars, signals, c, n) == State(OPENING, None)
    ensures Sound(Run(bars, signals, c, n), if n == 0 then 0.0 else bars[n - 1].close, c)
  {
    hide Settle, ExitPrice, Open, Bounded, LossShare, Exposure, InsideStop;
    if n <= WARM_UP {
    } else {
      RunIsSound(bars, signals, c, n - 1);
      var s, bar, signal := Run(bars, signals, c, n - 1), bars[n - 1], signals[n - 1];
      assert bar.WellFormed();
      if s.position.Some? {
        var p := s.position.value;
        BoundedNonNegative(c);
        ExitIsInsideStop(p, bar, c);
        if ExitPrice(p, bar, c).Some? {
          CloseKeepsSound(s, ExitPrice(p, bar, c).value, c);
        }
      } else if signal != 0 {
        OpenIsSound(s.account, signal, bar.close, c, bars[n - 2].close);
      }
    }
  }

  lemma BoundedNonNegative(c: Config)
    requires Bounded(c)
    ensures c.stopLoss >= 0.0 && c.rewardRisk >= 0.0
  {
  }

  /** After the trades of any run, equity is at least the initial equity times (1 - LossShare) per trade, so it stays
      positive and the drawdown stays below one. This covers a position closed at the end of the data, even one opened
      on the last bar. */
  lemma EquityBound(bars: seq<Bar>, signals: seq<int>, c: Config)
    requires Runnable(bars, signals, c) && Bounded(c)
    ensures var a := Outcome(bars, signals, c);
            && a.equity >= INITIAL_EQUITY * Power(1.0 - LossShare(c), a.tradeCount)
            && a.equity > 0.0 && 0.0 <= a.maxDrawdown < 1.0
  {
    hide Settle, Bounded, LossShare;
    OutcomeIsBalanced(bars, signals, c);
    PositiveCurveKeepsDrawdownBelowOne([INITIAL_EQUITY]);
    if |bars| >= WARM_UP {
      RunIsSound(bars, signals, c, |bars|);
      var s := Run(bars, signals, c, |bars|);
      if s.position.Some? {
        CloseKeepsSound(s, bars[|bars| - 1].close, c);
      }
    }
    assert AllPositive(Outcome(bars, signals, c).curve);
    PositiveCurveKeepsDrawdownBelowOne(Outcome(bars, signals, c).curve);
  }
}
