/** What the fast simulator trades, bar by bar and in signed prices: which side, when in, when out and at what price. */
module SimulatorTrades {
  import Drawdown
  import opened Reals
  import opened Results
  import opened ScalpingSimulator

  /** A trade: the bar of its signal, the bar that closed it and the price that did. A trade closed only by the end of
      the data is closed at |bars|. */
  datatype Deal = Deal(entered: nat, exited: nat, price: real)

  /** A price moved by a share of itself, towards the side or, for a negative share, against it. */
  function Moved(price: real, side: int, share: real): real {
    price * (1.0 + side as real * share)
  }

  /** The side of a deal is the sign of its signal, and slippage makes the entry dearer for that side. */
  function EntryOf(bars: seq<Bar>, signals: seq<int>, c: Config, entered: nat): real
    requires entered < |bars| == |signals|
  {
    Moved(bars[entered].close, signals[entered], c.slippage)
  }

  predicate StopTouched(bar: Bar, side: int, entry: real, c: Config) {
    if side > 0 then bar.low <= Moved(entry, side, -c.stopLoss) else bar.high >= Moved(entry, side, -c.stopLoss)
  }

  /** The take, as a share of the entry. */
  function TakeShare(c: Config): real {
    c.stopLoss * c.rewardRisk
  }

  predicate TakeTouched(bar: Bar, side: int, entry: real, c: Config) {
    var take := Moved(entry, side, TakeShare(c));
    if side > 0 then bar.high >= take else bar.low <= take
  }

  predicate Touched(bar: Bar, side: int, entry: real, c: Config) {
    StopTouched(bar, side, entry, c) || TakeTouched(bar, side, entry, c)
  }

  /** Flat from bar `first` on, the first nonzero signal opens on its bar, and nothing is touched before `until`. */
  ghost predicate OpenSince(bars: seq<Bar>, signals: seq<int>, c: Config, first: nat, entered: nat, until: nat)
    requires |signals| == |bars|
  {
    && first <= entered < until <= |bars|
    && (forall k :: first <= k < entered ==> signals[k] == 0) && signals[entered] != 0
    && forall k :: entered < k < until ==> !Touched(bars[k], signals[entered], EntryOf(bars, signals, c, entered), c)
  }

  /** ... and the first bar to touch stop or take closes it, at the stop if that was touched, otherwise at the take; or
      the data end first, and it closes at the last close. */
  ghost predicate IsDeal(bars: seq<Bar>, signals: seq<int>, c: Config, first: nat, deal: Deal)
    requires |signals| == |bars|
  {
    && OpenSince(bars, signals, c, first, deal.entered, deal.exited)
    && var side, entry := signals[deal.entered], EntryOf(bars, signals, c, deal.entered);
       if deal.exited == |bars| then deal.price == bars[|bars| - 1].close
       else
         && Touched(bars[deal.exited], side, entry, c)
         && deal.price == if StopTouched(bars[deal.exited], side, entry, c) then Moved(entry, side, -c.stopLoss)
                          else Moved(entry, side, TakeShare(c))
  }

  /** Every trade is sized at confidence 0.68. */
  function MarginOf(equity: real, c: Config): real {
    equity * (c.minEquityRatio + 0.68 * (c.maxEquityRatio - c.minEquityRatio))
  }

  function NotionalOf(equity: real, c: Config): real {
    MarginOf(equity, c) * (c.minLeverage + 0.68 * (c.maxLeverage - c.minLeverage))
  }

  function SignedMove(side: int, entry: real, filled: real): real
    requires entry != 0.0
  {
    side as real * ((filled - entry) / entry)
  }

  /** The signed relative move from the entry to the exit, both slipped against the side. */
  function MoveOf(bars: seq<Bar>, signals: seq<int>, c: Config, deal: Deal): real
    requires deal.entered < |bars| == |signals| && EntryOf(bars, signals, c, deal.entered) != 0.0
  {
    var side, entry := signals[deal.entered], EntryOf(bars, signals, c, deal.entered);
    SignedMove(side, entry, Moved(deal.price, side, -c.slippage))
  }

  /** The books of the i-th trade: returns, and the equity after it. */
  ghost predicate Booked(a: Account, i: nat, move: real, c: Config)
    requires i < |a.grossReturns| == |a.grossRoes| == |a.netReturns| == |a.curve| - 1
  {
    var margin, notional := MarginOf(a.curve[i], c), NotionalOf(a.curve[i], c);
    && a.grossReturns[i] == move
    && (margin > 0.0 ==> a.grossRoes[i] * margin == notional * move)
    && (margin <= 0.0 ==> a.grossRoes[i] == 0.0)
    && a.netReturns[i] == (if notional > 0.0 then move - 2.0 * c.fee else 0.0)
    && a.curve[i + 1] == a.curve[i] + notional * (move - 2.0 * c.fee)
  }

  function FeesOver(curve: seq<real>, n: nat, c: Config): real
    requires n <= |curve|
  {
    if n == 0 then 0.0 else FeesOver(curve, n - 1, c) + 2.0 * c.fee * NotionalOf(curve[n - 1], c)
  }

  function WinsOver(curve: seq<real>, moves: seq<real>, n: nat, c: Config): nat
    requires n <= |curve| && n <= |moves|
  {
    if n == 0 then 0
    else WinsOver(curve, moves, n - 1, c) + if NotionalOf(curve[n - 1], c) * moves[n - 1] > 0.0 then 1 else 0
  }

  function RisesOver(curve: seq<real>, n: nat): nat
    requires n < |curve|
  {
    if n == 0 then 0 else RisesOver(curve, n - 1) + if curve[n] > curve[n - 1] then 1 else 0
  }

  /** The bar from which the deal after the first k may open. */
  function FreeFrom(deals: seq<Deal>, k: nat): nat
    requires k <= |deals|
  {
    if k == 0 then 260 else deals[k - 1].exited + 1
  }

  /** The i-th entry of the books is the i-th deal, which opened while flat after the one before. */
  ghost predicate DealBooked(bars: seq<Bar>, signals: seq<int>, c: Config, deals: seq<Deal>, a: Account, i: nat)
    requires Runnable(bars, signals, c) && i < |deals|
    requires i < |a.grossReturns| == |a.grossRoes| == |a.netReturns| == |a.curve| - 1
  {
    && IsDeal(bars, signals, c, FreeFrom(deals, i), deals[i])
    && EntryOf(bars, signals, c, deals[i].entered) > 0.0
    && Booked(a, i, MoveOf(bars, signals, c, deals[i]), c)
  }

  /** An account that books exactly these deals, one after the other. */
  ghost predicate Books(bars: seq<Bar>, signals: seq<int>, c: Config, deals: seq<Deal>, a: Account)
    requires Runnable(bars, signals, c)
  {
    && |deals| == a.tradeCount == |a.grossReturns| == |a.grossRoes| == |a.netReturns| == |a.curve| - 1
    && a.curve[0] == 10000.0 && a.curve[a.tradeCount] == a.equity
    && (forall i :: 0 <= i < |deals| ==> DealBooked(bars, signals, c, deals, a, i))
    && a.feePaid == FeesOver(a.curve, a.tradeCount, c)
    && a.grossWins == WinsOver(a.curve, a.grossReturns, a.tradeCount, c)
    && a.netWins == RisesOver(a.curve, a.tradeCount)
  }

  /** The loop after the bars before n: the deals closed so far, and flat since, or open since a signal. */
  ghost predicate Between(
      bars: seq<Bar>, signals: seq<int>, c: Config, deals: seq<Deal>, s: State, entered: nat, n: nat)
    requires Runnable(bars, signals, c) && n <= |bars|
  {
    && Books(bars, signals, c, deals, s.account)
    && (deals != [] ==> deals[|deals| - 1].exited < n)
    && match s.position
       case None => forall k :: FreeFrom(deals, |deals|) <= k < n ==> signals[k] == 0
       case Some(p) =>
         && OpenSince(bars, signals, c, FreeFrom(deals, |deals|), entered, n)
         && p == Position(signals[entered], EntryOf(bars, signals, c, entered),
                          NotionalOf(s.account.equity, c), MarginOf(s.account.equity, c))
  }

  lemma MovedIs(price: real, side: int, share: real)
    requires side == 1 || side == -1
    ensures Moved(price, side, share) == if side > 0 then Up(price, share) else Down(price, share)
    ensures Moved(price, side, -share) == if side > 0 then Down(price, share) else Up(price, share)
  {
    assert 1.0 + side as real * share == if side > 0 then 1.0 + share else 1.0 - share;
    assert 1.0 + side as real * -share == if side > 0 then 1.0 - share else 1.0 + share;
  }

  lemma SlippageIsMoved(price: real, side: int, c: Config)
    requires side == 1 || side == -1
    ensures EntrySlippage(price, side, c.slippage) == Moved(price, side, c.slippage)
    ensures ExitSlippage(price, side, c.slippage) == Moved(price, side, -c.slippage)
  {
    MovedIs(price, side, c.slippage);
    hide Moved, Up, Down;
  }

  lemma OpensOnItsSide(equity: real, signal: int, close: real, c: Config)
    requires signal == 1 || signal == -1
    ensures Open(equity, signal, close, c) ==
            Position(signal, Moved(close, signal, c.slippage), NotionalOf(equity, c), MarginOf(equity, c))
  {
    SlippageIsMoved(close, signal, c);
    ScaledAt(c.minEquityRatio, c.maxEquityRatio);
    ScaledAt(c.minLeverage, c.maxLeverage);
    hide Scaled, EntrySlippage, Moved;
  }

  lemma ScaledAt(minimum: real, maximum: real)
    ensures Scaled(0.68, minimum, maximum) == minimum + 0.68 * (maximum - minimum)
  {
  }

  lemma ExitIsTouched(side: int, entry: real, bar: Bar, c: Config)
    requires side == 1 || side == -1
    ensures ExitFrom(side, entry, bar, c) ==
            if StopTouched(bar, side, entry, c) then Some(Moved(entry, side, -c.stopLoss))
            else if TakeTouched(bar, side, entry, c) then Some(Moved(entry, side, TakeShare(c)))
            else None
  {
    assert TakeShare(c) == TakeMove(c);
    MovedIs(entry, side, c.stopLoss);
    MovedIs(entry, side, TakeShare(c));
    hide Moved, TakeShare, TakeMove, Up, Down;
  }

  /** What closing a position adds to the books. */
  lemma SettleBooks(a: Account, p: Position, filled: real, c: Config)
    requires p.entryPrice > 0.0
    requires p.notional == NotionalOf(a.equity, c) && p.margin == MarginOf(a.equity, c)
    requires |a.grossReturns| == |a.grossRoes| == |a.netReturns| == |a.curve| - 1 == a.tradeCount
    requires a.curve[a.tradeCount] == a.equity
    ensures var after := Settle(a, p, filled, c.fee);
            var move := SignedMove(p.direction, p.entryPrice, filled);
            && after.tradeCount == a.tradeCount + 1
            && after.curve == a.curve + [after.equity]
            && after.grossReturns == a.grossReturns + [move]
            && |after.grossRoes| == |after.netReturns| == after.tradeCount
            && after.grossRoes[..a.tradeCount] == a.grossRoes && after.netReturns[..a.tradeCount] == a.netReturns
            && Booked(after, a.tradeCount, move, c)
            && after.feePaid == a.feePaid + 2.0 * c.fee * NotionalOf(a.equity, c)
            && after.grossWins == a.grossWins + (if NotionalOf(a.equity, c) * move > 0.0 then 1 else 0)
            && after.netWins == a.netWins + if after.equity > a.equity then 1 else 0
  {
    var move := SignedMove(p.direction, p.entryPrice, filled);
    ClosedIs(p, filled, c, move);
    RecordBooks(a, Closed(p, filled, c.fee), move, c);
    hide MarginOf, NotionalOf, Record, Closed, SignedMove;
  }

  lemma RecordBooks(a: Account, t: Trade, move: real, c: Config)
    requires |a.grossReturns| == |a.grossRoes| == |a.netReturns| == |a.curve| - 1 == a.tradeCount
    requires a.curve[a.tradeCount] == a.equity
    requires var margin, notional := MarginOf(a.equity, c), NotionalOf(a.equity, c);
             && t.grossReturn == move && t.gross == notional * move && t.cost == 2.0 * c.fee * notional
             && t.gross - t.cost == notional * (move - 2.0 * c.fee)
             && (margin > 0.0 ==> t.roe * margin == notional * move) && (margin <= 0.0 ==> t.roe == 0.0)
             && t.netReturn == if notional > 0.0 then move - 2.0 * c.fee else 0.0
    ensures var after := Record(a, t);
            && after.tradeCount == a.tradeCount + 1
            && after.curve == a.curve + [after.equity]
            && after.grossReturns == a.grossReturns + [move]
            && |after.grossRoes| == |after.netReturns| == after.tradeCount
            && after.grossRoes[..a.tradeCount] == a.grossRoes && after.netReturns[..a.tradeCount] == a.netReturns
            && Booked(after, a.tradeCount, move, c)
            && after.feePaid == a.feePaid + 2.0 * c.fee * NotionalOf(a.equity, c)
            && after.grossWins == a.grossWins + (if NotionalOf(a.equity, c) * move > 0.0 then 1 else 0)
            && after.netWins == a.netWins + if after.equity > a.equity then 1 else 0
  {
    hide MarginOf, NotionalOf, Drawdown.Deeper;
  }

  lemma ClosedIs(p: Position, filled: real, c: Config, move: real)
    requires p.entryPrice > 0.0 && move == SignedMove(p.direction, p.entryPrice, filled)
    ensures var t := Closed(p, filled, c.fee);
            && t.grossReturn == move && t.gross == p.notional * move && t.cost == 2.0 * c.fee * p.notional
            && t.gross - t.cost == p.notional * (move - 2.0 * c.fee)
            && (p.margin > 0.0 ==> t.roe * p.margin == p.notional * move) && (p.margin <= 0.0 ==> t.roe == 0.0)
            && t.netReturn == if p.notional > 0.0 then move - 2.0 * c.fee else 0.0
  {
    var n := p.notional;
    assert ReturnFrom(p.direction, p.entryPrice, filled) == move;
    hide ReturnFrom;
    NetOf(n, move, c.fee);
    assert n * c.fee * 2.0 == 2.0 * c.fee * n;
    if p.margin > 0.0 {
      DivideBack(n * move, p.margin);
    }
  }

  lemma NetOf(notional: real, move: real, fee: real)
    ensures notional * move - notional * fee * 2.0 == notional * (move - 2.0 * fee)
    ensures notional != 0.0 ==> (notional * move - notional * fee * 2.0) / notional == move - 2.0 * fee
  {
    var net := move - 2.0 * fee;
    assert notional * move - notional * fee * 2.0 == notional * net;
    if notional != 0.0 {
      assert notional * net / notional == net;
    }
  }

  lemma DivideBack(x: real, y: real)
    requires y != 0.0
    ensures x / y * y == x
  {
  }

  /** The totals over earlier trades do not see later ones. */
  lemma {:induction false} TotalsKeep(curve: seq<real>, moves: seq<real>, n: nat, equity: real, move: real, c: Config)
    requires n == |moves| == |curve| - 1
    ensures FeesOver(curve + [equity], n + 1, c) == FeesOver(curve, n, c) + 2.0 * c.fee * NotionalOf(curve[n], c)
    ensures WinsOver(curve + [equity], moves + [move], n + 1, c) ==
            WinsOver(curve, moves, n, c) + if NotionalOf(curve[n], c) * move > 0.0 then 1 else 0
    ensures RisesOver(curve + [equity], n + 1) == RisesOver(curve, n) + if equity > curve[n] then 1 else 0
  {
    hide NotionalOf;
    PrefixTotals(curve, curve + [equity], moves, moves + [move], n, c);
  }

  lemma {:induction false} PrefixTotals(
      curve: seq<real>, longer: seq<real>, moves: seq<real>, more: seq<real>, n: nat, c: Config)
    requires curve <= longer && moves <= more && n <= |moves| && n < |curve|
    ensures FeesOver(curve, n, c) == FeesOver(longer, n, c)
    ensures WinsOver(curve, moves, n, c) == WinsOver(longer, more, n, c)
    ensures RisesOver(curve, n) == RisesOver(longer, n)
  {
    hide NotionalOf;
    if n > 0 {
      PrefixTotals(curve, longer, moves, more, n - 1, c);
    }
  }

  /** Settling the open position books one more deal. */
  lemma OneMoreDeal(
      bars: seq<Bar>, signals: seq<int>, c: Config, deals: seq<Deal>, a: Account, p: Position, deal: Deal)
    requires Runnable(bars, signals, c) && Books(bars, signals, c, deals, a)
    requires deal.entered < |bars| && IsDeal(bars, signals, c, FreeFrom(deals, |deals|), deal)
    requires p.entryPrice == EntryOf(bars, signals, c, deal.entered) > 0.0 && p.direction == signals[deal.entered]
    requires p.notional == NotionalOf(a.equity, c) && p.margin == MarginOf(a.equity, c)
    ensures Books(bars, signals, c, deals + [deal],
                  Settle(a, p, Moved(deal.price, p.direction, -c.slippage), c.fee))
  {
    hide IsDeal, Moved, MarginOf, NotionalOf, EntryOf, SignedMove, Booked, DealBooked;
    var filled := Moved(deal.price, p.direction, -c.slippage);
    var all, after := deals + [deal], Settle(a, p, filled, c.fee);
    assert EntryOf(bars, signals, c, deal.entered) != 0.0;
    var move := MoveOf(bars, signals, c, deal);
    SettleBooks(a, p, filled, c);
    hide Settle;
    TotalsKeep(a.curve, a.grossReturns, a.tradeCount, after.equity, move, c);
    hide WinsOver, FeesOver, RisesOver;
    LastIsBooked(bars, signals, c, deals, after, deal);
    DealsStay(bars, signals, c, deals, deal, a, after);
    hide Runnable, MoveOf;
  }

  lemma DealsStay(
      bars: seq<Bar>, signals: seq<int>, c: Config, deals: seq<Deal>, deal: Deal, a: Account, after: Account)
    requires Runnable(bars, signals, c)
    requires |deals| == |a.grossReturns| == |a.grossRoes| == |a.netReturns| == |a.curve| - 1
    requires |deals| + 1 == |after.grossReturns| == |after.grossRoes| == |after.netReturns| == |after.curve| - 1
    requires a.grossReturns <= after.grossReturns && a.grossRoes <= after.grossRoes
    requires a.netReturns <= after.netReturns && a.curve <= after.curve
    requires forall i :: 0 <= i < |deals| ==> DealBooked(bars, signals, c, deals, a, i)
    ensures forall i :: 0 <= i < |deals| ==> DealBooked(bars, signals, c, deals + [deal], after, i)
  {
    hide DealBooked, Runnable;
    forall i | 0 <= i < |deals|
      ensures DealBooked(bars, signals, c, deals + [deal], after, i)
    {
      DealStays(bars, signals, c, deals, deal, a, after, i);
    }
  }

  lemma LastIsBooked(bars: seq<Bar>, signals: seq<int>, c: Config, deals: seq<Deal>, after: Account, deal: Deal)
    requires Runnable(bars, signals, c) && deal.entered < |bars|
    requires |deals| + 1 == |after.grossReturns| == |after.grossRoes| == |after.netReturns| == |after.curve| - 1
    requires IsDeal(bars, signals, c, FreeFrom(deals, |deals|), deal) && EntryOf(bars, signals, c, deal.entered) > 0.0
    requires Booked(after, |deals|, MoveOf(bars, signals, c, deal), c)
    ensures DealBooked(bars, signals, c, deals + [deal], after, |deals|)
  {
    hide IsDeal, Booked, EntryOf, MoveOf;
    assert (deals + [deal])[|deals|] == deal;
    assert FreeFrom(deals + [deal], |deals|) == FreeFrom(deals, |deals|);
  }

  lemma DealStays(
      bars: seq<Bar>, signals: seq<int>, c: Config, deals: seq<Deal>, deal: Deal, a: Account, after: Account, i: nat)
    requires Runnable(bars, signals, c) && i < |deals|
    requires |deals| == |a.grossReturns| == |a.grossRoes| == |a.netReturns| == |a.curve| - 1
    requires |deals| + 1 == |after.grossReturns| == |after.grossRoes| == |after.netReturns| == |after.curve| - 1
    requires a.grossReturns <= after.grossReturns && a.grossRoes <= after.grossRoes
    requires a.netReturns <= after.netReturns && a.curve <= after.curve
    requires DealBooked(bars, signals, c, deals, a, i)
    ensures DealBooked(bars, signals, c, deals + [deal], after, i)
  {
    assert deals[i].entered < |bars|;
    hide IsDeal, Booked, EntryOf, MoveOf;
    assert (deals + [deal])[i] == deals[i] && FreeFrom(deals + [deal], i) == FreeFrom(deals, i);
    BookedKeeps(a, after, i, MoveOf(bars, signals, c, deals[i]), c);
  }

  lemma BookedKeeps(a: Account, after: Account, i: nat, move: real, c: Config)
    requires i < |a.grossReturns| == |a.grossRoes| == |a.netReturns| == |a.curve| - 1
    requires |after.grossReturns| == |after.grossRoes| == |after.netReturns| == |after.curve| - 1
    requires a.grossReturns <= after.grossReturns && a.grossRoes <= after.grossRoes
    requires a.netReturns <= after.netReturns && a.curve <= after.curve
    requires Booked(a, i, move, c)
    ensures Booked(after, i, move, c)
  {
  }

  /** One bar of the loop. */
  lemma OneBar(bars: seq<Bar>, signals: seq<int>, c: Config, deals: seq<Deal>, s: State, entered: nat, n: nat)
    returns (deals': seq<Deal>, entered': nat)
    requires Runnable(bars, signals, c) && WARM_UP <= n < |bars| && Tradable(s.position)
    requires Between(bars, signals, c, deals, s, entered, n)
    ensures Between(bars, signals, c, deals', Step(s, bars[n], signals[n], c), entered', n + 1)
  {
    hide Books, Moved, MarginOf, NotionalOf, StopTouched, TakeTouched, TakeShare,
       Open, Settle, ExitFrom, EntrySlippage, ExitSlippage;
    deals', entered' := deals, entered;
    if s.position.Some? {
      var p := s.position.value;
      ExitIsTouched(p.direction, p.entryPrice, bars[n], c);
      if Touched(bars[n], p.direction, p.entryPrice, c) {
        var price := ExitFrom(p.direction, p.entryPrice, bars[n], c).value;
        var deal := Deal(entered, n, price);
        SlippageIsMoved(price, p.direction, c);
        OneMoreDeal(bars, signals, c, deals, s.account, p, deal);
        deals' := deals + [deal];
      }
    } else if signals[n] != 0 {
      assert signals[n] == 1 || signals[n] == -1;
      OpensOnItsSide(s.account.equity, signals[n], bars[n].close, c);
      entered' := n;
    }
  }

  lemma {:induction false} RunTrades(bars: seq<Bar>, signals: seq<int>, c: Config, n: nat)
    returns (deals: seq<Deal>, entered: nat)
    requires Runnable(bars, signals, c) && n <= |bars|
    ensures Between(bars, signals, c, deals, Run(bars, signals, c, n), entered, n)
  {
    hide Between, Step, Tradable;
    deals, entered := [], 0;
    if n <= WARM_UP {
      NothingTraded(bars, signals, c, n);
    } else {
      deals, entered := RunTrades(bars, signals, c, n - 1);
      deals, entered := OneBar(bars, signals, c, deals, Run(bars, signals, c, n - 1), entered, n - 1);
    }
  }

  lemma NothingTraded(bars: seq<Bar>, signals: seq<int>, c: Config, n: nat)
    requires Runnable(bars, signals, c) && n <= |bars| && n <= WARM_UP
    ensures Between(bars, signals, c, [], State(OPENING, None), 0, n)
  {
  }

  /** Every run, as its trades: while flat the first nonzero signal past the warm-up opens on its own side at that bar's
      close; the first later bar to touch the stop or the take closes it there, the stop first, or the last close does;
      prices slip against the side; sizes, returns, fees, wins and equity follow from those prices alone. */
  lemma RunIsItsTrades(bars: seq<Bar>, signals: seq<int>, c: Config) returns (deals: seq<Deal>)
    requires Runnable(bars, signals, c)
    ensures Books(bars, signals, c, deals, Outcome(bars, signals, c))
    ensures forall k :: FreeFrom(deals, |deals|) <= k < |bars| ==> signals[k] == 0
  {
    hide Books, Moved, Settle, ExitSlippage;
    var entered;
    deals, entered := RunTrades(bars, signals, c, |bars|);
    var s := Run(bars, signals, c, |bars|);
    if s.position.Some? {
      var p, price := s.position.value, bars[|bars| - 1].close;
      SlippageIsMoved(price, p.direction, c);
      OneMoreDeal(bars, signals, c, deals, s.account, p, Deal(entered, |bars|, price));
      deals := deals + [Deal(entered, |bars|, price)];
    }
  }
}
