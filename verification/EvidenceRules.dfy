/** The rules of accepted evidence, read off the trades and the summary alone. */
module EvidenceRules {
  import opened Drawdown
  import opened Reals
  import opened Results
  import opened TradeEvidence

  predicate Near(a: real, b: real) {
    -0.000000000000000000000001 <= a - b <= 0.000000000000000000000001
  }

  /** What a side earns when the price moves from entry to exit. */
  function PricedGross(t: Trade): real {
    match t.direction
    case Long => (t.exitPrice - t.entryPrice) * t.quantity
    case Short => -((t.exitPrice - t.entryPrice) * t.quantity)
    case Other(_) => 0.0
  }

  /** One trade: inside the episode, a whole number of minutes long, on a side, with positive prices and amounts, and
      profit, fee, margin and net as its prices say. */
  predicate TradeFits(t: Trade, episode: Episode, leverage: real)
    requires leverage != 0.0
  {
    && episode.startAt <= t.entryAt && t.entryAt < t.exitAt && t.exitAt <= episode.endAt
    && (t.direction == Long || t.direction == Short)
    && (exists i :: 0 <= i < |t.exitReason| && t.exitReason[i] != ' ' && t.exitReason[i] != '\t'
                    && t.exitReason[i] != '\n' && t.exitReason[i] != '\r')
    && t.exitAt == t.entryAt + t.holdingBars * 60000000
    && t.entryPrice > 0.0 && t.exitPrice > 0.0 && t.quantity > 0.0 && t.margin > 0.0 && t.feePaid >= 0.0
    && Near(t.grossPnl, PricedGross(t))
    && Near(t.feePaid, 0.0004 * (t.quantity * (t.entryPrice + t.exitPrice)))
    && Near(t.margin, t.entryPrice * t.quantity / leverage)
    && Near(t.netPnl, t.grossPnl - t.feePaid)
  }

  function GrossTo(trades: seq<Trade>, n: nat): real
    requires n <= |trades|
  {
    if n == 0 then 0.0 else trades[n - 1].grossPnl + GrossTo(trades, n - 1)
  }

  function NetTo(trades: seq<Trade>, n: nat): real
    requires n <= |trades|
  {
    if n == 0 then 0.0 else trades[n - 1].netPnl + NetTo(trades, n - 1)
  }

  function FeesTo(trades: seq<Trade>, n: nat): real
    requires n <= |trades|
  {
    if n == 0 then 0.0 else trades[n - 1].feePaid + FeesTo(trades, n - 1)
  }

  function GainsTo(trades: seq<Trade>, n: nat): real
    requires n <= |trades|
  {
    if n == 0 then 0.0 else Max(0.0, trades[n - 1].grossPnl) + GainsTo(trades, n - 1)
  }

  function LossesTo(trades: seq<Trade>, n: nat): real
    requires n <= |trades|
  {
    if n == 0 then 0.0 else Max(0.0, -trades[n - 1].grossPnl) + LossesTo(trades, n - 1)
  }

  /** Net profit over margin, summed; a valid trade has a margin. */
  function RoeTo(trades: seq<Trade>, n: nat): real
    requires n <= |trades|
  {
    if n == 0 then 0.0
    else
      (if trades[n - 1].margin > 0.0 then trades[n - 1].netPnl / trades[n - 1].margin else 0.0) + RoeTo(trades, n - 1)
  }

  function Winners(trades: seq<Trade>, n: nat): set<int>
    requires n <= |trades|
  {
    set i | 0 <= i < n && trades[i].netPnl > 0.0
  }

  /** Equity before the first trade and after each. */
  function EquityCurve(initial: real, trades: seq<Trade>): seq<real> {
    seq(|trades| + 1, i requires 0 <= i <= |trades| => initial + NetTo(trades, i))
  }

  /** The numbers a summary must state: sums, equity and drawdown ... */
  ghost predicate SumsFit(r: Evidence, initial: real, trades: seq<Trade>) {
    var n, net := |trades|, NetTo(trades, |trades|);
    && r.initialEquity == initial && r.trades == trades && r.tradeCount == n
    && r.grossPnl == GrossTo(trades, n) && r.netPnl == net && r.feePaid == FeesTo(trades, n)
    && r.finalEquity == initial + net && r.maxDrawdown == Deepest(EquityCurve(initial, trades))
  }

  /** ... rates: on the initial equity, per day of the week, per trade ... */
  ghost predicate RatesFit(r: Evidence, initial: real, trades: seq<Trade>) {
    var n := |trades|;
    && r.returnRatio * initial == NetTo(trades, n)
    && r.dailyReturnRatio * 7.0 == r.returnRatio && r.tradesPerDay * 7.0 == n as real
    && r.winRate * n as real == |Winners(trades, n)| as real
    && r.averageRoe * n as real == RoeTo(trades, n)
    && r.expectancy * n as real == r.returnRatio
    && (n == 0 ==> r.winRate == 0.0 && r.averageRoe == 0.0 && r.expectancy == 0.0)
  }

  /** ... and gains over losses, unbounded when there are gains and no losses. */
  ghost predicate FactorFits(r: Evidence, trades: seq<Trade>) {
    var gains, losses := GainsTo(trades, |trades|), LossesTo(trades, |trades|);
    match r.profitFactor
    case Some(factor) =>
      if losses > 0.0 then factor * losses == gains else gains <= 0.0 && factor == 0.0
    case None => losses <= 0.0 && gains > 0.0
  }

  ghost predicate SummaryOf(r: Evidence, initial: real, trades: seq<Trade>) {
    SumsFit(r, initial, trades) && RatesFit(r, initial, trades) && FactorFits(r, trades)
  }

  /** The stated numbers are near those, in range, and a stated profit factor is finite. */
  predicate States(e: Evidence, r: Evidence) {
    && Near(e.grossPnl, r.grossPnl) && Near(e.netPnl, r.netPnl) && Near(e.feePaid, r.feePaid)
    && Near(e.finalEquity, r.finalEquity) && Near(e.returnRatio, r.returnRatio)
    && Near(e.dailyReturnRatio, r.dailyReturnRatio) && Near(e.tradesPerDay, r.tradesPerDay)
    && 0.0 <= e.winRate <= 1.0 && Near(e.winRate, r.winRate)
    && Near(e.averageRoe, r.averageRoe) && Near(e.expectancy, r.expectancy)
    && 0.0 <= e.maxDrawdown && Near(e.maxDrawdown, r.maxDrawdown)
    && (e.profitFactor.Some? ==> r.profitFactor.Some? && Near(e.profitFactor.value, r.profitFactor.value))
  }

  lemma NearIsMatches(a: real, b: real)
    ensures Near(a, b) <==> Matches(a, b)
  {
  }

  lemma TradeRules(t: Trade, episode: Episode, leverage: real)
    requires leverage != 0.0
    ensures ValidTrade(t, episode, leverage) <==> TradeFits(t, episode, leverage)
  {
    GrossIsPriced(t);
    FeeIsPriced(t);
    NearIsMatches(t.grossPnl, PricedGross(t));
    NearIsMatches(t.feePaid, ExpectedFee(t));
    NearIsMatches(t.margin, t.entryPrice * t.quantity / leverage);
    NearIsMatches(t.netPnl, t.grossPnl - t.feePaid);
    hide Near, Matches, ExpectedGross, ExpectedFee, PricedGross;
  }

  lemma GrossIsPriced(t: Trade)
    ensures !t.direction.Other? ==> ExpectedGross(t) == PricedGross(t)
  {
    assert (t.entryPrice - t.exitPrice) * t.quantity == -((t.exitPrice - t.entryPrice) * t.quantity);
  }

  lemma FeeIsPriced(t: Trade)
    ensures ExpectedFee(t) == 0.0004 * (t.quantity * (t.entryPrice + t.exitPrice))
  {
    assert t.entryPrice * t.quantity + t.exitPrice * t.quantity == t.quantity * (t.entryPrice + t.exitPrice);
  }

  lemma TotalsAre(trades: seq<Trade>, n: nat)
    requires n <= |trades|
    ensures Total(trades[..n], Gross) == GrossTo(trades, n) && Total(trades[..n], Net) == NetTo(trades, n)
    ensures Total(trades[..n], Fee) == FeesTo(trades, n)
    ensures Total(trades[..n], Profit) == GainsTo(trades, n) && Total(trades[..n], Loss) == LossesTo(trades, n)
    ensures Total(trades[..n], Roe) == RoeTo(trades, n)
    ensures Wins(trades[..n]) == |Winners(trades, n)|
  {
    SumsAre(trades, n);
    SplitsAre(trades, n);
    WinsAre(trades, n);
  }

  lemma {:induction false} SumsAre(trades: seq<Trade>, n: nat)
    requires n <= |trades|
    ensures Total(trades[..n], Gross) == GrossTo(trades, n) && Total(trades[..n], Net) == NetTo(trades, n)
    ensures Total(trades[..n], Fee) == FeesTo(trades, n)
  {
    if n > 0 {
      SumsAre(trades, n - 1);
      assert trades[..n][..n - 1] == trades[..n - 1] && trades[..n][n - 1] == trades[n - 1];
    }
  }

  lemma {:induction false} SplitsAre(trades: seq<Trade>, n: nat)
    requires n <= |trades|
    ensures Total(trades[..n], Profit) == GainsTo(trades, n) && Total(trades[..n], Loss) == LossesTo(trades, n)
    ensures Total(trades[..n], Roe) == RoeTo(trades, n)
  {
    if n > 0 {
      SplitsAre(trades, n - 1);
      assert trades[..n][..n - 1] == trades[..n - 1] && trades[..n][n - 1] == trades[n - 1];
    }
  }

  lemma {:induction false} WinsAre(trades: seq<Trade>, n: nat)
    requires n <= |trades|
    ensures Wins(trades[..n]) == |Winners(trades, n)|
  {
    if n == 0 {
      assert Winners(trades, n) == {};
    } else {
      WinsAre(trades, n - 1);
      assert trades[..n][..n - 1] == trades[..n - 1] && trades[..n][n - 1] == trades[n - 1];
      assert Winners(trades, n) == Winners(trades, n - 1) + if trades[n - 1].netPnl > 0.0 then {n - 1} else {};
    }
  }

  lemma {:induction false} CurveIs(initial: real, trades: seq<Trade>, n: nat)
    requires n <= |trades|
    ensures Curve(initial, trades[..n]) == EquityCurve(initial, trades)[..n + 1]
  {
    TotalsAre(trades, n);
    var whole := EquityCurve(initial, trades);
    if n == 0 {
      assert trades[..0] == [] && whole[..1] == [whole[0]];
    } else {
      CurveIs(initial, trades, n - 1);
      assert trades[..n][..n - 1] == trades[..n - 1];
      assert whole[..n + 1] == whole[..n] + [whole[n]];
      hide Total;
    }
  }

  lemma DivideBack(x: real, d: real)
    requires d != 0.0
    ensures x / d * d == x
  {
  }

  lemma PerTradeIs(total: real, trades: seq<Trade>)
    ensures PerTrade(total, trades) * |trades| as real == if trades == [] then 0.0 else total
    ensures trades == [] ==> PerTrade(total, trades) == 0.0
  {
    if trades != [] {
      DivideBack(total, |trades| as real);
    }
  }

  lemma {:induction false} LossesAreNotNegative(trades: seq<Trade>, n: nat)
    requires n <= |trades|
    ensures LossesTo(trades, n) >= 0.0 && GainsTo(trades, n) >= 0.0
  {
    if n > 0 {
      LossesAreNotNegative(trades, n - 1);
    }
  }

  lemma RecomputedIsSummary(initial: real, trades: seq<Trade>)
    requires initial != 0.0
    ensures SummaryOf(Recomputed(initial, trades), initial, trades)
  {
    hide SumsFit, RatesFit, FactorFits, Recomputed;
    RecomputedSums(initial, trades);
    RecomputedRates(initial, trades);
    RecomputedFactor(initial, trades);
  }

  lemma RecomputedSums(initial: real, trades: seq<Trade>)
    requires initial != 0.0
    ensures SumsFit(Recomputed(initial, trades), initial, trades)
  {
    hide Total, Wins, Deepest, Curve, EquityCurve, PerTrade, GrossTo, NetTo, FeesTo;
    assert trades[..|trades|] == trades;
    TotalsAre(trades, |trades|);
    WholeCurve(initial, trades);
  }

  lemma RecomputedFactor(initial: real, trades: seq<Trade>)
    requires initial != 0.0
    ensures FactorFits(Recomputed(initial, trades), trades)
  {
    hide Total, Wins, Deepest, Curve, PerTrade, GainsTo, LossesTo;
    assert trades[..|trades|] == trades;
    TotalsAre(trades, |trades|);
    LossesAreNotNegative(trades, |trades|);
    if LossesTo(trades, |trades|) > 0.0 {
      DivideBack(GainsTo(trades, |trades|), LossesTo(trades, |trades|));
    }
  }

  lemma RecomputedRates(initial: real, trades: seq<Trade>)
    requires initial != 0.0
    ensures RatesFit(Recomputed(initial, trades), initial, trades)
  {
    hide Total, Wins, Deepest, Curve, PerTrade, RoeTo, Winners;
    var n, net := |trades|, NetTo(trades, |trades|);
    assert trades[..n] == trades;
    TotalsAre(trades, n);
    DivideBack(net, initial);
    DivideBack(net / initial, 7.0);
    DivideBack(n as real, 7.0);
    PerTradeIs(|Winners(trades, n)| as real, trades);
    PerTradeIs(RoeTo(trades, n), trades);
    PerTradeIs(net, trades);
    ExpectancyIs(PerTrade(net, trades), n as real, net, initial);
    NoneToSum(trades);
    hide NetTo;
  }

  lemma NoneToSum(trades: seq<Trade>)
    ensures trades == [] ==> |Winners(trades, 0)| == 0 && RoeTo(trades, 0) == 0.0
  {
    assert Winners(trades, 0) == {};
  }

  lemma WholeCurve(initial: real, trades: seq<Trade>)
    ensures Curve(initial, trades) == EquityCurve(initial, trades)
  {
    CurveIs(initial, trades, |trades|);
    assert trades[..|trades|] == trades;
    assert EquityCurve(initial, trades)[..|trades| + 1] == EquityCurve(initial, trades);
  }

  lemma ExpectancyIs(each: real, n: real, net: real, initial: real)
    requires initial != 0.0 && each * n == (if n == 0.0 then 0.0 else net) && (n == 0.0 ==> net == 0.0)
    ensures each / initial * n == net / initial
  {
    assert each / initial * n == each * n / initial;
  }

  lemma StatesIffMatches(e: Evidence, r: Evidence)
    ensures States(e, r) <==> Misstated(e, r).None? && MisstatedRates(e, r).None?
  {
    NearIsMatches(e.grossPnl, r.grossPnl);
    NearIsMatches(e.netPnl, r.netPnl);
    NearIsMatches(e.feePaid, r.feePaid);
    NearIsMatches(e.finalEquity, r.finalEquity);
    NearIsMatches(e.returnRatio, r.returnRatio);
    NearIsMatches(e.dailyReturnRatio, r.dailyReturnRatio);
    NearIsMatches(e.tradesPerDay, r.tradesPerDay);
    NearIsMatches(e.winRate, r.winRate);
    NearIsMatches(e.averageRoe, r.averageRoe);
    NearIsMatches(e.expectancy, r.expectancy);
    NearIsMatches(e.maxDrawdown, r.maxDrawdown);
    if e.profitFactor.Some? && r.profitFactor.Some? {
      NearIsMatches(e.profitFactor.value, r.profitFactor.value);
    }
    hide Near, Matches;
  }

  /** Evidence is accepted if and only if its count and equity are its own, every trade fits, no trade starts before the
      one before it ended, and every stated number is near the one the trades give. */
  lemma AcceptedIff(e: Evidence, initial: real, episode: Episode, leverage: real)
    requires leverage != 0.0 && initial != 0.0
    ensures SummaryOf(Recomputed(initial, e.trades), initial, e.trades)
    ensures Acceptable(e, initial, episode, leverage) <==>
            && e.initialEquity == initial && e.finalEquity == initial + e.netPnl && e.tradeCount == |e.trades|
            && (forall i :: 0 <= i < |e.trades| ==> TradeFits(e.trades[i], episode, leverage))
            && (forall i, j :: 0 <= i && j == i + 1 && j < |e.trades| ==> e.trades[i].exitAt <= e.trades[j].entryAt)
            && States(e, Recomputed(initial, e.trades))
  {
    hide TradeFits, ValidTrade, States, Misstated, MisstatedRates, Recomputed, SummaryOf;
    RecomputedIsSummary(initial, e.trades);
    StatesIffMatches(e, Recomputed(initial, e.trades));
    forall i | 0 <= i < |e.trades|
      ensures ValidTrade(e.trades[i], episode, leverage) <==> TradeFits(e.trades[i], episode, leverage)
    {
      TradeRules(e.trades[i], episode, leverage);
    }
  }

  /** The summary is determined by the trades: two that both are one agree on every number. */
  lemma SummaryIsOne(a: Evidence, b: Evidence, initial: real, trades: seq<Trade>)
    requires initial != 0.0 && SummaryOf(a, initial, trades) && SummaryOf(b, initial, trades)
    ensures a == b
  {
    hide GrossTo, NetTo, FeesTo, GainsTo, LossesTo, RoeTo, Deepest, EquityCurve, Winners;
    var n := |trades|;
    Cancel(a.returnRatio, b.returnRatio, initial);
    Cancel(a.winRate, b.winRate, n as real);
    Cancel(a.averageRoe, b.averageRoe, n as real);
    Cancel(a.expectancy, b.expectancy, n as real);
    if a.profitFactor.Some? && b.profitFactor.Some? {
      Cancel(a.profitFactor.value, b.profitFactor.value, LossesTo(trades, n));
    }
  }

  lemma Cancel(a: real, b: real, d: real)
    ensures d != 0.0 && a * d == b * d ==> a == b
  {
    if d != 0.0 && a * d == b * d {
      assert (a - b) * d == 0.0;
    }
  }
}
