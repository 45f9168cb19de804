/** Backtest evidence: what a validated summary says about its trades, as a whole. */
module TradeEvidence {
  import opened Drawdown
  import opened Reals
  import opened Results

  const TOLERANCE := 0.000000000000000000000001
  const FEE_RATE := 0.0004

  /** Instants are whole microseconds. */
  const MINUTE := 60000000
  const WEEK := 7 * 24 * 60 * MINUTE

  datatype Direction = Long | Short | Other(text: string)

  datatype Trade = Trade(
    entryAt: int, exitAt: int, direction: Direction, exitReason: string, holdingBars: int,
    entryPrice: real, exitPrice: real, quantity: real, margin: real, grossPnl: real, netPnl: real, feePaid: real)

  datatype Episode = Episode(startAt: int, endAt: int)

  datatype Evidence = Evidence(
    initialEquity: real, finalEquity: real, tradeCount: int, tradesPerDay: real, grossPnl: real, netPnl: real,
    feePaid: real, returnRatio: real, dailyReturnRatio: real, maxDrawdown: real, winRate: real, averageRoe: real,
    expectancy: real, profitFactor: Option<real>, trades: seq<Trade>)

  datatype Problem =
    | WrongInitialEquity | FinalNotNet | NegativeCount | BadTrade(index: nat) | WrongCount | Overlap | NoEquity
    | Mismatch(field: string) | NegativeDrawdown | WinRateRange | UnboundedProfitFactor

  predicate Matches(actual: real, expected: real) {
    Abs(actual - expected) <= TOLERANCE
  }

  predicate IsBlank(text: string) {
    forall i :: 0 <= i < |text| ==> text[i] == ' ' || text[i] == '\t' || text[i] == '\n' || text[i] == '\r'
  }

  function ExpectedGross(t: Trade): real {
    if t.direction == Long then (t.exitPrice - t.entryPrice) * t.quantity else (t.entryPrice - t.exitPrice) * t.quantity
  }

  function ExpectedFee(t: Trade): real {
    (t.entryPrice * t.quantity + t.exitPrice * t.quantity) * FEE_RATE
  }

  /** One trade inside the episode, whose numbers follow from its prices. */
  predicate ValidTrade(t: Trade, episode: Episode, leverage: real)
    requires leverage != 0.0
  {
    && episode.startAt <= t.entryAt < t.exitAt <= episode.endAt
    && !t.direction.Other?
    && !IsBlank(t.exitReason)
    && t.holdingBars >= 0 && t.exitAt - t.entryAt == t.holdingBars * MINUTE
    && t.entryPrice > 0.0 && t.exitPrice > 0.0 && t.quantity > 0.0 && t.margin > 0.0
    && t.feePaid >= 0.0
    && Matches(t.grossPnl, ExpectedGross(t))
    && Matches(t.feePaid, ExpectedFee(t))
    && Matches(t.margin, t.entryPrice * t.quantity / leverage)
    && Matches(t.netPnl, t.grossPnl - t.feePaid)
  }

  predicate AllTradesValid(trades: seq<Trade>, episode: Episode, leverage: real)
    requires leverage != 0.0
  {
    forall i :: 0 <= i < |trades| ==> ValidTrade(trades[i], episode, leverage)
  }

  /** The check on neighbours alone. */
  ghost predicate NeighboursInOrder(trades: seq<Trade>) {
    forall i, j :: 0 <= i && j == i + 1 && j < |trades| ==> trades[i].exitAt <= trades[j].entryAt
  }

  function Total(trades: seq<Trade>, amount: Trade -> real): real {
    if trades == [] then 0.0 else Total(trades[..|trades| - 1], amount) + amount(trades[|trades| - 1])
  }

  function Gross(t: Trade): real { t.grossPnl }
  function Net(t: Trade): real { t.netPnl }
  function Fee(t: Trade): real { t.feePaid }
  function Profit(t: Trade): real { if t.grossPnl > 0.0 then t.grossPnl else 0.0 }
  function Loss(t: Trade): real { if t.grossPnl < 0.0 then -t.grossPnl else 0.0 }
  function Roe(t: Trade): real { if t.margin > 0.0 then t.netPnl / t.margin else 0.0 }

  function Wins(trades: seq<Trade>): (wins: nat)
    ensures wins <= |trades|
  {
    if trades == [] then 0
    else Wins(trades[..|trades| - 1]) + (if trades[|trades| - 1].netPnl > 0.0 then 1 else 0)
  }

  /** Equity before the first trade and after each. */
  function Curve(initial: real, trades: seq<Trade>): (curve: seq<real>)
    ensures |curve| == |trades| + 1
  {
    if trades == [] then [initial] else Curve(initial, trades[..|trades| - 1]) + [initial + Total(trades, Net)]
  }

  function PerTrade(total: real, trades: seq<Trade>): real {
    if trades == [] then 0.0 else total / |trades| as real
  }

  /** All summary numbers, from the trades. */
  function Recomputed(initial: real, trades: seq<Trade>): Evidence
    requires initial != 0.0
  {
    var net, profit, loss := Total(trades, Net), Total(trades, Profit), Total(trades, Loss);
    Evidence(
      initial, initial + net, |trades|, |trades| as real / 7.0, Total(trades, Gross), net, Total(trades, Fee),
      net / initial, net / initial / 7.0, Deepest(Curve(initial, trades)),
      PerTrade(Wins(trades) as real, trades), PerTrade(Total(trades, Roe), trades), PerTrade(net, trades) / initial,
      if loss == 0.0 then (if profit > 0.0 then None else Some(0.0)) else Some(profit / loss), trades)
  }

  /** The first summary number that does not match what the trades say. */
  function Misstated(e: Evidence, r: Evidence): Option<string> {
    if !Matches(e.grossPnl, r.grossPnl) then Some("gross_pnl")
    else if !Matches(e.netPnl, r.netPnl) then Some("net_pnl")
    else if !Matches(e.feePaid, r.feePaid) then Some("fee_paid")
    else if !Matches(e.finalEquity, r.finalEquity) then Some("final_equity")
    else if !Matches(e.returnRatio, r.returnRatio) then Some("return_ratio")
    else if !Matches(e.dailyReturnRatio, r.dailyReturnRatio) then Some("daily_return_ratio")
    else if !Matches(e.tradesPerDay, r.tradesPerDay) then Some("trades_per_day")
    else None
  }

  function MisstatedRates(e: Evidence, r: Evidence): Option<Problem> {
    if !(0.0 <= e.winRate <= 1.0) then Some(WinRateRange)
    else if !Matches(e.winRate, r.winRate) then Some(Mismatch("net_win_rate"))
    else if !Matches(e.averageRoe, r.averageRoe) then Some(Mismatch("average_net_trade_roe"))
    else if !Matches(e.expectancy, r.expectancy) then Some(Mismatch("average_net_trade_expectancy_ratio"))
    else if e.maxDrawdown < 0.0 then Some(NegativeDrawdown)
    else if !Matches(e.maxDrawdown, r.maxDrawdown) then Some(Mismatch("max_drawdown_ratio"))
    else if e.profitFactor.None? then None
    else if r.profitFactor.None? then Some(UnboundedProfitFactor)
    else if !Matches(e.profitFactor.value, r.profitFactor.value) then Some(Mismatch("profit_factor"))
    else None
  }

  /** What the validator accepts. */
  ghost predicate Acceptable(e: Evidence, initial: real, episode: Episode, leverage: real)
    requires leverage != 0.0
  {
    && e.initialEquity == initial && initial != 0.0
    && e.finalEquity == e.initialEquity + e.netPnl
    && e.tradeCount == |e.trades|
    && AllTradesValid(e.trades, episode, leverage)
    && NeighboursInOrder(e.trades)
    && Misstated(e, Recomputed(initial, e.trades)).None?
    && MisstatedRates(e, Recomputed(initial, e.trades)).None?
  }

  /** Validates evidence; what it returns is recomputed from the trades, with a profit factor only if one was given. */
  method Validate(e: Evidence, initial: real, episode: Episode, leverage: real)
    returns (result: Result<Evidence, Problem>)
    requires leverage != 0.0
    ensures result.Ok? <==> Acceptable(e, initial, episode, leverage)
    ensures result.Ok? ==>
              var r := Recomputed(initial, e.trades);
              result.value == if e.profitFactor.None? then r.(profitFactor := None) else r
  {
    hide ValidTrade, Misstated, MisstatedRates, Deepest, Curve, Total;
    if e.initialEquity != initial {
      return Err(WrongInitialEquity);
    }
    if e.finalEquity != e.initialEquity + e.netPnl {
      return Err(FinalNotNet);
    }
    if e.tradeCount < 0 {
      return Err(NegativeCount);
    }
    var trades := e.trades;
    for i := 0 to |trades|
      invariant AllTradesValid(trades[..i], episode, leverage)
    {
      if !ValidTrade(trades[i], episode, leverage) {
        return Err(BadTrade(i));
      }
    }
    assert trades[..|trades|] == trades;
    if e.tradeCount != |trades| {
      return Err(WrongCount);
    }
    for i := 0 to |trades|
      invariant forall j, k :: 0 <= j && k == j + 1 && k < i ==> trades[j].exitAt <= trades[k].entryAt
    {
      if i > 0 && trades[i].entryAt < trades[i - 1].exitAt {
        return Err(Overlap);
      }
    }
    if initial == 0.0 {
      return Err(NoEquity);
    }
    var drawdown := Reconstruct(initial, trades);
    var recomputed := Recomputed(initial, trades).(maxDrawdown := drawdown);
    var misstated := Misstated(e, recomputed);
    if misstated.Some? {
      return Err(Mismatch(misstated.value));
    }
    var problem := MisstatedRates(e, recomputed);
    if problem.Some? {
      return Err(problem.value);
    }
    result := Ok(if e.profitFactor.None? then recomputed.(profitFactor := None) else recomputed);
  }

  /** The equity loop with its running peak and drawdown. */
  method Reconstruct(initial: real, trades: seq<Trade>) returns (drawdown: real)
    ensures drawdown == Deepest(Curve(initial, trades))
  {
    hide Deepest, Deeper, MaxOf;
    var equity, peak := initial, initial;
    drawdown := 0.0;
    StartOfCurve(initial);
    assert trades[..0] == [];
    for i := 0 to |trades|
      invariant equity == initial + Total(trades[..i], Net)
      invariant peak == MaxOf(Curve(initial, trades[..i])) && drawdown == Deepest(Curve(initial, trades[..i]))
    {
      assert trades[..i + 1][..i] == trades[..i];
      equity := equity + trades[i].netPnl;
      DeeperFollows(Curve(initial, trades[..i]), equity);
      peak := Max(peak, equity);
      drawdown := Deeper(drawdown, peak, equity);
    }
    assert trades[..|trades|] == trades;
  }

  lemma StartOfCurve(initial: real)
    ensures MaxOf([initial]) == initial && Deepest([initial]) == 0.0
  {
    assert [initial][..0] == [];
    assert Deepest([initial][..0]) == 0.0;
  }

  // ---------------------------------------------------------------- what acceptance means for the trades

  /** From the neighbour checks alone, no two trades overlap and they come in time order. */
  lemma {:induction false} TradesAreDisjoint(trades: seq<Trade>, episode: Episode, leverage: real, i: nat, j: nat)
    requires leverage != 0.0 && AllTradesValid(trades, episode, leverage) && NeighboursInOrder(trades)
    requires i < j < |trades|
    ensures trades[i].exitAt <= trades[j].entryAt
    decreases j
  {
    if i + 1 >= j {
    } else {
      TradesAreDisjoint(trades, episode, leverage, i, j - 1);
      assert ValidTrade(trades[j - 1], episode, leverage);
    }
    assert trades[j - 1].exitAt <= trades[j].entryAt;
  }

  function HoldingBars(trades: seq<Trade>): int {
    if trades == [] then 0 else HoldingBars(trades[..|trades| - 1]) + trades[|trades| - 1].holdingBars
  }

  /** The time from the start of the episode to the last exit that no trade covers. */
  function IdleTime(trades: seq<Trade>, startAt: int): int {
    if trades == [] then 0
    else IdleTime(trades[..|trades| - 1], startAt)
         + trades[|trades| - 1].entryAt - LastExit(trades[..|trades| - 1], startAt)
  }

  function LastExit(trades: seq<Trade>, startAt: int): int {
    if trades == [] then startAt else trades[|trades| - 1].exitAt
  }

  /** Holding time and idle time make up the elapsed time exactly, and neither is negative. */
  lemma {:induction false} HoldingAndIdleTile(trades: seq<Trade>, episode: Episode, leverage: real)
    requires leverage != 0.0 && AllTradesValid(trades, episode, leverage) && NeighboursInOrder(trades)
    ensures HoldingBars(trades) * MINUTE + IdleTime(trades, episode.startAt)
         == LastExit(trades, episode.startAt) - episode.startAt
    ensures IdleTime(trades, episode.startAt) >= 0 && HoldingBars(trades) >= |trades|
  {
    if trades == [] {
    } else {
      var n := |trades| - 1;
      var before := trades[..n];
      HoldingAndIdleTile(before, episode, leverage);
      assert ValidTrade(trades[n], episode, leverage);
      if n > 0 {
        assert trades[n - 1].exitAt <= trades[n].entryAt;
      }
    }
  }

  /** A seven-day episode holds at most 10080 bars of trading, and at most 10080 trades. */
  lemma WeekHoldsTenThousandBars(trades: seq<Trade>, episode: Episode, leverage: real)
    requires leverage != 0.0 && AllTradesValid(trades, episode, leverage) && NeighboursInOrder(trades)
    requires episode.endAt - episode.startAt == WEEK
    ensures |trades| <= HoldingBars(trades) <= 10080
  {
    HoldingAndIdleTile(trades, episode, leverage);
    if trades != [] {
      assert ValidTrade(trades[|trades| - 1], episode, leverage);
    }
  }

  /** A tolerance for each of n checks. */
  function Slack(n: nat): real {
    n as real * TOLERANCE
  }

  lemma SlackStep(n: nat)
    ensures Slack(n + 1) == Slack(n) + TOLERANCE && TOLERANCE > 0.0
  {
  }

  /** Sums of amounts that match term by term are as close as their number of terms allows. */
  lemma {:induction false} TotalsMatch(trades: seq<Trade>, a: Trade -> real, b: Trade -> real)
    requires forall i :: 0 <= i < |trades| ==> Matches(a(trades[i]), b(trades[i]))
    ensures Abs(Total(trades, a) - Total(trades, b)) <= Slack(|trades|)
  {
    if trades == [] {
    } else {
      var n := |trades| - 1;
      TotalsMatch(trades[..n], a, b);
      assert Matches(a(trades[n]), b(trades[n]));
      SlackStep(n);
      hide TOLERANCE, Slack;
    }
  }

  function NetOfFees(t: Trade): real { t.grossPnl - t.feePaid }

  lemma {:induction false} NetOfFeesIsDifference(trades: seq<Trade>)
    ensures Total(trades, NetOfFees) == Total(trades, Gross) - Total(trades, Fee)
  {
    if trades == [] {
    } else {
      NetOfFeesIsDifference(trades[..|trades| - 1]);
    }
  }

  /** The summary is right about the trades: gross profit and fees follow from prices and quantities, and what was
      earned less what was paid is what equity moved by, each within a tolerance per trade. */
  lemma SummaryFollowsFromPrices(e: Evidence, initial: real, episode: Episode, leverage: real)
    requires leverage != 0.0 && Acceptable(e, initial, episode, leverage)
    ensures var slack := Slack(|e.trades| + 3);
            && Abs(e.grossPnl - Total(e.trades, ExpectedGross)) <= slack
            && Abs(e.feePaid - Total(e.trades, ExpectedFee)) <= slack
            && Abs(e.finalEquity - initial - (e.grossPnl - e.feePaid)) <= slack
  {
    hide TOLERANCE, Acceptable, Total, Slack, Abs, Matches, Recomputed, AllTradesValid, Deepest, Curve, Gross, Net,
      Fee, ExpectedGross, ExpectedFee, NeighboursInOrder;
    MatchingSummary(e, initial, episode, leverage);
    TotalsFollow(e.trades, episode, leverage);
    CloseEnough(e.grossPnl, e.feePaid, e.netPnl, Total(e.trades, Gross), Total(e.trades, Fee), Total(e.trades, Net),
                Total(e.trades, ExpectedGross), Total(e.trades, ExpectedFee), |e.trades|);
  }

  /** From the stated numbers through the totals of the trades to what the prices say. */
  lemma CloseEnough(
    gross: real, fee: real, net: real, totalGross: real, totalFee: real, totalNet: real, pricedGross: real,
    pricedFee: real, n: nat)
    requires Matches(gross, totalGross) && Matches(fee, totalFee) && Matches(net, totalNet)
    requires Abs(totalGross - pricedGross) <= Slack(n) && Abs(totalFee - pricedFee) <= Slack(n)
    requires Abs(totalNet - (totalGross - totalFee)) <= Slack(n)
    ensures Abs(gross - pricedGross) <= Slack(n + 3) && Abs(fee - pricedFee) <= Slack(n + 3)
    ensures Abs(net - (gross - fee)) <= Slack(n + 3)
  {
    SlackStep(n);
    SlackStep(n + 1);
    SlackStep(n + 2);
    hide TOLERANCE, Slack, Abs;
    Triangle(gross, totalGross, pricedGross, TOLERANCE, Slack(n));
    Triangle(fee, totalFee, pricedFee, TOLERANCE, Slack(n));
    Triangle(net, totalNet, totalGross - totalFee, TOLERANCE, Slack(n));
    Differ(totalGross, gross, totalFee, fee, TOLERANCE);
    Triangle(net, totalGross - totalFee, gross - fee, TOLERANCE + Slack(n), TOLERANCE + TOLERANCE);
  }

  lemma TotalsFollow(trades: seq<Trade>, episode: Episode, leverage: real)
    requires leverage != 0.0 && AllTradesValid(trades, episode, leverage)
    ensures Abs(Total(trades, Gross) - Total(trades, ExpectedGross)) <= Slack(|trades|)
    ensures Abs(Total(trades, Fee) - Total(trades, ExpectedFee)) <= Slack(|trades|)
    ensures Abs(Total(trades, Net) - (Total(trades, Gross) - Total(trades, Fee))) <= Slack(|trades|)
  {
    hide TOLERANCE, Matches, Total, Slack, AllTradesValid, Gross, Net, Fee, ExpectedGross, ExpectedFee, NetOfFees;
    TermsMatch(trades, episode, leverage);
    TotalsMatch(trades, Gross, ExpectedGross);
    TotalsMatch(trades, Fee, ExpectedFee);
    TotalsMatch(trades, Net, NetOfFees);
    NetOfFeesIsDifference(trades);
  }

  lemma Triangle(a: real, b: real, c: real, x: real, y: real)
    requires Abs(a - b) <= x && Abs(b - c) <= y
    ensures Abs(a - c) <= x + y
  {
  }

  lemma Differ(a: real, b: real, c: real, d: real, x: real)
    requires Abs(b - a) <= x && Abs(d - c) <= x
    ensures Abs(a - c - (b - d)) <= x + x
  {
  }

  lemma TermsMatch(trades: seq<Trade>, episode: Episode, leverage: real)
    requires leverage != 0.0 && AllTradesValid(trades, episode, leverage)
    ensures forall i :: 0 <= i < |trades| ==> Matches(Gross(trades[i]), ExpectedGross(trades[i]))
    ensures forall i :: 0 <= i < |trades| ==> Matches(Fee(trades[i]), ExpectedFee(trades[i]))
    ensures forall i :: 0 <= i < |trades| ==> Matches(Net(trades[i]), NetOfFees(trades[i]))
  {
    hide TOLERANCE, ExpectedFee, ExpectedGross;
    forall i | 0 <= i < |trades|
      ensures Matches(Gross(trades[i]), ExpectedGross(trades[i])) && Matches(Fee(trades[i]), ExpectedFee(trades[i]))
      ensures Matches(Net(trades[i]), NetOfFees(trades[i]))
    {
      assert ValidTrade(trades[i], episode, leverage);
    }
  }

  lemma MatchingSummary(e: Evidence, initial: real, episode: Episode, leverage: real)
    requires leverage != 0.0 && Acceptable(e, initial, episode, leverage)
    ensures Matches(e.grossPnl, Total(e.trades, Gross)) && Matches(e.netPnl, Total(e.trades, Net))
    ensures Matches(e.feePaid, Total(e.trades, Fee)) && Matches(e.returnRatio, Total(e.trades, Net) / initial)
    ensures e.finalEquity == initial + e.netPnl && Matches(e.maxDrawdown, Deepest(Curve(initial, e.trades)))
    ensures AllTradesValid(e.trades, episode, leverage) && NeighboursInOrder(e.trades)
  {
    hide TOLERANCE, Total, Deepest, Curve, ValidTrade;
  }

  /** The curve the drawdown is taken over starts at the initial equity and ends at the final one, a tolerance away
      from the stated one. */
  lemma CurveSpansEquity(e: Evidence, initial: real, episode: Episode, leverage: real)
    requires leverage != 0.0 && Acceptable(e, initial, episode, leverage)
    ensures var curve := Curve(initial, e.trades);
            && curve[0] == initial && Matches(e.finalEquity, curve[|e.trades|])
            && (forall i :: 0 <= i < |e.trades| ==> curve[i + 1] - curve[i] == e.trades[i].netPnl)
  {
    MatchingSummary(e, initial, episode, leverage);
    CurveSteps(initial, e.trades);
  }

  lemma {:induction false} CurveSteps(initial: real, trades: seq<Trade>)
    ensures var curve := Curve(initial, trades);
            && curve[0] == initial && curve[|trades|] == initial + Total(trades, Net)
            && (forall i :: 0 <= i < |trades| ==> curve[i + 1] - curve[i] == trades[i].netPnl)
  {
    if trades == [] {
    } else {
      var n := |trades| - 1;
      CurveSteps(initial, trades[..n]);
      var before, curve := Curve(initial, trades[..n]), Curve(initial, trades);
      assert forall i :: 0 <= i <= n ==> curve[i] == before[i];
      forall i | 0 <= i <= n ensures curve[i + 1] - curve[i] == trades[i].netPnl {
        if i < n {
          assert before[i + 1] - before[i] == trades[..n][i].netPnl;
        }
      }
    }
  }

  /** Every accepted result is disjoint, fits its week, and states its own return. */
  lemma AcceptedEvidence(e: Evidence, initial: real, episode: Episode, leverage: real)
    requires leverage != 0.0 && Acceptable(e, initial, episode, leverage) && episode.endAt - episode.startAt == WEEK
    ensures forall i, j :: 0 <= i < j < |e.trades| ==> e.trades[i].exitAt <= e.trades[j].entryAt
    ensures e.tradeCount <= HoldingBars(e.trades) <= 10080
    ensures Matches(e.returnRatio, Total(e.trades, Net) / initial)
    ensures Matches(e.maxDrawdown, Deepest(Curve(initial, e.trades)))
  {
    hide TOLERANCE, Matches, Total, Deepest, Curve;
    MatchingSummary(e, initial, episode, leverage);
    forall i, j | 0 <= i < j < |e.trades|
      ensures e.trades[i].exitAt <= e.trades[j].entryAt
    {
      TradesAreDisjoint(e.trades, episode, leverage, i, j);
    }
    WeekHoldsTenThousandBars(e.trades, episode, leverage);
  }
}
