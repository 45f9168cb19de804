/** What an exit-model run trades, bar by bar and in signed prices: when in, when out, at what price, for how much. */
module ExitTrades {
  import opened ExitModels
  import opened Reals
  import opened Results
  import Trades = SimulatorTrades

  /** A price moved by a share of itself towards the side, or against it. */
  function Moved(price: real, side: int, share: real): real {
    Trades.Moved(price, side, share)
  }

  /** What a close at this price really gets. */
  function Slipped(price: real, side: int): real {
    Moved(price, side, -0.0002)
  }

  predicate FallsTo(bar: Bar, side: int, level: real) {
    if side > 0 then bar.low <= level else bar.high >= level
  }

  predicate RisesTo(bar: Bar, side: int, level: real) {
    if side > 0 then bar.high >= level else bar.low <= level
  }

  // ---------------------------------------------------------------- in

  function MarginOf(equity: real, z: Sizing): real {
    equity * (z.minEquityRatio + 0.68 * (z.maxEquityRatio - z.minEquityRatio))
  }

  function NotionalOf(equity: real, z: Sizing): real {
    MarginOf(equity, z) * (z.minLeverage + 0.68 * (z.maxLeverage - z.minLeverage))
  }

  /** Flat from bar `first` on, the first nonzero signal opens on its own side at that bar's close, slipped against it,
      sized by the equity of the moment. */
  ghost predicate Enters(bars: seq<Bar>, z: Sizing, first: nat, equity: real, o: Holding) {
    && first <= o.entryIndex < |bars|
    && (forall k :: first <= k < o.entryIndex ==> bars[k].signal == 0) && bars[o.entryIndex].signal != 0
    && o.direction == (if bars[o.entryIndex].signal > 0 then 1 else -1)
    && o.entryPrice == Moved(bars[o.entryIndex].close, o.direction, 0.0002) && o.entryPrice > 0.0
    && o.margin == MarginOf(equity, z) && o.notional == NotionalOf(equity, z)
  }

  // ---------------------------------------------------------------- out between two barriers

  /** A move that follows volatility, kept above its minimum and then below its maximum. */
  function Within(value: real, minimum: real, maximum: real): real {
    var raised := if value < minimum then minimum else value;
    if raised > maximum then maximum else raised
  }

  function StopShare(c: Candidate, bar: Bar): real
    requires HasBarriers(c)
  {
    if c.Atr? then Within(bar.atrRatio * c.slMultiple, c.minSl, c.maxSl) else c.sl
  }

  function TakeShare(c: Candidate, bar: Bar): real
    requires HasBarriers(c)
  {
    if c.Atr? then Within(bar.atrRatio * c.tpMultiple, c.minTp, c.maxTp) else c.tp
  }

  predicate TimeIsUp(c: Candidate, o: Holding, k: nat) {
    c.TimeLimited? && k >= o.entryIndex + c.maxHolding
  }

  predicate StopIsHit(c: Candidate, o: Holding, bar: Bar)
    requires HasBarriers(c)
  {
    FallsTo(bar, o.direction, Moved(o.entryPrice, o.direction, -StopShare(c, bar)))
  }

  predicate TakeIsHit(c: Candidate, o: Holding, bar: Bar)
    requires HasBarriers(c)
  {
    RisesTo(bar, o.direction, Moved(o.entryPrice, o.direction, TakeShare(c, bar)))
  }

  /** Nothing has ended the position on the bars between its entry and n. */
  ghost predicate HeldBetween(c: Candidate, bars: seq<Bar>, o: Holding, n: nat)
    requires HasBarriers(c) && n <= |bars|
  {
    forall k :: o.entryIndex < k < n ==> !TimeIsUp(c, o, k) && !StopIsHit(c, o, bars[k]) && !TakeIsHit(c, o, bars[k])
  }

  /** The exit on a bar: the time limit first, then the stop, then the take. */
  ghost predicate EndsBetween(c: Candidate, o: Holding, bar: Bar, k: nat, exit: Exit)
    requires HasBarriers(c)
  {
    if TimeIsUp(c, o, k) then exit == Exit(Slipped(bar.close, o.direction), TimeExit)
    else if StopIsHit(c, o, bar) then
      exit == Exit(Slipped(Moved(o.entryPrice, o.direction, -StopShare(c, bar)), o.direction), StopLoss)
    else
      && TakeIsHit(c, o, bar)
      && exit == Exit(Slipped(Moved(o.entryPrice, o.direction, TakeShare(c, bar)), o.direction), TakeProfit)
  }

  // ---------------------------------------------------------------- out under a trailing stop

  function ArmingShare(c: Candidate): real
    requires Trails(c)
  {
    match c
    case Trailing(_, activation, _) => activation
    case PartialTrailing(_, firstTp, _, _) => firstTp
  }

  predicate Reaches(c: Candidate, o: Holding, bar: Bar)
    requires Trails(c)
  {
    RisesTo(bar, o.direction, Moved(o.entryPrice, o.direction, ArmingShare(c)))
  }

  /** Bar a is the first after the entry to reach the arming price. */
  ghost predicate Arms(c: Candidate, bars: seq<Bar>, o: Holding, a: nat)
    requires Trails(c)
  {
    && o.entryIndex < a < |bars| && Reaches(c, o, bars[a])
    && forall j :: o.entryIndex < j < a ==> !Reaches(c, o, bars[j])
  }

  /** The best price of bars a to k: no bar is better and one is as good. */
  ghost predicate IsPeak(bars: seq<Bar>, side: int, a: nat, k: nat, peak: real)
    requires a <= k < |bars|
  {
    if side > 0
    then (forall j :: a <= j <= k ==> bars[j].high <= peak) && exists j :: a <= j <= k && bars[j].high == peak
    else (forall j :: a <= j <= k ==> bars[j].low >= peak) && exists j :: a <= j <= k && bars[j].low == peak
  }

  predicate HardIsHit(c: Candidate, o: Holding, bar: Bar)
    requires Trails(c)
  {
    FallsTo(bar, o.direction, Moved(o.entryPrice, o.direction, -c.sl))
  }

  /** Armed on an earlier bar, bar k falls back from the peak, its own best price included, by the trail. */
  ghost predicate TrailIsHit(c: Candidate, bars: seq<Bar>, o: Holding, a: nat, k: nat, peak: real)
    requires Trails(c) && a <= k < |bars|
  {
    && Arms(c, bars, o, a) && IsPeak(bars, o.direction, a, k, peak)
    && FallsTo(bars[k], o.direction, Moved(peak, o.direction, -c.trail))
  }

  ghost predicate HeldTrailing(c: Candidate, bars: seq<Bar>, o: Holding, n: nat)
    requires Trails(c) && n <= |bars|
  {
    && (forall k :: o.entryIndex < k < n ==> !HardIsHit(c, o, bars[k]))
    && (forall a, k, peak :: o.entryIndex < a < k < n ==> !TrailIsHit(c, bars, o, a, k, peak))
  }

  ghost predicate EndsTrailing(c: Candidate, bars: seq<Bar>, o: Holding, k: nat, exit: Exit)
    requires Trails(c) && o.entryIndex < k < |bars|
  {
    if HardIsHit(c, o, bars[k]) then
      exit == Exit(Slipped(Moved(o.entryPrice, o.direction, -c.sl), o.direction), StopLoss)
    else
      exists a: nat, peak ::
        && o.entryIndex < a < k && TrailIsHit(c, bars, o, a, k, peak)
        && exit == Exit(Slipped(Moved(peak, o.direction, -c.trail), o.direction),
                        if c.Trailing? then TrailingTakeProfit else Reason.PartialTrailingExit)
  }

  // ---------------------------------------------------------------- the trade

  /** It left on the first bar that ended it, at that bar's price, or at the last close. */
  ghost predicate Leaves(c: Candidate, bars: seq<Bar>, o: Holding, at: nat, exit: Exit) {
    && o.entryIndex <= at < |bars|
    && if exit.reason == EndOfData
       then
         && at == |bars| - 1 && exit.price == Slipped(bars[at].close, o.direction)
         && (HasBarriers(c) ==> HeldBetween(c, bars, o, |bars|))
         && (Trails(c) ==> HeldTrailing(c, bars, o, |bars|))
       else
         && o.entryIndex < at
         && (HasBarriers(c) ==> HeldBetween(c, bars, o, at) && EndsBetween(c, o, bars[at], at, exit))
         && (Trails(c) ==> HeldTrailing(c, bars, o, at) && EndsTrailing(c, bars, o, at, exit))
  }

  function SignedMove(o: Holding, price: real): real
    requires o.entryPrice != 0.0
  {
    Trades.SignedMove(o.direction, o.entryPrice, price)
  }

  /** The share closed early: the asked part, of no more than the whole, if the position armed before it left. */
  ghost predicate PartlyClosed(c: Candidate, bars: seq<Bar>, o: Holding, until: nat) {
    c.PartialTrailing? && exists a: nat :: a < until && Arms(c, bars, o, a)
  }

  /** Gross profit: the signed relative moves of the two legs, or of the one, on the notional. */
  ghost function GrossOf(c: Candidate, bars: seq<Bar>, o: Holding, at: nat, exit: Exit): real
    requires o.entryPrice != 0.0
  {
    var last := SignedMove(o, exit.price);
    if PartlyClosed(c, bars, o, if exit.reason == EndOfData then |bars| else at) then
      var early := SignedMove(o, Slipped(Moved(o.entryPrice, o.direction, ArmingShare(c)), o.direction));
      var share := if c.partialRatio < 1.0 then c.partialRatio else 1.0;
      o.notional * (share * early + (1.0 - share) * last)
    else o.notional * last
  }

  /** One entry of every list per trade. */
  ghost predicate Lined(s: State) {
    |s.log| == |s.account.grossRoes| == |s.account.netRoes| == |s.account.netReturns| == |s.curve| - 1
    && s.curve[|s.log|] == s.account.equity
  }

  /** The books of trade i. */
  ghost predicate Earns(c: Candidate, bars: seq<Bar>, s: State, i: nat)
    requires Lined(s) && i < |s.log|
    requires s.log[i].holding.entryPrice != 0.0
  {
    var o, a := Origin(s.log[i].holding), s.account;
    var gross := GrossOf(c, bars, o, s.log[i].at, s.log[i].exit);
    var net := gross - 2.0 * o.notional * 0.0004;
    && s.curve[i + 1] == s.curve[i] + net
    && (if o.margin > 0.0 then a.grossRoes[i] * o.margin == gross && a.netRoes[i] * o.margin == net
        else a.grossRoes[i] == 0.0 && a.netRoes[i] == 0.0)
    && (if o.notional > 0.0 then a.netReturns[i] * o.notional == net else a.netReturns[i] == 0.0)
  }

  function FreeFrom(log: seq<Settled>, i: nat): nat
    requires i <= |log|
  {
    if i == 0 then 260 else log[i - 1].at + 1
  }

  ghost predicate Told(c: Candidate, bars: seq<Bar>, z: Sizing, s: State, i: nat)
    requires Lined(s) && i < |s.log|
  {
    && Enters(bars, z, FreeFrom(s.log, i), s.curve[i], Origin(s.log[i].holding))
    && Leaves(c, bars, Origin(s.log[i].holding), s.log[i].at, s.log[i].exit)
    && Earns(c, bars, s, i)
  }

  // ---------------------------------------------------------------- the model's prices are these

  lemma LevelIsMoved(price: real, side: int, share: real)
    requires side == 1 || side == -1
    ensures Level(price, side, share) == Moved(price, side, share)
    ensures Level(price, side, -share) == Moved(price, side, -share)
  {
    var d := side as real;
    assert share * d == d * share && -share * d == d * -share;
  }

  lemma FillIsSlipped(price: real, side: int)
    requires side == 1 || side == -1
    ensures Fill(price, side) == Slipped(price, side)
    ensures Scalping.EntrySlippage(price, side, SLIPPAGE_RATE) == Moved(price, side, 0.0002)
  {
    Trades.MovedIs(price, side, SLIPPAGE_RATE);
    hide Trades.Moved, Scalping.Up, Scalping.Down;
  }

  lemma OpenEnters(bars: seq<Bar>, z: Sizing, first: nat, equity: real, n: nat)
    requires AllWellFormed(bars) && first <= n < |bars| && bars[n].signal != 0
    requires forall k :: first <= k < n ==> bars[k].signal == 0
    ensures Enters(bars, z, first, equity, Open(equity, bars[n], n, z))
  {
    var side := if bars[n].signal > 0 then 1 else -1;
    FillIsSlipped(bars[n].close, side);
    OpenIsTradable(equity, bars[n], n, z);
    ScaledAt(z.minEquityRatio, z.maxEquityRatio);
    ScaledAt(z.minLeverage, z.maxLeverage);
    hide Moved, Scalping.EntrySlippage, Scalping.Scaled;
  }

  lemma ScaledAt(minimum: real, maximum: real)
    ensures Scalping.Scaled(0.68, minimum, maximum) == minimum + 0.68 * (maximum - minimum)
  {
  }

  // ---------------------------------------------------------------- barriers

  lemma BarrierTouches(c: Candidate, o: Holding, bar: Bar, k: nat)
    requires HasBarriers(c) && o.Tradable()
    ensures Expired(c, o, k) <==> TimeIsUp(c, o, k)
    ensures StopTouched(c, o, bar) <==> StopIsHit(c, o, bar)
    ensures TakeTouched(c, o, bar) <==> TakeIsHit(c, o, bar)
    ensures StopMove(c, bar) == StopShare(c, bar) && TakeMove(c, bar) == TakeShare(c, bar)
  {
    MovesAreShares(c, bar);
    LevelIsMoved(o.entryPrice, o.direction, StopShare(c, bar));
    LevelIsMoved(o.entryPrice, o.direction, TakeShare(c, bar));
    hide Level, Moved, StopMove, TakeMove, StopShare, TakeShare;
  }

  lemma MovesAreShares(c: Candidate, bar: Bar)
    requires HasBarriers(c)
    ensures StopMove(c, bar) == StopShare(c, bar) && TakeMove(c, bar) == TakeShare(c, bar)
  {
  }

  lemma EndsBetweenIs(c: Candidate, o: Holding, bar: Bar, k: nat, exit: Exit)
    requires HasBarriers(c) && o.Tradable() && LeftBetween(c, o, bar, k, exit)
    ensures EndsBetween(c, o, bar, k, exit)
  {
    BarrierTouches(c, o, bar, k);
    LevelIsMoved(o.entryPrice, o.direction, StopShare(c, bar));
    LevelIsMoved(o.entryPrice, o.direction, TakeShare(c, bar));
    FillIsSlipped(bar.close, o.direction);
    FillIsSlipped(Moved(o.entryPrice, o.direction, -StopShare(c, bar)), o.direction);
    FillIsSlipped(Moved(o.entryPrice, o.direction, TakeShare(c, bar)), o.direction);
    hide Level, Moved, Slipped, Fill, StopMove, TakeMove, StopShare, TakeShare, StopTouched, TakeTouched, StopIsHit,
      TakeIsHit, Expired, TimeIsUp;
  }

  lemma HeldBetweenIs(c: Candidate, bars: seq<Bar>, o: Holding, n: nat)
    requires HasBarriers(c) && o.Tradable() && o.entryIndex < n <= |bars|
    ensures Undisturbed(c, o, bars, n) <==> HeldBetween(c, bars, o, n)
  {
    forall k | o.entryIndex < k < n
      ensures Expired(c, o, k) <==> TimeIsUp(c, o, k)
      ensures StopTouched(c, o, bars[k]) <==> StopIsHit(c, o, bars[k])
      ensures TakeTouched(c, o, bars[k]) <==> TakeIsHit(c, o, bars[k])
    {
      BarrierTouches(c, o, bars[k], k);
    }
    hide Expired, TimeIsUp, StopTouched, StopIsHit, TakeTouched, TakeIsHit;
  }

  // ---------------------------------------------------------------- trails

  lemma TrailTouches(c: Candidate, o: Holding, bar: Bar)
    requires Trails(c) && o.Tradable()
    ensures HardStopHit(c, o, bar) <==> HardIsHit(c, o, bar)
    ensures TargetHit(o.direction, bar, Level(o.entryPrice, o.direction, Trigger(c))) <==> Reaches(c, o, bar)
  {
    LevelIsMoved(o.entryPrice, o.direction, c.sl);
    LevelIsMoved(o.entryPrice, o.direction, ArmingShare(c));
    hide Level, Moved;
  }

  /** The model's arming bar is the one that arms, if any does before n. */
  lemma ArmedAtArms(c: Candidate, bars: seq<Bar>, o: Holding, n: nat)
    requires Trails(c) && o.Tradable() && o.entryIndex < n <= |bars|
    ensures var a := ArmedAt(c, o, bars, n);
            && (a < n ==> Arms(c, bars, o, a))
            && (forall b: nat :: b < n && Arms(c, bars, o, b) ==> a == b)
  {
    hide TargetHit, Level, Reaches;
    var a := ArmedAt(c, o, bars, n);
    var level := Level(o.entryPrice, o.direction, Trigger(c));
    forall j | o.entryIndex < j < n
      ensures TargetHit(o.direction, bars[j], level) <==> Reaches(c, o, bars[j])
    {
      TrailTouches(c, o, bars[j]);
    }
    forall b: nat | b < n && Arms(c, bars, o, b)
      ensures a == b
    {
      assert TargetHit(o.direction, bars[b], level);
    }
  }

  lemma {:induction false} ExtremeIsPeak(bars: seq<Bar>, side: int, a: nat, k: nat)
    requires a <= k < |bars|
    ensures IsPeak(bars, side, a, k, Extreme(side, bars, a, k + 1))
    decreases k
  {
    var peak := Extreme(side, bars, a, k + 1);
    if a == k {
      assert bars[k].high == peak || bars[k].low == peak;
    } else {
      ExtremeIsPeak(bars, side, a, k - 1);
      var before := Extreme(side, bars, a, k);
      assert peak == Better(side, before, Best(side, bars[k]));
    }
  }

  lemma PeakIsOne(bars: seq<Bar>, side: int, a: nat, k: nat, p: real, q: real)
    requires a <= k < |bars| && IsPeak(bars, side, a, k, p) && IsPeak(bars, side, a, k, q)
    ensures p == q
  {
  }

  /** The model's trailing stop on bar k, told by peaks. */
  lemma TrailStopIs(c: Candidate, bars: seq<Bar>, o: Holding, a: nat, k: nat)
    requires Trails(c) && o.Tradable() && a <= k < |bars| && Arms(c, bars, o, a)
    ensures var peak := Extreme(o.direction, bars, a, k + 1);
            && IsPeak(bars, o.direction, a, k, peak)
            && TrailStop(c, o, bars, a, k) == Moved(peak, o.direction, -c.trail)
            && (StopHit(o.direction, bars[k], TrailStop(c, o, bars, a, k)) <==> TrailIsHit(c, bars, o, a, k, peak))
            && (forall p :: TrailIsHit(c, bars, o, a, k, p) ==> p == peak)
  {
    hide Level, Moved, Extreme, Arms;
    var peak := Extreme(o.direction, bars, a, k + 1);
    ExtremeIsPeak(bars, o.direction, a, k);
    LevelIsMoved(peak, o.direction, c.trail);
    forall p | TrailIsHit(c, bars, o, a, k, p)
      ensures p == peak
    {
      PeakIsOne(bars, o.direction, a, k, p, peak);
    }
    hide IsPeak;
  }

  lemma HeldTrailingIs(c: Candidate, bars: seq<Bar>, o: Holding, n: nat)
    requires Trails(c) && o.Tradable() && o.entryIndex < n <= |bars|
    ensures NotStopped(c, o, bars, n) <==> HeldTrailing(c, bars, o, n)
  {
    hide HardStopHit, HardIsHit, StopHit, TrailStop, TrailIsHit, ArmedAt;
    var a := ArmedAt(c, o, bars, n);
    ArmedAtArms(c, bars, o, n);
    forall k | o.entryIndex < k < n
      ensures HardStopHit(c, o, bars[k]) <==> HardIsHit(c, o, bars[k])
    {
      TrailTouches(c, o, bars[k]);
    }
    forall k | a < k < n
      ensures StopHit(o.direction, bars[k], TrailStop(c, o, bars, a, k)) <==>
              exists peak :: TrailIsHit(c, bars, o, a, k, peak)
    {
      TrailStopIs(c, bars, o, a, k);
    }
    forall b: nat, k, peak | o.entryIndex < b < k < n && TrailIsHit(c, bars, o, b, k, peak)
      ensures a == b
    {
      HitIsArmed(c, bars, o, b, k, peak);
    }
    hide Arms;
    if NotStopped(c, o, bars, n) {
      forall b, k, peak | o.entryIndex < b < k < n
        ensures !TrailIsHit(c, bars, o, b, k, peak)
      {
        assert a < k ==> !StopHit(o.direction, bars[k], TrailStop(c, o, bars, a, k));
      }
    }
    if HeldTrailing(c, bars, o, n) {
      forall k | a < k < n
        ensures !StopHit(o.direction, bars[k], TrailStop(c, o, bars, a, k))
      {
        assert forall peak :: !TrailIsHit(c, bars, o, a, k, peak);
      }
    }
  }

  lemma HitIsArmed(c: Candidate, bars: seq<Bar>, o: Holding, a: nat, k: nat, peak: real)
    requires Trails(c) && a <= k < |bars| && TrailIsHit(c, bars, o, a, k, peak)
    ensures Arms(c, bars, o, a)
  {
  }

  lemma EndsTrailingIs(c: Candidate, bars: seq<Bar>, o: Holding, at: nat, exit: Exit)
    requires Trails(c) && o.Tradable() && o.entryIndex < at < |bars| && LeftAt(c, o, bars, at, exit)
    ensures HeldTrailing(c, bars, o, at) && EndsTrailing(c, bars, o, at, exit)
  {
    hide HardStopHit, HardIsHit, StopHit, TrailIsHit, TrailStop, Fill, Level, Moved, Slipped, NotStopped, HeldTrailing;
    HeldTrailingIs(c, bars, o, at);
    TrailTouches(c, o, bars[at]);
    LevelIsMoved(o.entryPrice, o.direction, c.sl);
    FillIsSlipped(Moved(o.entryPrice, o.direction, -c.sl), o.direction);
    if !HardStopHit(c, o, bars[at]) {
      var a := ArmedAt(c, o, bars, at);
      ArmedAtArms(c, bars, o, at);
      TrailStopIs(c, bars, o, a, at);
      var peak := Extreme(o.direction, bars, a, at + 1);
      FillIsSlipped(Moved(peak, o.direction, -c.trail), o.direction);
      assert o.entryIndex < a < at && TrailIsHit(c, bars, o, a, at, peak);
    }
  }

  // ---------------------------------------------------------------- what a position left with

  /** A closed position had lived to its last bar, and that bar or the end of the data closed it. */
  ghost predicate LeftLive(c: Candidate, bars: seq<Bar>, e: Settled) {
    var o := Origin(e.holding);
    && Fresh(o) && o.entryIndex <= e.at < |bars|
    && if e.exit.reason == EndOfData
       then
         && e.at == |bars| - 1 && Live(c, o, bars, |bars|) == Held(e.holding)
         && e.exit.price == Fill(bars[e.at].close, o.direction)
       else o.entryIndex < e.at && LeftOnBar(c, bars, o, e)
  }

  ghost predicate LeftOnBar(c: Candidate, bars: seq<Bar>, o: Holding, e: Settled)
    requires o.Tradable() && o.entryIndex < e.at < |bars|
  {
    && Live(c, o, bars, e.at).Held?
    && Manage(c, Live(c, o, bars, e.at).holding, bars[e.at], e.at) == Ok(Managed(e.holding, Some(e.exit)))
  }

  lemma LeavesBetween(c: Candidate, bars: seq<Bar>, e: Settled)
    requires HasBarriers(c) && LeftLive(c, bars, e)
    ensures Leaves(c, bars, Origin(e.holding), e.at, e.exit) && e.holding == Origin(e.holding)
  {
    hide Live, Manage, HeldBetween, EndsBetween, Slipped, Fill, Undisturbed, LeftBetween;
    var o := Origin(e.holding);
    if e.exit.reason == EndOfData {
      LifeBetweenBarriers(c, o, bars, |bars|);
      HeldBetweenIs(c, bars, o, |bars|);
      FillIsSlipped(bars[e.at].close, o.direction);
    } else {
      LifeBetweenBarriers(c, o, bars, e.at);
      HeldBetweenIs(c, bars, o, e.at);
      OneBarBetween(c, o, bars[e.at], e.at);
      EndsBetweenIs(c, o, bars[e.at], e.at, e.exit);
    }
  }

  lemma LeavesTrailing(c: Candidate, bars: seq<Bar>, e: Settled)
    requires Trails(c) && LeftLive(c, bars, e)
    ensures Leaves(c, bars, Origin(e.holding), e.at, e.exit)
  {
    hide Live, Manage, HeldTrailing, EndsTrailing, Slipped, Fill, NotStopped, LeftAt, Survivor;
    var o := Origin(e.holding);
    if e.exit.reason == EndOfData {
      LifeUnderTrailingStop(c, o, bars, |bars|);
      HeldTrailingIs(c, bars, o, |bars|);
      FillIsSlipped(bars[e.at].close, o.direction);
    } else {
      LifeUnderTrailingStop(c, o, bars, e.at);
      NextBar(c, o, bars, e.at);
      EndsTrailingIs(c, bars, o, e.at, e.exit);
    }
  }

  /** What is left of a position, and what its early leg brought. */
  predicate Carries(h: Holding, o: Holding, share: real, gain: real) {
    && h.remaining == 1.0 - share && h.realized == o.notional * share * gain && h.exitFee == o.notional * share * 0.0004
    && h.notional == o.notional && h.entryPrice == o.entryPrice && h.direction == o.direction && h.margin == o.margin
  }

  ghost function EarlyShare(c: Candidate, bars: seq<Bar>, o: Holding, until: nat): real {
    if PartlyClosed(c, bars, o, until) then (if c.partialRatio < 1.0 then c.partialRatio else 1.0) else 0.0
  }

  function EarlyGain(c: Candidate, o: Holding): real
    requires Trails(c) && o.entryPrice != 0.0
  {
    SignedMove(o, Slipped(Moved(o.entryPrice, o.direction, ArmingShare(c)), o.direction))
  }

  lemma ReturnIsMove(o: Holding, price: real)
    requires o.entryPrice != 0.0
    ensures Return(o, price) == SignedMove(o, price)
  {
  }

  lemma SurvivorCarries(c: Candidate, bars: seq<Bar>, o: Holding, n: nat)
    requires Trails(c) && Fresh(o) && Origin(o) == o && o.entryIndex < n <= |bars|
    ensures Carries(Survivor(c, o, bars, n), o, EarlyShare(c, bars, o, n), EarlyGain(c, o))
  {
    ArmedAtArms(c, bars, o, n);
    var a := ArmedAt(c, o, bars, n);
    var level := Level(o.entryPrice, o.direction, ArmingShare(c));
    LevelIsMoved(o.entryPrice, o.direction, ArmingShare(c));
    FillIsSlipped(level, o.direction);
    ReturnIsMove(o, Fill(level, o.direction));
    assert PartlyClosed(c, bars, o, n) <==> c.PartialTrailing? && a < n;
    hide Arms, ArmedAt, Level, Moved, Fill, Slipped, Return, SignedMove, Extreme;
  }

  /** Closing what is carried earns both legs, less the fees of one entry and one exit of the whole. */
  lemma CarriedEarns(h: Holding, o: Holding, share: real, gain: real, price: real)
    requires o.entryPrice != 0.0 && Carries(h, o, share, gain)
    ensures Closed(h, price).gross == o.notional * (share * gain + (1.0 - share) * SignedMove(o, price))
    ensures Closed(h, price).net == Closed(h, price).gross - 2.0 * o.notional * 0.0004
  {
    assert o.notional * share * 0.0004 + o.notional * (1.0 - share) * 0.0004 == o.notional * 0.0004;
    ReturnIsMove(h, price);
    var last, n := SignedMove(o, price), o.notional;
    assert Return(h, price) == last;
    assert n * share * gain + n * (1.0 - share) * last == n * (share * gain + (1.0 - share) * last);
    hide Return, SignedMove;
  }

  lemma WholeEarns(notional: real, gain: real, last: real)
    ensures notional * (0.0 * gain + (1.0 - 0.0) * last) == notional * last
  {
  }

  /** The gross profit of a closed position is that of its legs, in prices. */
  lemma GrossIsOfLegs(c: Candidate, bars: seq<Bar>, e: Settled)
    requires (HasBarriers(c) || Trails(c)) && LeftLive(c, bars, e)
    ensures var t := Closed(e.holding, e.exit.price);
            && t.gross == GrossOf(c, bars, Origin(e.holding), e.at, e.exit)
            && t.net == t.gross - 2.0 * Origin(e.holding).notional * 0.0004
  {
    hide Live, Manage, Closed, SignedMove, PartlyClosed, Moved, Slipped;
    var o, until := Origin(e.holding), if e.exit.reason == EndOfData then |bars| else e.at;
    if HasBarriers(c) {
      LeavesBetween(c, bars, e);
      CarriedEarns(e.holding, o, 0.0, 0.0, e.exit.price);
      WholeEarns(o.notional, 0.0, SignedMove(o, e.exit.price));
      assert !PartlyClosed(c, bars, o, until) by { NeverPartly(c, bars, o, until); }
    } else {
      TrailingCarries(c, bars, e);
      CarriedEarns(e.holding, o, EarlyShare(c, bars, o, until), EarlyGain(c, o), e.exit.price);
      WholeEarns(o.notional, EarlyGain(c, o), SignedMove(o, e.exit.price));
    }
  }

  lemma NeverPartly(c: Candidate, bars: seq<Bar>, o: Holding, until: nat)
    requires !c.PartialTrailing?
    ensures !PartlyClosed(c, bars, o, until)
  {
  }

  lemma TrailingCarries(c: Candidate, bars: seq<Bar>, e: Settled)
    requires Trails(c) && LeftLive(c, bars, e)
    ensures var o := Origin(e.holding);
            Carries(e.holding, o, EarlyShare(c, bars, o, if e.exit.reason == EndOfData then |bars| else e.at),
                    EarlyGain(c, o))
  {
    hide Live, Survivor, EarlyShare, EarlyGain, NotStopped, LeftAt;
    var o := Origin(e.holding);
    if e.exit.reason == EndOfData {
      LifeUnderTrailingStop(c, o, bars, |bars|);
      SurvivorCarries(c, bars, o, |bars|);
    } else {
      LifeUnderTrailingStop(c, o, bars, e.at);
      SurvivorCarries(c, bars, o, e.at);
      ManageKeepsMoney(c, Survivor(c, o, bars, e.at), bars[e.at], e.at);
    }
  }

  /** The bar that closes a position books nothing early. */
  lemma ManageKeepsMoney(c: Candidate, h: Holding, bar: Bar, index: nat)
    requires Trails(c) && h.Tradable()
    ensures match Manage(c, h, bar, index)
            case Ok(m) => m.exit.Some? ==> m.holding.(extreme := h.extreme) == h
            case Err(_) => true
  {
    hide Level, Fill, StopHit, TargetHit, Partial;
  }

  // ---------------------------------------------------------------- the run

  /** The books of trade i, by the model's own closing. */
  ghost predicate Paid(s: State, i: nat)
    requires Lined(s) && i < |s.log|
  {
    var h, a := s.log[i].holding, s.account;
    && h.entryPrice != 0.0
    && var t := Closed(h, s.log[i].exit.price);
       && s.curve[i + 1] == s.curve[i] + t.net
       && a.grossRoes[i] == (if h.margin > 0.0 then t.gross / h.margin else 0.0)
       && a.netRoes[i] == (if h.margin > 0.0 then t.net / h.margin else 0.0)
       && a.netReturns[i] == (if h.notional > 0.0 then t.net / h.notional else 0.0)
  }

  ghost predicate Logged(c: Candidate, bars: seq<Bar>, z: Sizing, s: State, i: nat)
    requires Lined(s) && i < |s.log|
  {
    && Enters(bars, z, FreeFrom(s.log, i), s.curve[i], Origin(s.log[i].holding))
    && LeftLive(c, bars, s.log[i])
    && Paid(s, i)
  }

  /** The loop after the bars before n. */
  ghost predicate Traded(c: Candidate, bars: seq<Bar>, z: Sizing, s: State, n: nat)
    requires n <= |bars|
  {
    && Lined(s) && (forall i :: 0 <= i < |s.log| ==> Logged(c, bars, z, s, i))
    && match s.position
       case None =>
         && (n >= WARM_UP ==> FreeFrom(s.log, |s.log|) <= n)
         && forall k :: FreeFrom(s.log, |s.log|) <= k < n ==> bars[k].signal == 0
       case Some(h) => Enters(bars, z, FreeFrom(s.log, |s.log|), s.account.equity, Origin(h)) && h.entryIndex < n
  }

  lemma SettleLogs(c: Candidate, bars: seq<Bar>, z: Sizing, s: State, h: Holding, at: nat, exit: Exit)
    requires Lined(s) && (forall i :: 0 <= i < |s.log| ==> Logged(c, bars, z, s, i))
    requires Enters(bars, z, FreeFrom(s.log, |s.log|), s.account.equity, Origin(h))
    requires LeftLive(c, bars, Settled(h, at, exit))
    ensures var after := Settle(s, h, at, exit);
            && Lined(after) && after.log == s.log + [Settled(h, at, exit)]
            && forall i :: 0 <= i < |after.log| ==> Logged(c, bars, z, after, i)
  {
    hide Enters, LeftLive, Closed;
    EntersAbove(bars, z, FreeFrom(s.log, |s.log|), s.account.equity, Origin(h));
    var after := Settle(s, h, at, exit);
    LinedAfter(s, h, at, exit);
    forall i | 0 <= i < |after.log|
      ensures Logged(c, bars, z, after, i)
    {
      assert FreeFrom(after.log, i) == FreeFrom(s.log, i);
      if i < |s.log| {
        assert Logged(c, bars, z, s, i);
        PaidStays(s, after, i);
      }
    }
  }

  lemma EntersAbove(bars: seq<Bar>, z: Sizing, first: nat, equity: real, o: Holding)
    requires Enters(bars, z, first, equity, o)
    ensures o.entryPrice > 0.0
  {
  }

  lemma LinedAfter(s: State, h: Holding, at: nat, exit: Exit)
    requires Lined(s) && h.entryPrice > 0.0
    ensures var after := Settle(s, h, at, exit);
            && Lined(after) && after.log == s.log + [Settled(h, at, exit)]
            && s.curve <= after.curve && s.account.grossRoes <= after.account.grossRoes
            && s.account.netRoes <= after.account.netRoes && s.account.netReturns <= after.account.netReturns
            && Paid(after, |s.log|)
  {
    hide Closed, Drawdown.Deeper;
  }

  lemma PaidStays(s: State, after: State, i: nat)
    requires Lined(s) && Lined(after) && i < |s.log| && s.log <= after.log && Paid(s, i)
    requires s.curve <= after.curve && s.account.grossRoes <= after.account.grossRoes
    requires s.account.netRoes <= after.account.netRoes && s.account.netReturns <= after.account.netReturns
    ensures Paid(after, i)
  {
    hide Closed;
  }

  lemma NeverEndOfData(c: Candidate, h: Holding, bar: Bar, index: nat)
    requires h.Tradable()
    ensures match Manage(c, h, bar, index)
            case Ok(m) => m.exit.Some? ==> m.exit.value.reason != EndOfData
            case Err(_) => true
  {
    hide Level, Fill, StopHit, TargetHit, Partial;
  }

  lemma OneBar(c: Candidate, bars: seq<Bar>, z: Sizing, n: nat)
    requires AllWellFormed(bars) && WARM_UP <= n < |bars|
    requires Run(c, bars, z, n).Ok? && Run(c, bars, z, n + 1).Ok?
    requires Traded(c, bars, z, Run(c, bars, z, n).value, n)
    ensures Traded(c, bars, z, Run(c, bars, z, n + 1).value, n + 1)
  {
    hide Enters, Manage, Open, Settle, Logged, Lined, Fresh, Live;
    var s, bar := Run(c, bars, z, n).value, bars[n];
    assert Run(c, bars, z, n + 1) == Step(c, s, bar, n, z);
    StepCases(c, s, bar, n, z);
    if s.position.None? {
      if bar.signal != 0 {
        OpenEnters(bars, z, FreeFrom(s.log, |s.log|), s.account.equity, n);
        OpenIsTradable(s.account.equity, bar, n, z);
        BooksStay(c, bars, z, s, Some(Open(s.account.equity, bar, n, z)));
      }
    } else {
      var h := s.position.value;
      OpenPositionLives(c, bars, z, n);
      ManageKeepsEntry(c, h, bar, n);
      NeverEndOfData(c, h, bar, n);
      var managed := Manage(c, h, bar, n).value;
      if managed.exit.Some? {
        SettleLogs(c, bars, z, s, managed.holding, n, managed.exit.value);
        SettleClosesThePosition(s, managed.holding, n, managed.exit.value);
      } else {
        BooksStay(c, bars, z, s, Some(managed.holding));
      }
    }
  }

  lemma {:induction false} RunTrades(c: Candidate, bars: seq<Bar>, z: Sizing, n: nat)
    requires AllWellFormed(bars) && n <= |bars| && Run(c, bars, z, n).Ok?
    ensures Traded(c, bars, z, Run(c, bars, z, n).value, n)
  {
    hide Traded, Step;
    if n <= WARM_UP {
      NothingTraded(c, bars, z, n);
    } else {
      RunTrades(c, bars, z, n - 1);
      OneBar(c, bars, z, n - 1);
    }
  }

  lemma NothingTraded(c: Candidate, bars: seq<Bar>, z: Sizing, n: nat)
    requires n <= |bars| && n <= WARM_UP
    ensures Traded(c, bars, z, State(OPENING, None, [], [INITIAL_EQUITY]), n)
  {
  }

  lemma LoggedIsTold(c: Candidate, bars: seq<Bar>, z: Sizing, s: State, i: nat)
    requires (HasBarriers(c) || Trails(c)) && Lined(s) && i < |s.log| && Logged(c, bars, z, s, i)
    ensures Told(c, bars, z, s, i)
  {
    hide Enters, LeftLive, Leaves, GrossOf, Closed, Paid, Earns;
    var e := s.log[i];
    EntersAbove(bars, z, FreeFrom(s.log, i), s.curve[i], Origin(e.holding));
    if HasBarriers(c) {
      LeavesBetween(c, bars, e);
    } else {
      LeavesTrailing(c, bars, e);
    }
    GrossIsOfLegs(c, bars, e);
    PaidIsEarned(c, bars, s, i);
  }

  lemma PaidIsEarned(c: Candidate, bars: seq<Bar>, s: State, i: nat)
    requires Lined(s) && i < |s.log| && Paid(s, i)
    requires var e := s.log[i];
             var t := Closed(e.holding, e.exit.price);
             && t.gross == GrossOf(c, bars, Origin(e.holding), e.at, e.exit)
             && t.net == t.gross - 2.0 * Origin(e.holding).notional * 0.0004
    ensures Earns(c, bars, s, i)
  {
    hide GrossOf, Closed;
    var h, a := s.log[i].holding, s.account;
    var t := Closed(h, s.log[i].exit.price);
    RateOf(t.gross, h.margin, a.grossRoes[i]);
    RateOf(t.net, h.margin, a.netRoes[i]);
    RateOf(t.net, h.notional, a.netReturns[i]);
    hide Paid;
  }

  lemma RateOf(x: real, whole: real, rate: real)
    requires rate == if whole > 0.0 then x / whole else 0.0
    ensures if whole > 0.0 then rate * whole == x else rate == 0.0
  {
  }

  /** The books do not depend on the open position. */
  lemma BooksStay(c: Candidate, bars: seq<Bar>, z: Sizing, s: State, position: Option<Holding>)
    requires Lined(s) && forall i :: 0 <= i < |s.log| ==> Logged(c, bars, z, s, i)
    ensures var after := s.(position := position);
            Lined(after) && forall i :: 0 <= i < |s.log| ==> Logged(c, bars, z, after, i)
  {
    hide Enters, LeftLive, Closed;
    var after := s.(position := position);
    forall i | 0 <= i < |s.log|
      ensures Logged(c, bars, z, after, i)
    {
      assert Logged(c, bars, z, s, i);
    }
  }

  /** Every run of every kind, as its trades. While flat the first nonzero signal past the warm-up opens on its own
      side; the first later bar that ends the position does so, at that bar's price, or the last close does; prices
      slip against the side; and equity and returns follow from those prices, a partial exit and both fees included. */
  lemma RunIsItsTrades(c: Candidate, bars: seq<Bar>, z: Sizing)
    requires AllWellFormed(bars) && (HasBarriers(c) || Trails(c))
    ensures var r := Outcome(c, bars, z);
            && r.Ok? && Lined(r.value)
            && (forall i :: 0 <= i < |r.value.log| ==> Told(c, bars, z, r.value, i))
            && forall k :: FreeFrom(r.value.log, |r.value.log|) <= k < |bars| ==> bars[k].signal == 0
  {
    hide Enters, Logged, Told, Lined, LeftLive;
    var end := RunIsLogged(c, bars, z);
    forall i | 0 <= i < |end.log|
      ensures Told(c, bars, z, end, i)
    {
      LoggedIsTold(c, bars, z, end, i);
    }
  }

  lemma RunIsLogged(c: Candidate, bars: seq<Bar>, z: Sizing) returns (end: State)
    requires AllWellFormed(bars) && (HasBarriers(c) || Trails(c))
    ensures Run(c, bars, z, |bars|).Ok? && Outcome(c, bars, z) == Ok(end) && Lined(end)
    ensures forall i :: 0 <= i < |end.log| ==> Logged(c, bars, z, end, i)
    ensures forall k :: FreeFrom(end.log, |end.log|) <= k < |bars| ==> bars[k].signal == 0
  {
    hide Enters, Settle, Logged, Lined, LeftLive, Live, Fresh, Fill;
    if Run(c, bars, z, |bars|).Err? {
      OnlyUnsupportedFails(c, bars, z, |bars|);
      assert false;
    }
    RunTrades(c, bars, z, |bars|);
    var s := Run(c, bars, z, |bars|).value;
    end := s;
    if s.position.Some? && bars != [] {
      var h, last := s.position.value, |bars| - 1;
      var exit := Exit(Fill(bars[last].close, h.direction), EndOfData);
      OpenPositionLives(c, bars, z, |bars|);
      LeftAtTheEnd(c, bars, h);
      SettleLogs(c, bars, z, s, h, last, exit);
      end := Settle(s, h, last, exit);
    }
  }

  lemma LeftAtTheEnd(c: Candidate, bars: seq<Bar>, h: Holding)
    requires h.Tradable() && h.entryIndex < |bars| && Fresh(Origin(h)) && Live(c, Origin(h), bars, |bars|) == Held(h)
    ensures LeftLive(c, bars, Settled(h, |bars| - 1, Exit(Fill(bars[|bars| - 1].close, h.direction), EndOfData)))
  {
    hide Live, Fill;
  }

  // ---------------------------------------------------------------- wins

  /** How many of the first n trades had a gross profit ... */
  ghost function WinsTo(c: Candidate, bars: seq<Bar>, log: seq<Settled>, n: nat): nat
    requires n <= |log|
  {
    if n == 0 then 0
    else
      var e := log[n - 1];
      WinsTo(c, bars, log, n - 1)
      + if e.holding.entryPrice != 0.0 && GrossOf(c, bars, Origin(e.holding), e.at, e.exit) > 0.0 then 1 else 0
  }

  /** ... by the model's own closing. */
  function ClosedWinsTo(log: seq<Settled>, n: nat): nat
    requires n <= |log|
  {
    if n == 0 then 0
    else
      var e := log[n - 1];
      ClosedWinsTo(log, n - 1)
      + if e.holding.entryPrice != 0.0 && Closed(e.holding, e.exit.price).gross > 0.0 then 1 else 0
  }

  lemma {:induction false} WinsKeep(log: seq<Settled>, longer: seq<Settled>, curve: seq<real>, more: seq<real>, n: nat)
    requires log <= longer && curve <= more && n <= |log| && n < |curve|
    ensures ClosedWinsTo(log, n) == ClosedWinsTo(longer, n) && Trades.RisesOver(curve, n) == Trades.RisesOver(more, n)
  {
    hide Closed;
    if n > 0 {
      WinsKeep(log, longer, curve, more, n - 1);
    }
  }

  ghost predicate WinsCounted(s: State) {
    && Lined(s)
    && s.account.grossWins == ClosedWinsTo(s.log, |s.log|)
    && s.account.netWins == Trades.RisesOver(s.curve, |s.log|)
  }

  lemma SettleCountsWins(s: State, h: Holding, at: nat, exit: Exit)
    requires WinsCounted(s) && h.entryPrice > 0.0
    ensures WinsCounted(Settle(s, h, at, exit))
  {
    hide Closed, Drawdown.Deeper;
    var after := Settle(s, h, at, exit);
    LinedAfter(s, h, at, exit);
    WinsKeep(s.log, after.log, s.curve, after.curve, |s.log|);
    hide Paid;
  }

  lemma {:induction false} RunCountsWins(c: Candidate, bars: seq<Bar>, z: Sizing, n: nat)
    requires AllWellFormed(bars) && n <= |bars| && Run(c, bars, z, n).Ok?
    ensures WinsCounted(Run(c, bars, z, n).value)
  {
    hide Manage, Open, Settle;
    if n <= WARM_UP {
    } else {
      RunCountsWins(c, bars, z, n - 1);
      var s := Run(c, bars, z, n - 1).value;
      StepCases(c, s, bars[n - 1], n - 1, z);
      if s.position.Some? {
        ManageKeepsEntry(c, s.position.value, bars[n - 1], n - 1);
        var managed := Manage(c, s.position.value, bars[n - 1], n - 1).value;
        if managed.exit.Some? {
          SettleCountsWins(s, managed.holding, n - 1, managed.exit.value);
        }
      }
    }
  }

  lemma {:induction false} WinsAreOfLegs(c: Candidate, bars: seq<Bar>, log: seq<Settled>, n: nat)
    requires (HasBarriers(c) || Trails(c)) && n <= |log| && forall i :: 0 <= i < |log| ==> LeftLive(c, bars, log[i])
    ensures ClosedWinsTo(log, n) == WinsTo(c, bars, log, n)
  {
    hide LeftLive, Closed, GrossOf;
    if n > 0 {
      WinsAreOfLegs(c, bars, log, n - 1);
      GrossIsOfLegs(c, bars, log[n - 1]);
    }
  }

  /** Wins are the trades with a gross profit, and those after which equity is higher. */
  lemma WinsAreCounted(c: Candidate, bars: seq<Bar>, z: Sizing)
    requires AllWellFormed(bars) && (HasBarriers(c) || Trails(c))
    ensures var r := Outcome(c, bars, z);
            && r.Ok? && Lined(r.value)
            && r.value.account.grossWins == WinsTo(c, bars, r.value.log, |r.value.log|)
            && r.value.account.netWins == Trades.RisesOver(r.value.curve, |r.value.log|)
  {
    hide Settle, Logged, Lined, WinsCounted, LeftLive, Fill;
    var end := RunIsLogged(c, bars, z);
    RunCountsWins(c, bars, z, |bars|);
    var s := Run(c, bars, z, |bars|).value;
    if s.position.Some? && bars != [] {
      var h, last := s.position.value, |bars| - 1;
      SettleCountsWins(s, h, last, Exit(Fill(bars[last].close, h.direction), EndOfData));
    }
    forall i | 0 <= i < |end.log|
      ensures LeftLive(c, bars, end.log[i])
    {
      LoggedLeft(c, bars, z, end, i);
    }
    WinsAreOfLegs(c, bars, end.log, |end.log|);
    CountedMeans(end);
  }

  lemma CountedMeans(s: State)
    requires WinsCounted(s)
    ensures s.account.grossWins == ClosedWinsTo(s.log, |s.log|) && |s.log| < |s.curve|
    ensures s.account.netWins == Trades.RisesOver(s.curve, |s.log|)
  {
  }

  lemma LoggedLeft(c: Candidate, bars: seq<Bar>, z: Sizing, s: State, i: nat)
    requires Lined(s) && i < |s.log| && Logged(c, bars, z, s, i)
    ensures LeftLive(c, bars, s.log[i])
  {
  }
}
