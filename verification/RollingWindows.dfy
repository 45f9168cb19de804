/** Windows kept up to date one candle at a time: range by monotonic deques, average by a running total. */
module RollingWindows {
  import opened CandleWindows
  import PrecomputedMarket
  import opened Reals
  import opened Results

  /** A deque entry: a position among the observed values, and the value there. */
  datatype Entry = Entry(at: nat, value: real)

  /** With `max`, b is at least as high as a; without, at least as low. */
  predicate Beats(max: bool, a: real, b: real) {
    if max then a <= b else b <= a
  }

  function Extreme(max: bool, s: seq<real>): real
    requires s != []
  {
    if max then MaxOf(s) else MinOf(s)
  }

  /** Nothing from position `from` up to the entry's own beats the entry. */
  ghost predicate Answers(max: bool, values: seq<real>, from: nat, entry: Entry) {
    && from <= entry.at < |values| && entry.value == values[entry.at]
    && forall i :: from <= i <= entry.at ==> Beats(max, values[i], entry.value)
  }

  /** The first position entry k answers for. */
  ghost function From(earliest: nat, deque: seq<Entry>, k: nat): nat
    requires k < |deque|
  {
    if k == 0 then earliest else deque[k - 1].at + 1
  }

  ghost predicate Falling(max: bool, deque: seq<Entry>) {
    forall j, k :: 0 <= j < k < |deque| ==> deque[j].at < deque[k].at && !Beats(max, deque[j].value, deque[k].value)
  }

  ghost predicate Covering(max: bool, values: seq<real>, earliest: nat, deque: seq<Entry>) {
    forall k {:trigger From(earliest, deque, k)} :: 0 <= k < |deque| ==>
      Answers(max, values, From(earliest, deque, k), deque[k])
  }

  /** The deque holds, oldest first, the positions from `earliest` on that nothing later beats. */
  ghost predicate Monotonic(max: bool, values: seq<real>, earliest: nat, deque: seq<Entry>) {
    && Falling(max, deque) && Covering(max, values, earliest, deque)
    && (if deque == [] then earliest >= |values| else deque[|deque| - 1].at == |values| - 1)
  }

  /** The values after the last entry kept. */
  ghost function Uncovered(earliest: nat, deque: seq<Entry>): nat {
    if deque == [] then earliest else deque[|deque| - 1].at + 1
  }

  /** while deque and deque[-1] is beaten: pop; then append. */
  method Push(max: bool, ghost values: seq<real>, ghost earliest: nat, deque: seq<Entry>, index: nat, value: real)
    returns (next: seq<Entry>, ghost pops: nat)
    requires Monotonic(max, values, earliest, deque) && earliest <= |values| == index
    ensures Monotonic(max, values + [value], earliest, next)
    ensures |next| == |deque| - pops + 1
  {
    next, pops := deque, 0;
    while next != [] && Beats(max, next[|next| - 1].value, value)
      invariant |next| == |deque| - pops && Falling(max, next) && Covering(max, values, earliest, next)
      invariant Uncovered(earliest, next) <= |values|
      invariant forall i :: Uncovered(earliest, next) <= i < |values| ==> Beats(max, values[i], value)
      decreases |next|
    {
      PopStep(max, values, earliest, next, value);
      next := next[..|next| - 1];
      pops := pops + 1;
    }
    PushStep(max, values, earliest, next, value);
    next := next + [Entry(index, value)];
  }

  lemma PopStep(max: bool, values: seq<real>, earliest: nat, deque: seq<Entry>, value: real)
    requires deque != [] && Falling(max, deque) && Covering(max, values, earliest, deque)
    requires Beats(max, deque[|deque| - 1].value, value)
    requires forall i :: Uncovered(earliest, deque) <= i < |values| ==> Beats(max, values[i], value)
    ensures var rest := deque[..|deque| - 1];
            && Falling(max, rest) && Covering(max, values, earliest, rest)
            && Uncovered(earliest, rest) <= |values|
            && forall i :: Uncovered(earliest, rest) <= i < |values| ==> Beats(max, values[i], value)
  {
    var k := |deque| - 1;
    assert Answers(max, values, From(earliest, deque, k), deque[k]);
    CoveringPrefix(max, values, earliest, deque);
    assert Uncovered(earliest, deque[..k]) == From(earliest, deque, k);
  }

  lemma CoveringPrefix(max: bool, values: seq<real>, earliest: nat, deque: seq<Entry>)
    requires deque != [] && Covering(max, values, earliest, deque)
    ensures Covering(max, values, earliest, deque[..|deque| - 1])
  {
    hide Answers;
    var rest := deque[..|deque| - 1];
    forall j | 0 <= j < |rest|
      ensures Answers(max, values, From(earliest, rest, j), rest[j])
    {
      assert From(earliest, rest, j) == From(earliest, deque, j);
    }
  }

  lemma PushStep(max: bool, values: seq<real>, earliest: nat, kept: seq<Entry>, value: real)
    requires Falling(max, kept) && Covering(max, values, earliest, kept) && Uncovered(earliest, kept) <= |values|
    requires forall i :: Uncovered(earliest, kept) <= i < |values| ==> Beats(max, values[i], value)
    requires kept != [] ==> !Beats(max, kept[|kept| - 1].value, value)
    ensures Monotonic(max, values + [value], earliest, kept + [Entry(|values|, value)])
  {
    var next, more := kept + [Entry(|values|, value)], values + [value];
    forall k | 0 <= k < |next|
      ensures Answers(max, more, From(earliest, next, k), next[k])
    {
      if k < |kept| {
        assert From(earliest, next, k) == From(earliest, kept, k);
        assert Answers(max, values, From(earliest, kept, k), kept[k]);
      }
    }
    StillFalling(max, values, earliest, kept, value);
  }

  lemma StillFalling(max: bool, values: seq<real>, earliest: nat, kept: seq<Entry>, value: real)
    requires Falling(max, kept) && Covering(max, values, earliest, kept)
    requires kept != [] ==> !Beats(max, kept[|kept| - 1].value, value)
    ensures Falling(max, kept + [Entry(|values|, value)])
  {
    forall j | 0 <= j < |kept|
      ensures kept[j].at < |values| && !Beats(max, kept[j].value, value)
    {
      assert Answers(max, values, From(earliest, kept, j), kept[j]);
      assert j < |kept| - 1 ==> !Beats(max, kept[j].value, kept[|kept| - 1].value);
    }
  }

  /** while deque and deque[0] is too old: popleft. */
  method DropOld(max: bool, ghost values: seq<real>, ghost before: nat, deque: seq<Entry>, earliest: int)
    returns (next: seq<Entry>, ghost pops: nat)
    requires Monotonic(max, values, before, deque) && before <= NatPart(earliest) <= |values|
    ensures Monotonic(max, values, NatPart(earliest), next)
    ensures |next| == |deque| - pops
  {
    next, pops := deque, 0;
    ghost var from := before;
    while next != [] && next[0].at < earliest
      invariant |next| == |deque| - pops && before <= from <= NatPart(earliest)
      invariant Monotonic(max, values, from, next)
      decreases |next|
    {
      assert Answers(max, values, From(from, next, 0), next[0]);
      PopLeftStep(max, values, from, next);
      from := next[0].at + 1;
      next := next[1..];
      pops := pops + 1;
    }
    LaterStart(max, values, from, next, NatPart(earliest));
  }

  lemma PopLeftStep(max: bool, values: seq<real>, from: nat, deque: seq<Entry>)
    requires deque != [] && Monotonic(max, values, from, deque)
    ensures Monotonic(max, values, deque[0].at + 1, deque[1..])
  {
    var rest := deque[1..];
    forall k | 0 <= k < |rest|
      ensures Answers(max, values, From(deque[0].at + 1, rest, k), rest[k])
    {
      assert From(deque[0].at + 1, rest, k) == From(from, deque, k + 1);
    }
  }

  lemma LaterStart(max: bool, values: seq<real>, from: nat, deque: seq<Entry>, earliest: nat)
    requires Monotonic(max, values, from, deque) && from <= earliest <= |values|
    requires deque != [] ==> deque[0].at >= earliest
    ensures Monotonic(max, values, earliest, deque)
  {
    forall k | 0 <= k < |deque|
      ensures Answers(max, values, From(earliest, deque, k), deque[k])
    {
      assert Answers(max, values, From(from, deque, k), deque[k]);
    }
  }

  function NatPart(i: int): nat {
    if i < 0 then 0 else i
  }

  /** The front of the deque is the extreme of the window. */
  lemma FrontIsExtreme(max: bool, values: seq<real>, earliest: nat, deque: seq<Entry>)
    requires Monotonic(max, values, earliest, deque) && earliest < |values|
    ensures deque[0].value == Extreme(max, values[earliest..])
  {
    var window := values[earliest..];
    FrontBeats(max, values, earliest, deque, |deque| - 1);
    assert Answers(max, values, From(earliest, deque, 0), deque[0]);
    assert window[deque[0].at - earliest] == deque[0].value;
    assert forall i :: 0 <= i < |window| ==> Beats(max, window[i], deque[0].value);
  }

  lemma {:induction false} FrontBeats(max: bool, values: seq<real>, earliest: nat, deque: seq<Entry>, k: nat)
    requires Monotonic(max, values, earliest, deque) && k < |deque|
    ensures deque[k].at < |values|
    ensures forall i :: earliest <= i <= deque[k].at ==> Beats(max, values[i], deque[0].value)
  {
    assert Answers(max, values, From(earliest, deque, k), deque[k]);
    if k <= 0 {
    } else {
      FrontBeats(max, values, earliest, deque, k - 1);
      assert !Beats(max, deque[0].value, deque[k].value);
    }
  }

  /** The last `period` of what was observed: low and high, or None before there are that many. */
  function RangeOf(observed: seq<Candle>, period: nat): Option<(real, real)> {
    if |observed| < period then None else ExtremesOf(observed[|observed| - period..])
  }

  /** The lowest low and the highest high; None for an empty window. */
  function ExtremesOf(window: seq<Candle>): Option<(real, real)> {
    if window == [] then None else Some((MinOf(Lows(window)), MaxOf(Highs(window))))
  }

  /** What a range has observed since it was last reset, and the opening time it last saw. */
  datatype Seen = Seen(observed: seq<Candle>, lastOpenedAt: Option<int>)

  /** A call looks at the newest two candles: a repeated time adds nothing, an earlier one starts over. */
  function Observe(seen: Seen, w: CandleWindow): Seen
    requires w.Valid() && w.Length() >= 2
  {
    var latest, previous := w.At(-1).value, w.At(-2).value;
    if seen.lastOpenedAt == Some(latest.openedAt) then seen
    else
      var kept := if seen.lastOpenedAt.Some? && latest.openedAt < seen.lastOpenedAt.value then [] else seen.observed;
      Seen(kept + [previous], Some(latest.openedAt))
  }

  class RollingRange {
    const period: nat
    var index: nat
    var lastOpenedAt: Option<int>
    var highs: seq<Entry>
    var lows: seq<Entry>
    ghost var observed: seq<Candle>
    ghost var pushes: nat
    ghost var pops: nat

    ghost predicate Valid()
      reads this
    {
      && index == |observed|
      && Monotonic(true, Highs(observed), NatPart(index - period), highs)
      && Monotonic(false, Lows(observed), NatPart(index - period), lows)
      && |highs| + |lows| + pops == pushes == 2 * index
    }

    constructor (period: nat)
      ensures Valid() && this.period == period && observed == [] && lastOpenedAt == None
    {
      this.period := period;
      index, lastOpenedAt, highs, lows := 0, None, [], [];
      observed, pushes, pops := [], 0, 0;
    }

    /** __init__ called again. */
    method Reset()
      modifies this
      ensures Valid() && observed == [] && lastOpenedAt == None
    {
      index, lastOpenedAt, highs, lows := 0, None, [], [];
      observed, pushes, pops := [], 0, 0;
    }

    /** Every append pushes two entries; pops so far never exceed pushes, so the amortized cost is constant. */
    method Append(candle: Candle)
      requires Valid()
      modifies this
      ensures Valid() && observed == old(observed) + [candle] && lastOpenedAt == old(lastOpenedAt)
      ensures pops <= pushes == old(pushes) + 2
    {
      hide Monotonic, Highs, Lows;
      ghost var hs, ls, before := Highs(observed), Lows(observed), NatPart(index - period);
      ghost var p1, p2, p3, p4;
      ColumnsAppend(observed, candle);
      highs, p1 := Push(true, hs, before, highs, index, candle.high);
      lows, p2 := Push(false, ls, before, lows, index, candle.low);
      index := index + 1;
      highs, p3 := DropOld(true, hs + [candle.high], before, highs, index - period);
      lows, p4 := DropOld(false, ls + [candle.low], before, lows, index - period);
      observed := observed + [candle];
      pushes, pops := pushes + 2, pops + p1 + p2 + p3 + p4;
    }

    method CurrentRange() returns (result: Option<(real, real)>)
      requires Valid()
      ensures result == RangeOf(observed, period)
    {
      hide Falling, MaxOf, MinOf, Highs, Lows;
      ColumnLengths(observed);
      if index < period || highs == [] || lows == [] {
        return None;
      }
      ghost var earliest := index - period;
      ColumnTails(observed, earliest);
      assert Answers(true, Highs(observed), From(earliest, highs, 0), highs[0]);
      FrontIsExtreme(true, Highs(observed), earliest, highs);
      FrontIsExtreme(false, Lows(observed), earliest, lows);
      result := Some((lows[0].value, highs[0].value));
    }

    /** The query the strategies make: observe the newest closed candle, then answer for the last `period` observed. */
    method Range(w: CandleWindow) returns (result: Option<(real, real)>)
      requires Valid() && w.Valid() && w.Length() >= 2
      modifies this
      ensures Valid() && Seen(observed, lastOpenedAt) == Observe(old(Seen(observed, lastOpenedAt)), w)
      ensures var latest, previous := w.candles[w.end - 1], w.candles[w.end - 2];
              && lastOpenedAt == Some(latest.openedAt)
              && observed ==
                 if old(lastOpenedAt) == Some(latest.openedAt) then old(observed)
                 else if old(lastOpenedAt).Some? && latest.openedAt < old(lastOpenedAt).value then [previous]
                 else old(observed) + [previous]
      ensures result == RangeOf(observed, period)
    {
      hide Monotonic, RangeOf, Highs, Lows;
      var latest := w.At(-1).value;
      if lastOpenedAt == Some(latest.openedAt) {
        result := CurrentRange();
        return;
      }
      if lastOpenedAt.Some? && latest.openedAt < lastOpenedAt.value {
        Reset();
      }
      Append(w.At(-2).value);
      lastOpenedAt := Some(latest.openedAt);
      result := CurrentRange();
    }
  }

  lemma ColumnLengths(candles: seq<Candle>)
    ensures |Highs(candles)| == |Lows(candles)| == |candles|
  {
  }

  lemma ColumnTails(candles: seq<Candle>, from: nat)
    requires from <= |candles|
    ensures Highs(candles)[from..] == Highs(candles[from..])
    ensures Lows(candles)[from..] == Lows(candles[from..])
  {
  }

  lemma ColumnsAppend(candles: seq<Candle>, candle: Candle)
    ensures |Highs(candles)| == |Lows(candles)| == |candles|
    ensures Highs(candles + [candle]) == Highs(candles) + [candle.high]
    ensures Lows(candles + [candle]) == Lows(candles) + [candle.low]
  {
  }

  // ---------------------------------------------------------------- against slicing

  ghost predicate InTimeOrder(candles: seq<Candle>) {
    forall i, j :: 0 <= i < j < |candles| ==> candles[i].openedAt < candles[j].openedAt
  }

  /** What a fresh range has seen after calls at first, first + 1, ..., first + count - 1. */
  function SeenFrom(candles: seq<Candle>, candleLimit: nat, first: nat, count: nat): Seen
    requires candleLimit >= 2 && first >= 1 && first + count <= |candles|
  {
    if count == 0 then Seen([], None)
    else Observe(SeenFrom(candles, candleLimit, first, count - 1), ContextFor(candles, first + count - 1, candleLimit))
  }

  lemma {:induction false} ConsecutiveCallsSeeEveryCandle(
      candles: seq<Candle>, candleLimit: nat, first: nat, count: nat)
    requires InTimeOrder(candles) && candleLimit >= 2 && first >= 1 && first + count <= |candles|
    ensures SeenFrom(candles, candleLimit, first, count) ==
            Seen(candles[first - 1..first - 1 + count],
                 if count == 0 then None else Some(candles[first + count - 1].openedAt))
  {
    hide Observe;
    if count <= 0 {
    } else {
      ConsecutiveCallsSeeEveryCandle(candles, candleLimit, first, count - 1);
      var i := first + count - 1;
      ObserveNext(SeenFrom(candles, candleLimit, first, count - 1), candles, candleLimit, i);
      SliceGrows(candles, first - 1, i);
    }
  }

  lemma ObserveNext(seen: Seen, candles: seq<Candle>, candleLimit: nat, i: nat)
    requires candleLimit >= 2 && 1 <= i < |candles|
    requires seen.lastOpenedAt.Some? ==> seen.lastOpenedAt.value < candles[i].openedAt
    ensures Observe(seen, ContextFor(candles, i, candleLimit)) ==
            Seen(seen.observed + [candles[i - 1]], Some(candles[i].openedAt))
  {
    hide CandleWindow.Slice, CandleWindow.At;
    var w := ContextFor(candles, i, candleLimit);
    PriorSlice(w, i, 0);
    PriorSlice(w, i, 1);
  }

  lemma SliceGrows(candles: seq<Candle>, from: nat, to: nat)
    requires from < to <= |candles|
    ensures candles[from..to] == candles[from..to - 1] + [candles[to - 1]]
  {
  }

  /** On consecutive calls, once `period` candles were observed, the rolling range is the low and high of the slice
      [-period-1:-1] of the view, which holds `period` candles; before that it is None. */
  lemma ConsecutiveCallsMatchTheSlice(candles: seq<Candle>, candleLimit: nat, first: nat, count: nat, period: nat)
    requires InTimeOrder(candles) && first >= 1 && count >= 1 && first + count <= |candles|
    requires period >= 1 && candleLimit >= period + 1
    ensures var window := ContextFor(candles, first + count - 1, candleLimit).Slice(-1 - period, -1);
            && (count >= period ==> |window| == period)
            && RangeOf(SeenFrom(candles, candleLimit, first, count).observed, period) ==
               if count < period then None else ExtremesOf(window)
  {
    hide SeenFrom, CandleWindow.Slice, ExtremesOf, InTimeOrder;
    var i := first + count - 1;
    var observed := ObservedInARow(candles, candleLimit, first, count);
    if count >= period {
      SliceOfView(candles, candleLimit, i, period);
      TailOfSlice(candles, first - 1, i, period);
    }
  }

  lemma ObservedInARow(candles: seq<Candle>, candleLimit: nat, first: nat, count: nat) returns (observed: seq<Candle>)
    requires InTimeOrder(candles) && candleLimit >= 2 && first >= 1 && first + count <= |candles|
    ensures observed == SeenFrom(candles, candleLimit, first, count).observed == candles[first - 1..first - 1 + count]
    ensures |observed| == count
  {
    hide SeenFrom, InTimeOrder;
    ConsecutiveCallsSeeEveryCandle(candles, candleLimit, first, count);
    observed := candles[first - 1..first - 1 + count];
  }

  lemma SliceOfView(candles: seq<Candle>, candleLimit: nat, i: nat, period: nat)
    requires 1 <= period <= i < |candles| && candleLimit >= period + 1
    ensures ContextFor(candles, i, candleLimit).Slice(-1 - period, -1) == candles[i - period..i]
  {
    hide CandleWindow.Slice;
    PriorSlice(ContextFor(candles, i, candleLimit), i, period);
  }

  lemma TailOfSlice<T>(s: seq<T>, from: nat, to: nat, count: nat)
    requires from <= to <= |s| && count <= to - from
    ensures s[from..to][to - from - count..] == s[to - count..to]
  {
  }

  // ---------------------------------------------------------------- the rolling average

  class RollingAverage {
    const period: nat
    var values: seq<real>
    var total: real
    var lastOpenedAt: Option<int>
    /** Every volume taken in so far. */
    ghost var observed: seq<real>

    ghost predicate Valid()
      reads this
    {
      && period > 0
      && IsTail(values, observed)
      && |values| == (if |observed| < period then |observed| else period)
      && total == Sum(values)
    }

    constructor (period: nat)
      requires period > 0
      ensures Valid() && observed == [] && this.period == period && lastOpenedAt == None
    {
      this.period := period;
      values, total, lastOpenedAt, observed := [], 0.0, None, [];
    }

    /** The running total over the deque is the mean of the last `period` volumes, and 0 before there are that many. */
    method Average(candle: Candle) returns (average: real)
      requires Valid()
      modifies this
      ensures Valid() && lastOpenedAt == Some(candle.openedAt)
      ensures observed ==
              if old(lastOpenedAt) == Some(candle.openedAt) then old(observed) else old(observed) + [candle.volume]
      ensures average == if |observed| < period then 0.0 else PrecomputedMarket.Average(observed[|observed| - period..])
    {
      hide Sum, Quotient, IsTail, PrecomputedMarket.Average;
      if lastOpenedAt != Some(candle.openedAt) {
        lastOpenedAt := Some(candle.openedAt);
        SumAppend(values, candle.volume);
        values := values + [candle.volume];
        total := total + candle.volume;
        observed := observed + [candle.volume];
        TailGrows(old(observed), old(values), candle.volume);
        while |values| > period
          invariant IsTail(values, observed) && total == Sum(values)
          invariant |values| <= |observed| && (|values| >= period || |values| == |observed|)
          invariant lastOpenedAt == Some(candle.openedAt) && observed == old(observed) + [candle.volume]
          decreases |values|
        {
          TailShrinks(observed, values);
          SumTail(values);
          total := total - values[0];
          values := values[1..];
        }
      }
      average := if |values| < period then 0.0 else Quotient(total, |values|);
      if |values| >= period {
        MeanOfTail(values, observed, total);
      }
    }
  }

  /** The deque holds the newest values of s. */
  predicate IsTail(tail: seq<real>, s: seq<real>) {
    |tail| <= |s| && tail == s[|s| - |tail|..]
  }

  lemma TailGrows(s: seq<real>, tail: seq<real>, x: real)
    requires IsTail(tail, s)
    ensures IsTail(tail + [x], s + [x])
  {
  }

  lemma TailShrinks(s: seq<real>, tail: seq<real>)
    requires IsTail(tail, s) && tail != []
    ensures IsTail(tail[1..], s)
  {
  }

  lemma SumTail(s: seq<real>)
    requires s != []
    ensures Sum(s) == s[0] + Sum(s[1..])
  {
  }

  lemma MeanOfTail(tail: seq<real>, s: seq<real>, total: real)
    requires IsTail(tail, s) && tail != [] && total == Sum(tail)
    ensures |tail| <= |s| && Quotient(total, |tail|) == PrecomputedMarket.Average(s[|s| - |tail|..])
  {
  }
}
