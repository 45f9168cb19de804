/** Candles, and the read-only window through which a strategy sees a prefix of them. */
module CandleWindows {
  import opened Results

  datatype Candle = Candle(openedAt: int, open: real, high: real, low: real, close: real, volume: real) {
    predicate WellFormed() {
      && 0.0 < low <= open <= high
      && low <= close <= high
      && volume >= 0.0
    }
  }

  ghost predicate AllWellFormed(candles: seq<Candle>) {
    forall i :: 0 <= i < |candles| ==> candles[i].WellFormed()
  }

  function Highs(candles: seq<Candle>): seq<real> {
    seq(|candles|, i requires 0 <= i < |candles| => candles[i].high)
  }

  function Lows(candles: seq<Candle>): seq<real> {
    seq(|candles|, i requires 0 <= i < |candles| => candles[i].low)
  }

  function Opens(candles: seq<Candle>): seq<real> {
    seq(|candles|, i requires 0 <= i < |candles| => candles[i].open)
  }

  function Closes(candles: seq<Candle>): seq<real> {
    seq(|candles|, i requires 0 <= i < |candles| => candles[i].close)
  }

  function Volumes(candles: seq<Candle>): seq<real> {
    seq(|candles|, i requires 0 <= i < |candles| => candles[i].volume)
  }

  /** A Python slice bound against a sequence of length n: negative counts from the end, then clamped. */
  function SliceBound(i: int, n: nat): (b: nat)
    ensures b <= n
  {
    if i < 0 then (if i + n < 0 then 0 else i + n) else if i > n then n else i
  }

  /** Python's s[a:b] on an ordinary sequence. */
  function PySlice<T>(s: seq<T>, a: int, b: int): seq<T> {
    var lo, hi := SliceBound(a, |s|), SliceBound(b, |s|);
    if lo <= hi then s[lo..hi] else []
  }

  /** Python's s[i] on an ordinary sequence; None is the IndexError. */
  function PyIndex<T>(s: seq<T>, i: int): Option<T> {
    if 0 <= i < |s| then Some(s[i])
    else if -|s| <= i < 0 then Some(s[|s| + i])
    else None
  }

  /** A bound of a slice with a step: missing means the end the step comes from or goes to. */
  function StepBound(i: Option<int>, n: nat, lower: int, upper: int, missing: int): int {
    match i
    case None => missing
    case Some(b) => if b < 0 then (if b + n < lower then lower else b + n) else if b > upper then upper else b
  }

  /** Python's slice.indices. */
  function SliceIndices(n: nat, start: Option<int>, stop: Option<int>, step: int): (bounds: (int, int))
    ensures step > 0 ==> 0 <= bounds.0 && bounds.1 <= n
    ensures step < 0 ==> bounds.0 < n && -1 <= bounds.1
  {
    if step > 0 then (StepBound(start, n, 0, n, 0), StepBound(stop, n, 0, n, n))
    else (StepBound(start, n, -1, n - 1, n - 1), StepBound(stop, n, -1, n - 1, -1))
  }

  /** range(start, stop, step), inside [0, n). */
  function StepRange(n: nat, start: int, stop: int, step: int): (r: seq<int>)
    requires step != 0
    requires step > 0 ==> 0 <= start && stop <= n
    requires step < 0 ==> start < n && -1 <= stop
    ensures forall k :: 0 <= k < |r| ==> 0 <= r[k] < n && r[k] == start + k * step
    decreases if step > 0 then stop - start else start - stop
  {
    if (if step > 0 then start >= stop else start <= stop) then []
    else
      var rest := StepRange(n, start + step, stop, step);
      assert forall k :: 0 <= k < |rest| ==> rest[k] == start + (k + 1) * step;
      [start] + rest
  }

  /** The positions a slice with a step reads; None is the ValueError for step zero. */
  function Positions(n: nat, start: Option<int>, stop: Option<int>, step: int): (r: Option<seq<int>>)
    ensures r.Some? ==> forall k :: 0 <= k < |r.value| ==> 0 <= r.value[k] < n
  {
    if step == 0 then None
    else
      var (first, last) := SliceIndices(n, start, stop, step);
      Some(StepRange(n, first, last, step))
  }

  /** Python's s[start:stop:step] on an ordinary sequence. */
  function PySliceBy<T>(s: seq<T>, start: Option<int>, stop: Option<int>, step: int): Option<seq<T>> {
    match Positions(|s|, start, stop, step)
    case None => None
    case Some(positions) => Some(seq(|positions|, k requires 0 <= k < |positions| => s[positions[k]]))
  }

  /** A view of candles[start..end] that copies nothing. */
  datatype CandleWindow = CandleWindow(candles: seq<Candle>, start: nat, end: nat) {
    predicate Valid() {
      start <= end <= |candles|
    }

    function Length(): nat
      requires Valid()
    {
      end - start
    }

    function At(item: int): Option<Candle>
      requires Valid()
    {
      var index := if item < 0 then item + Length() else item;
      if index < 0 || index >= Length() then None else Some(candles[start + index])
    }

    function Slice(a: int, b: int): seq<Candle>
      requires Valid()
    {
      var lo, hi := SliceBound(a, Length()), SliceBound(b, Length());
      var count := if lo <= hi then hi - lo else 0;
      seq(count, k requires 0 <= k < count => candles[start + lo + k])
    }

    function SliceBy(from: Option<int>, to: Option<int>, step: int): Option<seq<Candle>>
      requires Valid()
    {
      match Positions(Length(), from, to, step)
      case None => None
      case Some(positions) => Some(seq(|positions|, k requires 0 <= k < |positions| => candles[start + positions[k]]))
    }

    /** What a copied slice would hold. */
    function Copy(): seq<Candle>
      requires Valid()
    {
      candles[start..end]
    }
  }

  /** Reading through the view is reading the copied slice: every index, every slice, every step, bounds or none. */
  lemma WindowIsItsCopy(w: CandleWindow, item: int, a: int, b: int, from: Option<int>, to: Option<int>, step: int)
    requires w.Valid()
    ensures w.At(item) == PyIndex(w.Copy(), item)
    ensures w.Slice(a, b) == PySlice(w.Copy(), a, b)
    ensures w.SliceBy(from, to, step) == PySliceBy(w.Copy(), from, to, step)
  {
    var viewed, copied := w.Slice(a, b), PySlice(w.Copy(), a, b);
    assert |viewed| == |copied|;
    assert viewed == copied;
    if step != 0 {
      assert w.SliceBy(from, to, step).value == PySliceBy(w.Copy(), from, to, step).value;
    }
  }

  /** A slice with both bounds and step one is the plain slice. */
  lemma StepOneIsPlain(w: CandleWindow, a: int, b: int)
    requires w.Valid()
    ensures w.SliceBy(Some(a), Some(b), 1) == Some(w.Slice(a, b))
  {
    var n := w.Length();
    var (first, last) := SliceIndices(n, Some(a), Some(b), 1);
    assert first == SliceBound(a, n) && last == SliceBound(b, n);
    StepOneCounts(n, first, last);
    assert w.SliceBy(Some(a), Some(b), 1).value == w.Slice(a, b);
  }

  lemma {:induction false} StepOneCounts(n: nat, first: int, last: int)
    requires 0 <= first && last <= n
    ensures |StepRange(n, first, last, 1)| == if first <= last then last - first else 0
    decreases last - first
  {
    if first < last {
      StepOneCounts(n, first + 1, last);
    } else {
      assert StepRange(n, first, last, 1) == [];
    }
  }

  /** The market view a strategy gets at an index: the last candleLimit candles up to and including it. */
  function ContextFor(candles: seq<Candle>, index: nat, candleLimit: nat): (w: CandleWindow)
    requires index < |candles|
    ensures w.Valid() && w.end == index + 1
    ensures w.Length() == if candleLimit <= index + 1 then candleLimit else index + 1
  {
    var start := if index + 1 - candleLimit < 0 then 0 else index + 1 - candleLimit;
    CandleWindow(candles, start, index + 1)
  }

  /** Seen from a window ending just after `index`, [-1-p:-1] is the p candles before `index`. */
  lemma PriorSlice(w: CandleWindow, index: nat, p: nat)
    requires w.Valid() && w.end == index + 1 && p + 1 <= w.Length()
    ensures w.Slice(-1 - p, -1) == w.candles[index - p..index]
    ensures w.At(-1 - p) == Some(w.candles[index - p])
  {
    assert w.Slice(-1 - p, -1) == w.candles[index - p..index];
  }

  // ---------------------------------------------------------------- what a slice holds

  /** Where an index points, counted from the end when it is negative. */
  function Resolved(i: int, n: nat): int {
    if i < 0 then i + n else i
  }

  predicate InSlice(n: nat, a: int, b: int, k: int) {
    0 <= k < n && Resolved(a, n) <= k < Resolved(b, n)
  }

  /** s[a:b] holds, in order, exactly the elements at positions from a up to b, both resolved. */
  lemma SliceHolds<T>(s: seq<T>, a: int, b: int) returns (lo: nat, hi: nat)
    ensures lo <= hi <= |s| && PySlice(s, a, b) == s[lo..hi]
    ensures forall k :: InSlice(|s|, a, b, k) <==> lo <= k < hi
  {
    lo, hi := SliceBound(a, |s|), SliceBound(b, |s|);
    if lo > hi {
      hi := lo;
    }
  }

  /** The first position s[start:stop:step] looks at: as resolved, brought into the sequence from the side it steps
      from, or the end it steps from. */
  function FirstLooked(n: nat, start: Option<int>, step: int): int {
    match start
    case None => if step > 0 then 0 else n - 1
    case Some(i) =>
      if step > 0 then (if Resolved(i, n) < 0 then 0 else Resolved(i, n))
      else if Resolved(i, n) > n - 1 then n - 1 else Resolved(i, n)
  }

  /** Stepping goes on as long as the position lies in the sequence and before the resolved stop. */
  predicate GoesOn(n: nat, stop: Option<int>, step: int, at: int) {
    && 0 <= at < n
    && match stop
       case None => true
       case Some(i) => if step > 0 then at < Resolved(i, n) else at > Resolved(i, n)
  }

  /** s[start:stop:step] reads every step-th position from the first on, for as long as stepping goes on. */
  lemma PositionsHold(n: nat, start: Option<int>, stop: Option<int>, step: int)
    requires step != 0
    ensures Positions(n, start, stop, step).Some?
    ensures var positions, first := Positions(n, start, stop, step).value, FirstLooked(n, start, step);
            && (forall k :: 0 <= k < |positions| ==>
                  positions[k] == first + k * step && GoesOn(n, stop, step, positions[k]))
            && (positions == [] ==> !GoesOn(n, stop, step, first))
            && (positions != [] ==> !GoesOn(n, stop, step, positions[|positions| - 1] + step))
  {
    var (first, last) := SliceIndices(n, start, stop, step);
    RangeStops(n, first, last, step);
    assert first == FirstLooked(n, start, step) || !GoesOn(n, stop, step, first);
  }

  /** A range ends where the next step would reach its stop. */
  lemma {:induction false} RangeStops(n: nat, start: int, stop: int, step: int)
    requires step != 0
    requires step > 0 ==> 0 <= start && stop <= n
    requires step < 0 ==> start < n && -1 <= stop
    ensures var r := StepRange(n, start, stop, step);
            && (forall k :: 0 <= k < |r| ==> if step > 0 then r[k] < stop else r[k] > stop)
            && (r == [] ==> if step > 0 then start >= stop else start <= stop)
            && (r != [] ==>
                  && r[0] == start
                  && if step > 0 then r[|r| - 1] + step >= stop else r[|r| - 1] + step <= stop)
    decreases if step > 0 then stop - start else start - stop
  {
    if !(if step > 0 then start >= stop else start <= stop) {
      RangeStops(n, start + step, stop, step);
      assert StepRange(n, start, stop, step) == [start] + StepRange(n, start + step, stop, step);
    }
  }
}
