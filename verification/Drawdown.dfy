/** Drawdown of an equity curve: one pass with a running peak, against the worst pair. */
module Drawdown {
  import opened Reals

  /** The relative fall from `peak` to `value`; nothing when the peak is not positive. */
  function Fall(peak: real, value: real): real {
    if peak > 0.0 then (peak - value) / peak else 0.0
  }

  /** The deepest fall below the highest value so far. */
  function Deepest(curve: seq<real>): real {
    if curve == [] then 0.0
    else Max(Deepest(curve[..|curve| - 1]), Fall(MaxOf(curve), curve[|curve| - 1]))
  }

  lemma {:induction false} MaxOfAppend(s: seq<real>, x: real)
    requires s != []
    ensures MaxOf(s + [x]) == Max(MaxOf(s), x)
  {
    var m :| 0 <= m < |s| && s[m] == MaxOf(s);
    assert (s + [x])[m] == MaxOf(s) && (s + [x])[|s|] == x;
    var n :| 0 <= n <= |s| && (s + [x])[n] == MaxOf(s + [x]);
  }

  /** How the running peak and drawdown move when the curve grows. */
  lemma DeepestAppend(curve: seq<real>, x: real)
    requires curve != []
    ensures Deepest(curve + [x]) == Max(Deepest(curve), Fall(Max(MaxOf(curve), x), x))
  {
    MaxOfAppend(curve, x);
    assert (curve + [x])[..|curve|] == curve;
  }

  /** One step of the running drawdown: nothing is recorded while the peak is not positive. */
  function Deeper(drawdown: real, peak: real, value: real): real {
    if peak > 0.0 then Max(drawdown, (peak - value) / peak) else drawdown
  }

  lemma {:induction false} DeepestNonNegative(curve: seq<real>)
    ensures Deepest(curve) >= 0.0
  {
    if curve == [] {
    } else {
      DeepestNonNegative(curve[..|curve| - 1]);
    }
  }

  /** A running peak and drawdown that follow a curve keep following it. */
  lemma DeeperFollows(curve: seq<real>, x: real)
    requires curve != []
    ensures MaxOf(curve + [x]) == Max(MaxOf(curve), x)
    ensures Deepest(curve + [x]) == Deeper(Deepest(curve), Max(MaxOf(curve), x), x)
  {
    MaxOfAppend(curve, x);
    DeepestAppend(curve, x);
    DeepestNonNegative(curve);
  }

  /** The one-pass form. */
  method OnePass(equities: seq<real>) returns (result: real)
    ensures result == Deepest(equities)
  {
    if equities == [] {
      return 0.0;
    }
    var peak := equities[0];
    result := 0.0;
    for i := 0 to |equities|
      invariant i == 0 ==> peak == equities[0] && result == 0.0
      invariant i > 0 ==> peak == MaxOf(equities[..i]) && result == Deepest(equities[..i])
    {
      var value := equities[i];
      assert equities[..i + 1] == equities[..i] + [value];
      if i > 0 {
        DeeperFollows(equities[..i], value);
      } else {
        assert equities[..1] == [value];
        assert Deepest([value]) == Max(Deepest([]), Fall(MaxOf([value]), value));
      }
      peak := Max(peak, value);
      result := Deeper(result, peak, value);
    }
    assert equities[..|equities|] == equities;
  }

  ghost predicate NonNegative(curve: seq<real>) {
    forall i :: 0 <= i < |curve| ==> curve[i] >= 0.0
  }

  lemma FallFromHigher(low: real, high: real, value: real)
    requires 0.0 < low <= high && value >= 0.0
    ensures Fall(low, value) <= Fall(high, value)
  {
    var fall := Fall(low, value);
    assert fall * low == low - value;
    QuotientCompare(low - value, low, 1.0);
    assert fall * (high - low) <= high - low;
    assert fall * high == fall * low + fall * (high - low);
    QuotientCompare(high - value, high, fall);
  }

  /** On a nonnegative curve no pair falls further than the one-pass drawdown, which lies in [0, 1] ... */
  lemma {:induction false} NoPairFallsFurther(curve: seq<real>, i: nat, j: nat)
    requires NonNegative(curve) && i <= j < |curve|
    ensures Fall(curve[i], curve[j]) <= Deepest(curve)
    ensures 0.0 <= Deepest(curve) <= 1.0
    decreases |curve|
  {
    hide Fall;
    var n := |curve| - 1;
    var before := curve[..n];
    FallBounds(MaxOf(curve), curve[n]);
    if j < n {
      NoPairFallsFurther(before, i, j);
    } else {
      FallBelowPeak(curve[i], MaxOf(curve), curve[n]);
      if n > 0 {
        NoPairFallsFurther(before, 0, 0);
      }
    }
  }

  /** ... and some pair falls that far, so it is the largest fall over all pairs. */
  lemma {:induction false} SomePairFallsThatFar(curve: seq<real>) returns (i: nat, j: nat)
    requires NonNegative(curve) && curve != []
    ensures i <= j < |curve| && Fall(curve[i], curve[j]) == Deepest(curve)
    decreases |curve|
  {
    var n := |curve| - 1;
    var before := curve[..n];
    if n > 0 {
      i, j := SomePairFallsThatFar(before);
    } else {
      i, j := 0, 0;
    }
    if n == 0 || Deepest(curve) == Fall(MaxOf(curve), curve[n]) {
      i :| 0 <= i < |curve| && curve[i] == MaxOf(curve);
      j := n;
    }
  }

  lemma FallBounds(peak: real, value: real)
    requires 0.0 <= value <= peak
    ensures 0.0 <= Fall(peak, value) <= 1.0
    ensures value > 0.0 ==> Fall(peak, value) < 1.0
  {
    if peak > 0.0 {
      QuotientCompare(peak - value, peak, 0.0);
      QuotientCompare(peak - value, peak, 1.0);
    }
  }

  lemma FallBelowPeak(value: real, peak: real, last: real)
    requires 0.0 <= value <= peak && 0.0 <= last <= peak
    ensures Fall(value, last) <= Fall(peak, last)
  {
    if value > 0.0 {
      FallFromHigher(value, peak, last);
    } else {
      FallBounds(peak, last);
    }
  }

  /** While equity stays positive, drawdown stays below one. */
  lemma {:induction false} PositiveCurveKeepsDrawdownBelowOne(curve: seq<real>)
    requires forall i :: 0 <= i < |curve| ==> curve[i] > 0.0
    ensures 0.0 <= Deepest(curve) < 1.0
    decreases |curve|
  {
    if curve == [] {
    } else {
      hide Fall;
      PositiveCurveKeepsDrawdownBelowOne(curve[..|curve| - 1]);
      FallBounds(MaxOf(curve), curve[|curve| - 1]);
    }
  }

  // ---------------------------------------------------------------- curves that go negative

  /** The one-pass form looks at every value against the peak before it. */
  lemma {:induction false} FallsFromPeaksCount(curve: seq<real>, j: nat)
    requires j < |curve|
    ensures Fall(MaxOf(curve[..j + 1]), curve[j]) <= Deepest(curve)
    decreases |curve|
  {
    hide Fall, MaxOf;
    var n := |curve| - 1;
    if j < n {
      FallsFromPeaksCount(curve[..n], j);
      assert curve[..n][..j + 1] == curve[..j + 1];
    } else {
      assert curve[..j + 1] == curve;
    }
  }

  /** It is nothing, or the fall of some value from the peak before it. */
  lemma {:induction false} DeepestIsAFallFromAPeak(curve: seq<real>) returns (k: nat)
    ensures Deepest(curve) != 0.0 ==> k < |curve| && Deepest(curve) == Fall(MaxOf(curve[..k + 1]), curve[k])
    decreases |curve|
  {
    hide Fall, MaxOf;
    k := 0;
    if curve == [] {
    } else {
      var n := |curve| - 1;
      if Deepest(curve) == Fall(MaxOf(curve), curve[n]) {
        k := n;
        assert curve[..n + 1] == curve;
      } else {
        k := DeepestIsAFallFromAPeak(curve[..n]);
        assert Deepest(curve) != 0.0 ==> curve[..n][..k + 1] == curve[..k + 1];
      }
    }
  }

  /** In proportion to a, x is no lower than y in proportion to b. */
  predicate NoLower(x: real, a: real, y: real, b: real) {
    x * b >= y * a
  }

  /** Falls compare by cross-multiplying. */
  lemma FallsCompare(a: real, x: real, b: real, y: real)
    requires a > 0.0 && b > 0.0
    ensures Fall(a, x) <= Fall(b, y) <==> NoLower(x, a, y, b)
  {
    var f, g := Fall(a, x), Fall(b, y);
    assert f * a == a - x && g * b == b - y;
    assert f * (a * b) == (f * a) * b == a * b - x * b;
    assert g * (a * b) == (g * b) * a == a * b - y * a;
    assert a * b > 0.0;
    ProductOrder(f, g, a * b);
    ProductOrder(g, f, a * b);
  }

  lemma SameLevel(x: real, a: real, b: real)
    requires x < 0.0 && NoLower(x, a, x, b) && a <= b
    ensures a == b
  {
    ProductOrder(a, b, -x);
  }

  /** No pair falls further than the running peak shows. */
  ghost predicate PeaksTellAll(curve: seq<real>) {
    forall i, j :: 0 <= i <= j < |curve| ==> Fall(curve[i], curve[j]) <= Deepest(curve)
  }

  /** The negative value at k follows positive values of one level only, that at p, and no negative value is lower in
      proportion to a positive value before it. */
  ghost predicate LowestFromOneLevel(curve: seq<real>, p: nat, k: nat) {
    && p < k < |curve| && curve[k] < 0.0 < curve[p]
    && (forall i :: 0 <= i < k && curve[i] > 0.0 ==> curve[i] == curve[p])
    && (forall i, j :: 0 <= i < j < |curve| && curve[j] < 0.0 < curve[i] ==>
          NoLower(curve[j], curve[i], curve[k], curve[p]))
  }

  ghost predicate NeverFromPositiveToNegative(curve: seq<real>) {
    forall i, j :: 0 <= i < j < |curve| && curve[i] > 0.0 ==> curve[j] >= 0.0
  }

  /** For every curve: the one-pass drawdown is the worst pair exactly when no negative value follows a positive one, or
      the proportionally lowest negative value comes while only one positive level has been seen. */
  lemma OnePassIsWorstPairIff(curve: seq<real>)
    ensures PeaksTellAll(curve) <==>
            NeverFromPositiveToNegative(curve) || exists p: nat, k: nat :: LowestFromOneLevel(curve, p, k)
  {
    hide LowestFromOneLevel, PeaksTellAll;
    if NeverFromPositiveToNegative(curve) {
      NoNegativesTellAll(curve);
    } else if p: nat, k: nat :| LowestFromOneLevel(curve, p, k) {
      OneLevelTellsAll(curve, p, k);
    } else if PeaksTellAll(curve) {
      var p, k := WorstPairIsFromOneLevel(curve);
    }
  }

  lemma NoNegativesTellAll(curve: seq<real>)
    requires NeverFromPositiveToNegative(curve)
    ensures PeaksTellAll(curve)
  {
    hide Deepest, MaxOf;
    forall i, j | 0 <= i <= j < |curve|
      ensures Fall(curve[i], curve[j]) <= Deepest(curve)
    {
      DeepestNonNegative(curve);
      if curve[i] > 0.0 {
        FromPeakIsFurther(curve, i, j);
      }
    }
  }

  lemma OneLevelTellsAll(curve: seq<real>, p: nat, k: nat)
    requires LowestFromOneLevel(curve, p, k)
    ensures PeaksTellAll(curve)
  {
    hide Deepest, MaxOf, NoLower;
    forall i, j | 0 <= i <= j < |curve|
      ensures Fall(curve[i], curve[j]) <= Deepest(curve)
    {
      DeepestNonNegative(curve);
      if curve[i] > 0.0 && curve[j] >= 0.0 {
        FromPeakIsFurther(curve, i, j);
      } else if curve[i] > 0.0 {
        FallsCompare(curve[i], curve[j], curve[p], curve[k]);
        OneLevelIsThePeak(curve, p, k);
        hide Fall;
      }
    }
  }

  lemma FromPeakIsFurther(curve: seq<real>, i: nat, j: nat)
    requires i <= j < |curve| && curve[i] > 0.0 && curve[j] >= 0.0
    ensures Fall(curve[i], curve[j]) <= Deepest(curve)
  {
    var window := curve[..j + 1];
    assert window[i] == curve[i];
    FallFromHigher(curve[i], MaxOf(window), curve[j]);
    FallsFromPeaksCount(curve, j);
  }

  lemma OneLevelIsThePeak(curve: seq<real>, p: nat, k: nat)
    requires LowestFromOneLevel(curve, p, k)
    ensures MaxOf(curve[..k + 1]) == curve[p] && Fall(curve[p], curve[k]) <= Deepest(curve)
  {
    var window := curve[..k + 1];
    assert window[p] == curve[p];
    var m :| 0 <= m <= k && window[m] == MaxOf(window);
    FallsFromPeaksCount(curve, k);
  }

  lemma WorstPairIsFromOneLevel(curve: seq<real>) returns (p: nat, k: nat)
    requires PeaksTellAll(curve) && !NeverFromPositiveToNegative(curve)
    ensures LowestFromOneLevel(curve, p, k)
  {
    hide Fall, Deepest, MaxOf, NoLower;
    var i, j :| 0 <= i < j < |curve| && curve[i] > 0.0 && curve[j] < 0.0;
    FallsPastOne(curve[i], curve[j]);
    assert Fall(curve[i], curve[j]) <= Deepest(curve);
    k := DeepestIsAFallFromAPeak(curve);
    var window := curve[..k + 1];
    FallsPastOne(MaxOf(window), curve[k]);
    p :| 0 <= p <= k && window[p] == MaxOf(window);
    forall a | 0 <= a < k && curve[a] > 0.0
      ensures curve[a] == curve[p]
    {
      assert Fall(curve[a], curve[k]) <= Deepest(curve);
      FallsCompare(curve[a], curve[k], curve[p], curve[k]);
      assert window[a] == curve[a];
      SameLevel(curve[k], curve[a], curve[p]);
    }
    forall a, b | 0 <= a < b < |curve| && curve[b] < 0.0 < curve[a]
      ensures NoLower(curve[b], curve[a], curve[k], curve[p])
    {
      assert Fall(curve[a], curve[b]) <= Deepest(curve);
      FallsCompare(curve[a], curve[b], curve[p], curve[k]);
    }
  }

  /** Only a value below zero falls by more than everything. */
  lemma FallsPastOne(peak: real, value: real)
    ensures Fall(peak, value) > 1.0 <==> peak > 0.0 && value < 0.0
  {
    if peak > 0.0 {
      QuotientCompare(peak - value, peak, 1.0);
    }
  }

  ghost predicate OneLevel(curve: seq<real>) {
    forall i, j :: 0 <= i < j < |curve| && curve[i] > 0.0 && curve[j] > 0.0 ==> curve[i] == curve[j]
  }

  /** When only the last value is negative: exactly when all positive values before it are equal. */
  lemma NegativeOnlyAtTheEnd(curve: seq<real>)
    requires curve != [] && curve[|curve| - 1] < 0.0 && NonNegative(curve[..|curve| - 1])
    ensures PeaksTellAll(curve) <==> OneLevel(curve)
  {
    hide PeaksTellAll, NoLower;
    var n := |curve| - 1;
    assert forall i :: 0 <= i < n ==> curve[i] == curve[..n][i];
    OnePassIsWorstPairIff(curve);
    if OneLevel(curve) {
      if p :| 0 <= p < n && curve[p] > 0.0 {
        OneLevelIsLowest(curve, p, n);
      }
    }
  }

  lemma OneLevelIsLowest(curve: seq<real>, p: nat, n: nat)
    requires p < n == |curve| - 1 && curve[n] < 0.0 < curve[p] && OneLevel(curve)
    requires forall i :: 0 <= i < n ==> curve[i] >= 0.0
    ensures LowestFromOneLevel(curve, p, n)
  {
    forall i, j | 0 <= i < j < |curve| && curve[j] < 0.0 < curve[i]
      ensures NoLower(curve[j], curve[i], curve[n], curve[p])
    {
      assert j == n;
      assert curve[i] == curve[p];
    }
  }

  /** A curve on which the two differ: from 2, 1 to -1 the running peak gives 3/2, the pair (1, -1) gives 2. */
  lemma NegativeEquityBreaksThePairing()
    ensures Deepest([2.0, 1.0, -1.0]) == 1.5
    ensures Fall(1.0, -1.0) == 2.0
    ensures !PeaksTellAll([2.0, 1.0, -1.0])
  {
    var a, b, c := [2.0], [2.0, 1.0], [2.0, 1.0, -1.0];
    assert c[..2] == b && b[..1] == a && a[..0] == [];
    assert b == a + [1.0] && c == b + [-1.0];
    MaxOfAppend(a, 1.0);
    MaxOfAppend(b, -1.0);
    assert Deepest(a) == 0.0;
    assert Deepest(b) == 0.5;
    assert Fall(c[1], c[2]) == 2.0;
  }
}
