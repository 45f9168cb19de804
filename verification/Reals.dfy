/** Extremes, sums and powers of real sequences: the reference notions the fast forms are compared with. */
module Reals {

  function Max(a: real, b: real): real {
    if a < b then b else a
  }

  function Min(a: real, b: real): real {
    if b < a then b else a
  }

  function Abs(a: real): real {
    if a < 0.0 then -a else a
  }

  /** The distance from b up to a, in the given unit. */
  function Gap(a: real, b: real, unit: real): real
    requires unit != 0.0
  {
    (a - b) / unit
  }

  /** That part of a whole. */
  function Part(ratio: real, whole: real): real {
    ratio * whole
  }

  /** The largest element: it occurs, and nothing exceeds it. */
  function MaxOf(s: seq<real>): (m: real)
    requires s != []
    ensures m in s
    ensures forall i :: 0 <= i < |s| ==> s[i] <= m
  {
    if |s| == 1 then s[0] else
      var rest := MaxOf(s[1..]);
      assert forall i :: 1 <= i < |s| ==> s[i] == s[1..][i - 1];
      Max(s[0], rest)
  }

  /** The smallest element: it occurs, and nothing lies below it. */
  function MinOf(s: seq<real>): (m: real)
    requires s != []
    ensures m in s
    ensures forall i :: 0 <= i < |s| ==> m <= s[i]
  {
    if |s| == 1 then s[0] else
      var rest := MinOf(s[1..]);
      assert forall i :: 1 <= i < |s| ==> s[i] == s[1..][i - 1];
      Min(s[0], rest)
  }

  /** A shorter window has narrower extremes. */
  lemma SuffixExtremes(s: seq<real>, drop: nat)
    requires drop < |s|
    ensures MaxOf(s[drop..]) <= MaxOf(s)
    ensures MinOf(s[drop..]) >= MinOf(s)
  {
    var m :| 0 <= m < |s| - drop && s[drop..][m] == MaxOf(s[drop..]);
    var n :| 0 <= n < |s| - drop && s[drop..][n] == MinOf(s[drop..]);
    assert s[drop + m] <= MaxOf(s) && s[drop + n] >= MinOf(s);
  }

  function Quotient(total: real, count: nat): real
    requires count > 0
  {
    total / count as real
  }

  function Sum(s: seq<real>): real {
    if s == [] then 0.0 else s[0] + Sum(s[1..])
  }

  lemma {:induction false} SumAppend(s: seq<real>, x: real)
    ensures Sum(s + [x]) == Sum(s) + x
  {
    if s == [] {
      assert s + [x] == [x];
    } else {
      assert (s + [x])[1..] == s[1..] + [x];
      SumAppend(s[1..], x);
    }
  }

  function Power(b: real, n: nat): real {
    if n == 0 then 1.0 else b * Power(b, n - 1)
  }

  lemma {:induction false} PowerPositive(b: real, n: nat)
    requires b > 0.0
    ensures Power(b, n) > 0.0
  {
    if n <= 0 {
    } else {
      PowerPositive(b, n - 1);
    }
  }

  /** x / d is on the same side of k as x is of k * d. */
  lemma QuotientCompare(x: real, d: real, k: real)
    requires d > 0.0
    ensures x / d >= k <==> x >= k * d
    ensures x / d > k <==> x > k * d
  {
    var q := x / d;
    assert q * d == x;
    ProductOrder(q, k, d);
    ProductOrder(k, q, d);
  }

  lemma ProductOrder(a: real, b: real, d: real)
    requires d > 0.0
    ensures a < b ==> a * d < b * d
  {
  }

  lemma ProductMonotone(a: real, b: real, d: real)
    requires d >= 0.0
    ensures a <= b ==> a * d <= b * d
  {
  }
}
