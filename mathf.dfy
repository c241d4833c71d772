/**
 * The handful of Mathf operations the game rules rely on, on Dafny's
 * unbounded integers and exact reals (float rounding error is not modelled).
 */
module Mathf {

  /** int.MaxValue of the source's 32-bit `int`. */
  const IntMax: int := 0x7fff_ffff

  datatype Option<T> = None | Some(value: T)

  /** A position in world space; only carried around, never computed on. */
  datatype Vec3 = Vec3(x: real, y: real, z: real)

  function MaxInt(a: int, b: int): (r: int)
    ensures r >= a && r >= b && (r == a || r == b)
  {
    if a >= b then a else b
  }

  function MinInt(a: int, b: int): (r: int)
    ensures r <= a && r <= b && (r == a || r == b)
  {
    if a <= b then a else b
  }

  function MaxReal(a: real, b: real): (r: real)
    ensures r >= a && r >= b && (r == a || r == b)
  {
    if a >= b then a else b
  }

  function MinReal(a: real, b: real): (r: real)
    ensures r <= a && r <= b && (r == a || r == b)
  {
    if a <= b then a else b
  }

  /** Mathf.Abs on floats. */
  function Abs(x: real): (r: real)
    ensures r >= 0.0 && (r == x || r == -x)
  {
    if x < 0.0 then -x else x
  }

  /** Mathf.Clamp on ints, for lo <= hi. */
  function ClampInt(x: int, lo: int, hi: int): (r: int)
    requires lo <= hi
    ensures lo <= r <= hi
    ensures lo <= x <= hi ==> r == x
    ensures x < lo ==> r == lo
    ensures x > hi ==> r == hi
  {
    if x < lo then lo else if x > hi then hi else x
  }

  /** Mathf.Clamp01. */
  function Clamp01(x: real): (r: real)
    ensures 0.0 <= r <= 1.0
    ensures 0.0 <= x <= 1.0 ==> r == x
    ensures x >= 1.0 ==> r == 1.0
    ensures x <= 0.0 ==> r == 0.0
  {
    if x < 0.0 then 0.0 else if x > 1.0 then 1.0 else x
  }

  /**
   * C#'s integer `/`, which truncates toward zero (Dafny's `/` is Euclidean);
   * only positive divisors occur here.
   */
  function DivTrunc(a: int, b: int): (r: int)
    requires b > 0
    ensures a >= 0 ==> r == a / b
    ensures a <= 0 ==> r <= 0
  {
    if a >= 0 then a / b else -((-a) / b)
  }

  predicate IsEven(n: int) {
    n % 2 == 0
  }

  /**
   * Mathf.RoundToInt, which is .NET's Math.Round: to the nearest integer,
   * and on an exact half to the even neighbour ("banker's rounding").
   */
  function RoundToInt(x: real): (r: int)
    ensures -0.5 <= r as real - x <= 0.5
    ensures r as real - x == 0.5 || x - r as real == 0.5 ==> IsEven(r)
  {
    var f := x.Floor;
    var frac := x - f as real;
    if frac < 0.5 then f
    else if frac > 0.5 then f + 1
    else if IsEven(f) then f
    else f + 1
  }

  /** The two ensures of RoundToInt pin its result down: any integer that meets them is it. */
  lemma RoundToIntUnique(x: real, n: int)
    requires -0.5 <= n as real - x <= 0.5
    requires n as real - x == 0.5 || x - n as real == 0.5 ==> IsEven(n)
    ensures RoundToInt(x) == n
  {
    // Two distinct integers within 1/2 of x would be 1 apart and both on a
    // tie, and only one of them is even.
    var r := RoundToInt(x);
    assert r == n + 1 || r == n || r == n - 1;
  }

  /** An integer stays itself. */
  lemma RoundIntegral(n: int)
    ensures RoundToInt(n as real) == n
  {
    RoundToIntUnique(n as real, n);
  }

  /** Rounding never goes below an integer lower bound of its argument. */
  lemma RoundAtLeast(x: real, n: int)
    requires x >= n as real
    ensures RoundToInt(x) >= n
  {
  }

  /** Rounding is monotone: a larger argument never rounds lower. */
  lemma RoundMonotone(x: real, y: real)
    requires x <= y
    ensures RoundToInt(x) <= RoundToInt(y)
  {
    var a, b := RoundToInt(x), RoundToInt(y);
    if a > b {
      // Both are within 1/2 of their arguments, so a == b + 1 and x, y sit
      // on the same tie; only one of two neighbours is even.
      assert a == b + 1;
      assert x == y;
    }
  }

  /** t * d, for a share t of a span d: within the span when the span is non-negative. */
  function Scaled(t: real, d: real): (r: real)
    requires 0.0 <= t <= 1.0
    ensures d >= 0.0 ==> 0.0 <= r <= d
  {
    if d >= 0.0 then ScaledWithin(t, d); t * d else t * d
  }

  /** A share in [0, 1] of a non-negative span stays within the span. */
  lemma ScaledWithin(t: real, d: real)
    requires 0.0 <= t <= 1.0 && d >= 0.0
    ensures 0.0 <= t * d <= d
  {
    assert d - t * d == (1.0 - t) * d;
  }

  /** Sum of a sequence of integers, peeled from the back (the order a loop appends in). */
  function Sum(s: seq<int>): int
  {
    if s == [] then 0 else Sum(s[..|s| - 1]) + s[|s| - 1]
  }

  lemma {:induction false} SumAppend(s: seq<int>, t: seq<int>)
    ensures Sum(s + t) == Sum(s) + Sum(t)
    decreases |t|
  {
    if t == [] {
      assert s + t == s;
    } else {
      assert (s + t)[..|s + t| - 1] == s + t[..|t| - 1];
      SumAppend(s, t[..|t| - 1]);
    }
  }
}
