/**
 * The numeric library functions the application relies on: Math.Ceiling,
 * Math.Round(value, 2) and Math.Round(value, 3) with the .NET default
 * midpoint rule (to even), and sums. Decimal and double values are both modelled as exact reals.
 */
module Numeric {

  /** Math.Ceiling: the least integer that is not below x. */
  function Ceiling(x: real): (r: int)
    ensures x <= r as real < x + 1.0
  {
    var f := x.Floor;
    if f as real == x then f else f + 1
  }

  lemma CeilingLeast(x: real, n: int)
    requires x <= n as real
    ensures Ceiling(x) <= n
  {
  }

  lemma CeilingMonotone(x: real, y: real)
    requires x <= y
    ensures Ceiling(x) <= Ceiling(y)
  {
    CeilingLeast(x, Ceiling(y));
  }

  /** Rounding to the nearest integer, a tie going to the even neighbour. */
  function RoundToEven(y: real): (n: int)
    ensures y - 0.5 <= n as real <= y + 0.5
    ensures (n as real == y - 0.5 || n as real == y + 0.5) ==> n % 2 == 0
  {
    var f := y.Floor;
    var frac := y - f as real;
    if frac < 0.5 then f
    else if frac > 0.5 then f + 1
    else if f % 2 == 0 then f
    else f + 1
  }

  lemma RoundToEvenOfInt(n: int)
    ensures RoundToEven(n as real) == n
  {
  }

  lemma RoundToEvenMonotone(x: real, y: real)
    requires x <= y
    ensures RoundToEven(x) <= RoundToEven(y)
  {
  }

  lemma DivideMonotone(a: real, b: real, s: real)
    requires a <= b && s > 0.0
    ensures a / s <= b / s
  {
    var q := b / s - a / s;
    assert q * s == b - a;
  }

  lemma DivideSign(a: real, s: real)
    requires s > 0.0
    ensures a / s > 0.0 <==> a > 0.0
    ensures (a / s) * s == a
  {
    if a > 0.0 {
      DivideMonotone(0.0, a, s);
      assert a / s != 0.0;
    } else {
      DivideMonotone(a, 0.0, s);
    }
  }

  /** Rounding to a multiple of 1/s. */
  function RoundAt(x: real, s: real): real
    requires s > 0.0
  {
    RoundToEven(x * s) as real / s
  }

  /** Math.Round(x, 2) on decimal (the default midpoint rule is to even). */
  function Round2(x: real): real {
    RoundAt(x, 100.0)
  }

  /** Math.Round(x, 3) on decimal. */
  function Round3(x: real): real {
    RoundAt(x, 1000.0)
  }

  /** Rounding moves a value by at most half a unit in the last kept digit. */
  lemma RoundAtClose(x: real, s: real)
    requires s > 0.0
    ensures -0.5 <= (RoundAt(x, s) - x) * s <= 0.5
  {
    var n := RoundToEven(x * s);
    DivideSign(n as real, s);
    assert (n as real / s - x) * s == n as real - x * s;
  }

  lemma RoundToEvenPositive(y: real)
    ensures RoundToEven(y) > 0 <==> y > 0.5
  {
  }

  /** A rounded value is positive exactly when the value exceeds half a unit. */
  lemma RoundAtPositive(x: real, s: real)
    requires s > 0.0
    ensures RoundAt(x, s) > 0.0 <==> x * s > 0.5
  {
    DivideSign(RoundToEven(x * s) as real, s);
    RoundToEvenPositive(x * s);
  }

  lemma MultiplyMonotone(a: real, b: real, s: real)
    requires a <= b && s > 0.0
    ensures a * s <= b * s
  {
    assert b * s - a * s == (b - a) * s;
  }

  lemma RoundAtMonotone(x: real, y: real, s: real)
    requires x <= y && s > 0.0
    ensures RoundAt(x, s) <= RoundAt(y, s)
  {
    MultiplyMonotone(x, y, s);
    RoundToEvenMonotone(x * s, y * s);
    DivideMonotone(RoundToEven(x * s) as real, RoundToEven(y * s) as real, s);
  }

  lemma RoundAtScaled(x: real, s: real, n: int)
    requires s > 0.0 && x * s == n as real
    ensures RoundAt(x, s) == n as real / s
  {
    RoundToEvenOfInt(n);
  }

  lemma RoundAtIdempotent(x: real, s: real)
    requires s > 0.0
    ensures RoundAt(RoundAt(x, s), s) == RoundAt(x, s)
  {
    var n := RoundToEven(x * s);
    var r := n as real / s;
    assert RoundAt(x, s) == r;
    DivideSign(n as real, s);
    assert r * s == n as real;
    RoundToEvenOfInt(n);
    RoundAtScaled(r, s, n);
  }

  function Sum(xs: seq<real>): real {
    if xs == [] then 0.0 else Sum(xs[..|xs| - 1]) + xs[|xs| - 1]
  }

  lemma {:induction false} SumAppend(xs: seq<real>, ys: seq<real>)
    ensures Sum(xs + ys) == Sum(xs) + Sum(ys)
    decreases |ys|
  {
    if ys == [] {
      assert xs + ys == xs;
    } else {
      assert (xs + ys)[..|xs + ys| - 1] == xs + ys[..|ys| - 1];
      SumAppend(xs, ys[..|ys| - 1]);
    }
  }

  lemma {:induction false} SumNonNegative(xs: seq<real>)
    requires forall i :: 0 <= i < |xs| ==> xs[i] >= 0.0
    ensures Sum(xs) >= 0.0
  {
    if xs != [] {
      SumNonNegative(xs[..|xs| - 1]);
    }
  }

  /** A sequence of n copies of c sums to n times c. */
  lemma {:induction false} SumConstant(xs: seq<real>, c: real)
    requires forall i :: 0 <= i < |xs| ==> xs[i] == c
    ensures Sum(xs) == |xs| as real * c
  {
    if xs != [] {
      SumConstant(xs[..|xs| - 1], c);
    }
  }

  // ---------------------------------------------------------------------
  // 32-bit integers

  const MaxInt32: int := 0x7FFF_FFFF

  predicate IsInt32(x: int) {
    -0x8000_0000 <= x <= MaxInt32
  }

  /** Unchecked 32-bit integer arithmetic: the value modulo 2^32 in the signed range. */
  function Wrap32(x: int): (r: int)
    ensures IsInt32(r)
    ensures IsInt32(x) ==> r == x
  {
    (x + 0x8000_0000) % 0x1_0000_0000 - 0x8000_0000
  }

  /** The wrapped value differs from the exact one by a multiple of 2^32, so it is the only such value in range. */
  lemma Wrap32Congruent(x: int)
    ensures (Wrap32(x) - x) % 0x1_0000_0000 == 0
    ensures forall y :: IsInt32(y) && (y - x) % 0x1_0000_0000 == 0 ==> y == Wrap32(x)
  {
  }
}
