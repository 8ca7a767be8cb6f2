/** The arithmetic the parser applies to its double values. Values are
    real numbers, so rounding is not modelled: `+`, `-`, `*` and negation are
    exact. Each operator is a named function, so that a proof about the
    parser can follow which operator was applied to which operands without
    reasoning about the arithmetic itself.

    `/=`, `%=` and `Math.pow` have no exact counterpart in `real` in every
    case. Where the source's result is an infinity or NaN (a zero divisor, a
    zero base raised to a negative power) these functions give 0. `Pow`
    also gives 0 for every non-integral exponent, whatever `Math.pow`
    returns there (it is exactly 2 for 4 to the power 0.5). No property of
    the model relies on these stand-ins. */
module Doubles {

  function Add(a: real, b: real): real { a + b }

  function Sub(a: real, b: real): real { a - b }

  function Mul(a: real, b: real): real { a * b }

  function Neg(a: real): real { -a }

  /** `a / b`, as the division tier applies it. */
  function Div(a: real, b: real): (r: real)
    ensures b != 0.0 ==> r * b == a
  {
    if b == 0.0 then 0.0 else a / b
  }

  /** The integer part of `x`, rounding toward zero. */
  function Trunc(x: real): (n: int)
    ensures 0.0 <= x ==> 0.0 <= n as real <= x < n as real + 1.0
    ensures x < 0.0 ==> n as real - 1.0 < x <= n as real <= 0.0
  {
    if x >= 0.0 then x.Floor else -((-x).Floor)
  }

  /** `a % b` on doubles: what is left of `a` once `b` times the quotient
      truncated toward zero is taken away. */
  function Rem(a: real, b: real): (r: real)
    ensures b != 0.0 ==> (a - r) / b == Trunc(a / b) as real
    ensures b == 0.0 ==> r == 0.0
  {
    if b == 0.0 then 0.0 else a - b * (Trunc(a / b) as real)
  }

  /** The remainder is smaller than the divisor in magnitude and takes the
      sign of the dividend. */
  lemma RemSign(a: real, b: real)
    requires b != 0.0
    ensures 0.0 <= a ==> 0.0 <= Rem(a, b) < Abs(b)
    ensures a < 0.0 ==> -Abs(b) < Rem(a, b) <= 0.0
  {
    var f := RemFraction(a, b);
    ScaledBounds(b, f, Rem(a, b));
  }

  /** `Rem(a, b)` is `b` times the fractional part of the quotient, and that
      fractional part has the sign of the quotient. */
  lemma RemFraction(a: real, b: real) returns (f: real)
    requires b != 0.0
    ensures Rem(a, b) == b * f
    ensures -1.0 < f < 1.0
    ensures (0.0 <= a) == (0.0 < b) ==> 0.0 <= f
    ensures (0.0 <= a) != (0.0 < b) ==> f <= 0.0
  {
    var q := a / b;
    f := q - Trunc(q) as real;
    RemScaled(a, b);
    QuotientSign(a, b);
  }

  lemma ScaledBounds(b: real, f: real, r: real)
    requires b != 0.0 && -1.0 < f < 1.0 && r == b * f
    ensures 0.0 <= f && 0.0 < b ==> 0.0 <= r < Abs(b)
    ensures f <= 0.0 && 0.0 < b ==> -Abs(b) < r <= 0.0
    ensures 0.0 <= f && b < 0.0 ==> -Abs(b) < r <= 0.0
    ensures f <= 0.0 && b < 0.0 ==> 0.0 <= r < Abs(b)
  {
    if 0.0 < b {
      assert Abs(b) == b;
      if 0.0 <= f { ProductBelow(b, f, r); }
      if f <= 0.0 { ProductBelow(b, -f, -r); }
    } else {
      assert Abs(b) == -b;
      if 0.0 <= f { ProductBelow(-b, f, -r); }
      if f <= 0.0 { ProductBelow(-b, -f, r); }
    }
  }

  lemma ProductBelow(p: real, f: real, r: real)
    requires 0.0 < p && 0.0 <= f < 1.0 && r == p * f
    ensures 0.0 <= r < p
  {
  }

  lemma RemScaled(a: real, b: real)
    requires b != 0.0
    ensures Rem(a, b) == b * (a / b - Trunc(a / b) as real)
  {
    assert b * (a / b) == a;
  }

  lemma QuotientSign(a: real, b: real)
    requires b != 0.0
    ensures 0.0 < b && 0.0 <= a ==> 0.0 <= a / b
    ensures 0.0 < b && a < 0.0 ==> a / b < 0.0
    ensures b < 0.0 && 0.0 <= a ==> a / b <= 0.0
    ensures b < 0.0 && a < 0.0 ==> 0.0 < a / b
  {
    var q := a / b;
    assert a == b * q;
    if b > 0.0 {
      if q < 0.0 { assert b * q < 0.0; }
      if a < 0.0 { assert q < 0.0; }
    } else {
      if q < 0.0 { assert b * q > 0.0; }
      if a > 0.0 { assert q < 0.0; }
    }
  }

  function Abs(x: real): real { if x < 0.0 then -x else x }

  /** `base` multiplied by itself `n` times. */
  function IntPow(base: real, n: nat): (r: real)
    ensures base != 0.0 ==> r != 0.0
  {
    if n == 0 then 1.0 else IntPow(base, n - 1) * base
  }

  /** `Math.pow(base, exponent)` for an integral exponent. */
  function Pow(base: real, exponent: real): (r: real)
    ensures exponent == 0.0 ==> r == 1.0
    ensures base != 0.0 && exponent == exponent.Floor as real ==> r != 0.0
    ensures base != 0.0 && exponent == exponent.Floor as real && exponent < 0.0 ==>
              r * IntPow(base, -exponent.Floor) == 1.0
    ensures exponent != exponent.Floor as real ==> r == 0.0
  {
    if exponent != exponent.Floor as real then 0.0
    else if exponent >= 0.0 then IntPow(base, exponent.Floor)
    else if base == 0.0 then 0.0
    else 1.0 / IntPow(base, -exponent.Floor)
  }

  /** On a whole-number exponent `Math.pow` is repeated multiplication. */
  lemma PowNat(base: real, n: nat)
    ensures Pow(base, n as real) == IntPow(base, n)
  {
    assert (n as real).Floor == n;
  }
}
