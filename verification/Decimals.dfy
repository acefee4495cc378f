/** The contract of the decimal library that the domain uses (shopspring/decimal v1.2.0).
    A decimal is the exact number it denotes. Add, Sub, Mul and Cmp are exact; Div rounds
    the quotient to 16 decimal places and Round(0) rounds to an integer, both half away from
    zero. */
module Decimals {
  type Decimal = real

  /** 10^16, for the 16 places of Div. */
  const SCALE: real := 10000000000000000.0

  function Abs(x: real): real { if x < 0.0 then -x else x }

  function HalfAway(x: real): int {
    if x >= 0.0 then (x + 0.5).Floor else -((0.5 - x).Floor)
  }

  /** To 16 decimal places. */
  function Places16(q: real): Decimal {
    HalfAway(q * SCALE) as real / SCALE
  }

  function Div(a: Decimal, b: Decimal): Decimal
    requires b != 0.0
  {
    Places16(a / b)
  }

  function Round0(a: Decimal): Decimal {
    HalfAway(a) as real
  }

  lemma HalfAwayBasics(x: real)
    ensures Abs(HalfAway(x) as real - x) <= 0.5
    ensures HalfAway(-x) == -HalfAway(x)
  {
  }

  lemma HalfAwayMonotone(x: real, y: real)
    requires x <= y
    ensures HalfAway(x) <= HalfAway(y)
  {
  }

  /** Sixteen places, the last of them rounded. */
  lemma TwoThirds()
    ensures Div(2.0, 3.0) == 0.6666666666666667
  {
    assert 2.0 / 3.0 * SCALE + 0.5 == 6666666666666667.0 + 1.0 / 6.0;
  }

  // ---------------------------------------------------------------- rounding twice

  /** To 16 places, then to an integer. */
  function Twice(q: real): int {
    HalfAway(Places16(q))
  }

  /** The magnitude lies just below a half-integer, by at most half a unit of the 16th
      place. */
  predicate JustBelowHalf(q: real) {
    var a := Abs(q);
    var fraction := a - a.Floor as real;
    0.5 - 0.5 / SCALE <= fraction < 0.5
  }

  lemma TwiceIsOdd(q: real)
    ensures Twice(-q) == -Twice(q)
  {
  }

  lemma TwiceMonotone(p: real, q: real)
    requires p <= q
    ensures Twice(p) <= Twice(q)
  {
    HalfAwayMonotone(p * SCALE, q * SCALE);
    HalfAwayMonotone(HalfAway(p * SCALE) as real / SCALE, HalfAway(q * SCALE) as real / SCALE);
  }

  lemma TwiceOfInt(n: int)
    ensures Twice(n as real) == n
  {
  }

  /** Half a unit, and half a unit of the 16th decimal place. */
  const MAX_ERROR: real := 0.5 + 0.5 / SCALE

  lemma TwiceError(q: real)
    ensures Abs(Twice(q) as real - q) <= MAX_ERROR
  {
  }

  /** Rounding twice on a non-negative number, by cases of its fraction. */
  lemma TwiceByFraction(q: real)
    requires q >= 0.0
    ensures var n := q.Floor;
            Twice(q) == if q - n as real < 0.5 - 0.5 / SCALE then n else n + 1
  {
    var n := q.Floor;
    var x := q * SCALE;
    var unit := n * 10000000000000000;
    assert unit as real == n as real * SCALE;
    var h := (x + 0.5).Floor;
    assert unit <= h <= unit + 10000000000000000;
    var r := h as real / SCALE;
    assert r * SCALE == h as real;
    if q - n as real < 0.5 - 0.5 / SCALE {
      assert h < unit + 5000000000000000;
      assert n as real <= r < n as real + 0.5;
    } else {
      assert h >= unit + 5000000000000000;
      assert n as real + 0.5 <= r <= n as real + 1.0;
    }
  }

  lemma OnceByFraction(q: real)
    requires q >= 0.0
    ensures HalfAway(q) == if q - q.Floor as real < 0.5 then q.Floor else q.Floor + 1
  {
  }

  /** Rounding twice equals rounding once if and only if the number does not lie just below
      a half-integer, and there the second rounding goes the wrong way. */
  lemma TwiceIsOnceIff(q: real)
    ensures Twice(q) == HalfAway(q) <==> !JustBelowHalf(q)
    ensures JustBelowHalf(q) ==> Abs(HalfAway(q) as real - q) < 0.5 < Abs(Twice(q) as real - q)
  {
    var a := Abs(q);
    TwiceByFraction(a);
    OnceByFraction(a);
    if q < 0.0 {
      TwiceIsOdd(q);
      HalfAwayBasics(q);
    }
  }
}
