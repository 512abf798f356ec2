/** Rounding and ordering facts about the JavaScript `Math` functions the exercises use. */
module RealMath {

  /** `Math.floor` of a number. */
  function Floor(x: real): (f: int)
    ensures f as real <= x < f as real + 1.0
  {
    x.Floor
  }

  /** `Math.ceil` of a number. */
  function Ceil(x: real): (c: int)
    ensures c as real - 1.0 < x <= c as real
  {
    -((-x).Floor)
  }

  function MinInt(a: int, b: int): int { if a <= b then a else b }
  function MaxInt(a: int, b: int): int { if a >= b then a else b }
  function MinReal(a: real, b: real): real { if a <= b then a else b }
  function MaxReal(a: real, b: real): real { if a >= b then a else b }

  /** Rounding down keeps the order. */
  lemma FloorKeepsOrder(x: real, y: real)
    requires x <= y
    ensures Floor(x) <= Floor(y)
  {
  }

  /** Dividing by a positive number keeps the order. */
  lemma DivideKeepsOrder(a: real, b: real, d: real)
    requires d > 0.0
    ensures a <= b ==> a / d <= b / d
  {
  }

  /** A fraction of a non-negative number lies between 0 and the number. */
  lemma FractionOf(x: real, p: real)
    requires 0.0 <= p <= 1.0
    ensures x >= 0.0 ==> 0.0 <= x * p <= x
  {
  }

  /** Multiplying a ratio of integers by an integer multiplies its numerator. */
  lemma ScaledRatio(a: int, d: int, m: int)
    requires d > 0
    ensures (a as real / d as real) * m as real == (m * a) as real / d as real
  {
  }

  /** Rounding a ratio of integers down is integer division (which rounds down for a positive
      divisor). */
  lemma FloorOfRatio(a: int, d: int)
    requires d > 0
    ensures Floor(a as real / d as real) == a / d
  {
    var q, r := a / d, a % d;
    assert a as real == q as real * d as real + r as real;
    assert a as real / d as real == q as real + r as real / d as real;
    assert 0.0 <= r as real / d as real < 1.0;
  }
}
