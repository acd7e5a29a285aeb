/** Facts about products and quotients of reals. */
module Reals {
  function Max(a: real, b: real): real {
    if a >= b then a else b
  }

  function Min(a: real, b: real): real {
    if a <= b then a else b
  }

  lemma NonNegative(a: real, b: real)
    requires a >= 0.0 && b >= 0.0
    ensures a * b >= 0.0
  {
  }

  lemma Positive(a: real, b: real)
    requires a > 0.0 && b > 0.0
    ensures a * b > 0.0
  {
  }

  lemma Scale(a: real, b: real, d: real)
    requires d > 0.0
    ensures a <= b <==> a * d <= b * d
    ensures a < b <==> a * d < b * d
    ensures a == b <==> a * d == b * d
  {
    assert (b - a) * d == b * d - a * d;
    if a < b {
      Positive(b - a, d);
    } else if b < a {
      Positive(a - b, d);
      assert (a - b) * d == a * d - b * d;
    }
  }

  lemma QuotientTimes(x: real, d: real)
    requires d > 0.0
    ensures x / d * d == x
  {
  }

  lemma SumIsPositive(a: real, b: real)
    requires a >= 0.0 && b > 0.0
    ensures a + b / 4.0 > 0.0
  {
  }

  lemma SquaresGrow(a: real, b: real)
    requires 0.0 <= a < b
    ensures a * a < b * b
  {
    Positive(b + a, b - a);
    assert (b + a) * (b - a) == b * b - a * a;
  }
}
