/** The Wilson score interval over the reals. */
module Wilson {
  import opened Reals

  function Rate(k: nat, n: nat): real
    requires n > 0
  {
    k as real / n as real
  }

  /** z squared over the sample size. */
  function Spread(n: nat, z: real): real
    requires n > 0
  {
    z * z / n as real
  }

  /** The number under the square root of the margin. */
  function Radicand(k: nat, n: nat, z: real): real
    requires n > 0
  {
    Rate(k, n) * (1.0 - Rate(k, n)) / n as real + z * z / (4.0 * n as real * n as real)
  }

  predicate IsRoot(root: real, x: real) {
    root >= 0.0 && root * root == x
  }

  function Center(k: nat, n: nat, z: real): real
    requires n > 0 && 1.0 + Spread(n, z) != 0.0
  {
    (Rate(k, n) + z * z / (2.0 * n as real)) / (1.0 + Spread(n, z))
  }

  function Margin(n: nat, z: real, root: real): real
    requires n > 0 && 1.0 + Spread(n, z) != 0.0
  {
    z / (1.0 + Spread(n, z)) * root
  }

  /** The interval for `k` successes out of `n`; `root` is the square root of the radicand. */
  function WilsonCi(k: nat, n: nat, z: real, root: real): (real, real) {
    if n == 0 then (0.0, 0.0)
    else
      SpreadFacts(n, z);
      (Max(0.0, Center(k, n, z) - Margin(n, z, root)), Min(1.0, Center(k, n, z) + Margin(n, z, root)))
  }

  // ---- Squares ----

  function Square(x: real): real {
    x * x
  }

  lemma GrownSquare(a: real, d: real)
    requires 0.0 <= a && 0.0 < d
    ensures a * a < (a + d) * (a + d)
  {
    assert (a + d) * (a + d) == a * a + 2.0 * (a * d) + d * d;
    NonNegative(a, d);
    Positive(d, d);
  }

  lemma LargerSquare(a: real, b: real)
    requires 0.0 <= a < b
    ensures Square(a) < Square(b)
  {
    GrownSquare(a, b - a);
    assert a + (b - a) == b;
  }

  lemma SquareOfNegation(a: real)
    ensures Square(-a) == Square(a)
  {
  }

  lemma SquareIsPositive(a: real)
    requires a != 0.0
    ensures Square(a) > 0.0
  {
    SquareOfNegation(a);
    if a > 0.0 {
      LargerSquare(0.0, a);
    } else {
      LargerSquare(0.0, -a);
    }
  }

  lemma AbsoluteBound(offset: real, margin: real)
    requires margin >= 0.0 && Square(offset) <= Square(margin)
    ensures -margin <= offset <= margin
  {
    SquareOfNegation(offset);
    hide Square;
    if offset > margin {
      LargerSquare(margin, offset);
    } else if offset < -margin {
      LargerSquare(margin, -offset);
    }
  }

  // ---- The algebra of the interval, scaled by 1 + u where u is the spread ----

  /** The square of the scaled margin. */
  function Bound(p: real, u: real): real {
    u * (p * (1.0 - p)) + Square(u) / 4.0
  }

  /** The scaled distance from the center to the rate. */
  function Offset(p: real, u: real): real {
    u * (p - 0.5)
  }

  lemma OffsetWithinBound(p: real, u: real)
    requires 0.0 <= p <= 1.0 && u >= 0.0
    ensures Square(Offset(p, u)) <= Bound(p, u)
  {
    var q := p * (1.0 - p);
    NonNegative(p, 1.0 - p);
    NonNegative(u, q);
    NonNegative(u, u);
    NonNegative(u * u, q);
    assert (p - 0.5) * (p - 0.5) == 0.25 - q;
    assert (u * (p - 0.5)) * (u * (p - 0.5)) == (u * u) * ((p - 0.5) * (p - 0.5));
    assert (u * u) * (0.25 - q) == u * u / 4.0 - (u * u) * q;
  }

  lemma BoundIsPositive(p: real, u: real)
    requires 0.0 <= p <= 1.0 && u > 0.0
    ensures Bound(p, u) > 0.0
  {
    NonNegative(p, 1.0 - p);
    NonNegative(u, p * (1.0 - p));
    SquareIsPositive(u);
    hide Square;
    SumIsPositive(u * (p * (1.0 - p)), Square(u));
  }

  /** The scaled margin squared, from the radicand `r`; `zz` is z squared and `s2` the squared size. */
  lemma ScaledMargin(zz: real, r: real, size: real, s2: real, u: real, q: real)
    requires size > 0.0 && s2 > 0.0 && s2 == size * size
    requires u * size == zz && r == q / size + zz / (4.0 * s2)
    ensures zz * r == u * q + u * u / 4.0
  {
    assert q / size * size == q;
    assert zz / (4.0 * s2) * (4.0 * s2) == zz;
    assert r * (4.0 * s2) == 4.0 * q * size + zz by {
      assert q / size * (4.0 * s2) == 4.0 * (q / size * size) * size;
    }
    Scaled(zz, r, size, s2, u, q);
    Scale(zz * r, u * q + u * u / 4.0, 4.0 * s2);
  }

  lemma Scaled(zz: real, r: real, size: real, s2: real, u: real, q: real)
    requires s2 == size * size && u * size == zz && r * (4.0 * s2) == 4.0 * q * size + zz
    ensures (zz * r) * (4.0 * s2) == (u * q + u * u / 4.0) * (4.0 * s2)
  {
    calc {
      (zz * r) * (4.0 * s2);
      zz * (r * (4.0 * s2));
      zz * (4.0 * q * size + zz);
      4.0 * q * (zz * size) + zz * zz;
    }
    assert zz * size == u * s2;
    assert zz * zz == (u * size) * (u * size) == (u * u) * s2;
    assert (u * q + u * u / 4.0) * (4.0 * s2) == 4.0 * q * (u * s2) + (u * u) * s2;
  }

  // ---- The parts of the interval ----

  lemma RateInUnit(k: nat, n: nat)
    requires 0 < n && k <= n
    ensures 0.0 <= Rate(k, n) <= 1.0
  {
    var p, size := Rate(k, n), n as real;
    assert p * size == k as real;
    Scale(0.0, p, size);
    Scale(p, 1.0, size);
  }

  lemma QuotientSign(x: real, size: real)
    requires size > 0.0 && x >= 0.0
    ensures x / size >= 0.0 && (x > 0.0 ==> x / size > 0.0)
    ensures x / size * size == x && x / (2.0 * size) == x / size / 2.0
  {
    var q := x / size;
    assert q * size == x;
    Scale(0.0, q, size);
    var h := x / (2.0 * size);
    assert h * (2.0 * size) == x;
    Scale(h, q / 2.0, 2.0 * size);
  }

  lemma SpreadFacts(n: nat, z: real)
    requires n > 0
    ensures Spread(n, z) >= 0.0 && (z != 0.0 ==> Spread(n, z) > 0.0)
    ensures Spread(n, z) * n as real == Square(z) && z * z / (2.0 * n as real) == Spread(n, z) / 2.0
  {
    if z != 0.0 {
      SquareIsPositive(z);
    }
    QuotientSign(z * z, n as real);
  }

  lemma CenterScaled(k: nat, n: nat, z: real)
    requires n > 0 && Spread(n, z) >= 0.0
    ensures Center(k, n, z) * (1.0 + Spread(n, z)) == Rate(k, n) + Spread(n, z) / 2.0
  {
    SpreadFacts(n, z);
    hide Spread;
    hide Rate;
    QuotientTimes(Rate(k, n) + Spread(n, z) / 2.0, 1.0 + Spread(n, z));
  }

  lemma MarginScaled(n: nat, z: real, root: real)
    requires n > 0 && Spread(n, z) >= 0.0
    ensures Margin(n, z, root) * (1.0 + Spread(n, z)) == z * root
  {
    hide Spread;
    var d := 1.0 + Spread(n, z);
    QuotientTimes(z, d);
    assert z / d * root * d == (z / d * d) * root;
  }

  lemma MarginSquared(k: nat, n: nat, z: real, root: real)
    requires 0 < n && IsRoot(root, Radicand(k, n, z))
    ensures Square(z * root) == Bound(Rate(k, n), Spread(n, z))
  {
    var size := n as real;
    SpreadFacts(n, z);
    Positive(size, size);
    hide Rate;
    hide Spread;
    assert 4.0 * size * size == 4.0 * (size * size);
    ScaledMargin(z * z, root * root, size, size * size, Spread(n, z), Rate(k, n) * (1.0 - Rate(k, n)));
    assert (z * root) * (z * root) == (z * z) * (root * root);
  }

  /** Undoing the scaling of an offset and a margin. */
  lemma Unscale(p: real, u: real, center: real, margin: real, scaledMargin: real)
    requires u >= 0.0 && center * (1.0 + u) == p + u / 2.0 && margin * (1.0 + u) == scaledMargin
    requires -scaledMargin <= Offset(p, u) <= scaledMargin
    ensures center - margin <= p <= center + margin
  {
    assert (p - center) * (1.0 + u) == p * (1.0 + u) - center * (1.0 + u) == Offset(p, u);
    Scale(p - center, margin, 1.0 + u);
    Scale(-margin, p - center, 1.0 + u);
    assert (-margin) * (1.0 + u) == -scaledMargin;
  }

  /** For a non-negative quantile the interval lies in the unit interval and contains the rate. */
  lemma IntervalContainsRate(k: nat, n: nat, z: real, root: real)
    requires 0 < n && k <= n && z >= 0.0 && IsRoot(root, Radicand(k, n, z))
    ensures var (low, high) := WilsonCi(k, n, z, root);
            0.0 <= low <= Rate(k, n) <= high <= 1.0
  {
    hide Rate;
    hide Spread;
    hide Radicand;
    hide Square;
    hide Bound;
    hide Offset;
    hide Center;
    hide Margin;
    var p, u := Rate(k, n), Spread(n, z);
    RateInUnit(k, n);
    SpreadFacts(n, z);
    CenterScaled(k, n, z);
    MarginScaled(n, z, root);
    MarginSquared(k, n, z, root);
    OffsetWithinBound(p, u);
    NonNegative(z, root);
    AbsoluteBound(Offset(p, u), z * root);
    Unscale(p, u, Center(k, n, z), Margin(n, z, root), z * root);
  }

  lemma ZeroProduct(z: real)
    ensures Square(z * 0.0) == 0.0
  {
  }

  lemma NegativeMargin(z: real, root: real)
    requires z < 0.0 && root >= 0.0 && Square(z * root) > 0.0
    ensures z * root < 0.0
  {
    assert root != 0.0 by {
      ZeroProduct(z);
    }
    Positive(-z, root);
    assert (-z) * root == -(z * root);
  }

  /** With a negative quantile the interval is empty: it contains the rate exactly when the quantile is not negative. */
  lemma NegativeQuantileIsEmpty(k: nat, n: nat, z: real, root: real)
    requires 0 < n && k <= n && z < 0.0 && IsRoot(root, Radicand(k, n, z))
    ensures var (low, high) := WilsonCi(k, n, z, root);
            high < low
  {
    hide Rate;
    hide Spread;
    hide Radicand;
    hide Square;
    hide Bound;
    hide Center;
    hide Margin;
    var p, u := Rate(k, n), Spread(n, z);
    RateInUnit(k, n);
    SpreadFacts(n, z);
    CenterScaled(k, n, z);
    MarginScaled(n, z, root);
    MarginSquared(k, n, z, root);
    BoundIsPositive(p, u);
    NegativeMargin(z, root);
    Scale(Margin(n, z, root), 0.0, 1.0 + u);
    Scale(0.0, Center(k, n, z), 1.0 + u);
  }
}
