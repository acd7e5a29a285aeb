/** The Wilson interval is the solution of the score equation it is named for. */
module WilsonScore {
  import opened Reals
  import opened Wilson

  /** At `x` the observed rate lies exactly `z` standard errors away, as `x` itself would have them. */
  ghost predicate OnScore(k: nat, n: nat, z: real, x: real)
    requires n > 0
  {
    n as real * Square(Rate(k, n) - x) == Square(z) * (x * (1.0 - x))
  }

  /** The equation without the sample size. */
  ghost predicate OnCurve(p: real, u: real, x: real) {
    Square(p - x) == u * (x * (1.0 - x))
  }

  lemma ScoreIsCurve(k: nat, n: nat, z: real, x: real)
    requires n > 0
    ensures OnScore(k, n, z, x) <==> OnCurve(Rate(k, n), Spread(n, z), x)
  {
    var size, a, u, b := n as real, Square(Rate(k, n) - x), Spread(n, z), x * (1.0 - x);
    SpreadFacts(n, z);
    hide Rate;
    hide Spread;
    hide Square;
    assert (u * b) * size == (u * size) * b;
    Scale(a, u * b, size);
  }

  // ---- The curve, scaled by w = 1 + u, is a circle around the scaled center ----

  function Product(a: real, b: real): real {
    a * b
  }

  function CurveAt(p: real, u: real, w: real, y: real): real {
    Square(w * p - y) - u * (y * (w - y))
  }

  function CircleAt(p: real, u: real, y: real): real {
    Square(y - (p + u / 2.0)) - Bound(p, u)
  }

  /** What both come to; the arguments are the products that occur. */
  function Expanded(u: real, w: real, y: real, pp: real, yp: real, yy: real): real {
    w * w * pp - 2.0 * (w * yp) + yy - (u * (w * y) - u * yy)
  }

  lemma SquareOfDifference(a: real, b: real)
    ensures Square(a - b) == a * a - 2.0 * (a * b) + b * b
  {
  }

  lemma CurveExpands(p: real, u: real, w: real, y: real)
    ensures CurveAt(p, u, w, y) == Expanded(u, w, y, p * p, y * p, y * y)
  {
    SquareOfDifference(w * p, y);
    assert (w * p) * (w * p) == w * w * (p * p);
    assert (w * p) * y == w * (y * p);
    assert y * (w - y) == w * y - y * y;
  }

  /** The scaled center, squared and multiplied. */
  lemma CenterProducts(p: real, u: real, y: real)
    ensures (p + u / 2.0) * (p + u / 2.0) == p * p + u * p + u * u / 4.0
    ensures 2.0 * (y * (p + u / 2.0)) == 2.0 * (y * p) + u * y
  {
  }

  lemma BoundExpands(p: real, u: real)
    ensures Bound(p, u) == u * p - u * (p * p) + u * u / 4.0
  {
    assert u * (p * (1.0 - p)) == u * p - u * (p * p);
  }

  lemma CircleExpands(p: real, u: real, y: real)
    ensures CircleAt(p, u, y) == y * y - 2.0 * (y * p) - u * y + p * p + u * (p * p)
  {
    SquareOfDifference(y, p + u / 2.0);
    CenterProducts(p, u, y);
    BoundExpands(p, u);
    hide Square;
    hide Bound;
  }

  lemma Distributes(u: real, w: real, pp: real, yp: real, y: real, yy: real, circle: real)
    requires w == 1.0 + u && circle == yy - 2.0 * yp - u * y + pp + u * pp
    ensures Product(w, circle) == Expanded(u, w, y, pp, yp, yy)
  {
    assert pp + u * pp == w * pp;
    assert w * (w * pp) == w * w * pp;
    assert w * yy == yy + u * yy;
    assert w * (u * y) == u * (w * y);
    assert w * (yy - 2.0 * yp - u * y + w * pp) == w * yy - 2.0 * (w * yp) - w * (u * y) + w * (w * pp);
  }

  lemma CurveIsScaledCircle(p: real, u: real, w: real, y: real)
    requires w == 1.0 + u
    ensures CurveAt(p, u, w, y) == Product(w, CircleAt(p, u, y))
  {
    hide *;
    CurveExpands(p, u, w, y);
    CircleExpands(p, u, y);
    Distributes(u, w, p * p, y * p, y, y * y, CircleAt(p, u, y));
  }

  lemma ScaledCurve(p: real, u: real, w: real, x: real)
    ensures Product(Product(w, w), Square(p - x) - u * (x * (1.0 - x))) == CurveAt(p, u, w, Product(x, w))
  {
    var y := x * w;
    assert w * p - y == w * (p - x);
    assert Square(w * (p - x)) == (w * w) * Square(p - x);
    assert w - y == w * (1.0 - x);
    assert y * (w - y) == (w * w) * (x * (1.0 - x));
    assert u * ((w * w) * (x * (1.0 - x))) == (w * w) * (u * (x * (1.0 - x)));
    assert (w * w) * Square(p - x) - (w * w) * (u * (x * (1.0 - x)))
        == (w * w) * (Square(p - x) - u * (x * (1.0 - x)));
  }

  lemma ZeroFactor(w: real, a: real)
    requires w > 0.0
    ensures Product(w, a) == 0.0 <==> a == 0.0
  {
  }

  lemma PositiveSquare(w: real)
    requires w > 0.0
    ensures Product(w, w) > 0.0
  {
    SquareIsPositive(w);
    assert Product(w, w) == Square(w);
  }

  lemma CurveIsCircle(p: real, u: real, w: real, x: real)
    requires w == 1.0 + u > 0.0
    ensures OnCurve(p, u, x) <==> CircleAt(p, u, Product(x, w)) == 0.0
  {
    var curve := Square(p - x) - u * (x * (1.0 - x));
    assert OnCurve(p, u, x) <==> curve == 0.0;
    hide *;
    ScaledCurve(p, u, w, x);
    CurveIsScaledCircle(p, u, w, Product(x, w));
    PositiveSquare(w);
    ZeroFactor(Product(w, w), curve);
    ZeroFactor(w, CircleAt(p, u, Product(x, w)));
  }

  lemma SameSquares(a: real, m: real)
    ensures Square(a) == Square(m) <==> a == m || a == -m
  {
    assert Square(a) - Square(m) == (a - m) * (a + m);
    if a != m && a != -m {
      NonZeroProduct(a - m, a + m);
    }
  }

  lemma NonZeroProduct(a: real, b: real)
    requires a != 0.0 && b != 0.0
    ensures a * b != 0.0
  {
  }

  lemma AtTheEnds(x: real, center: real, margin: real, c: real, m: real, w: real)
    requires w > 0.0 && center * w == c && margin * w == m
    ensures Product(x, w) - c == m <==> x == center + margin
    ensures Product(x, w) - c == -m <==> x == center - margin
  {
    assert (center + margin) * w == c + m && (center - margin) * w == c - m;
    Scale(x, center + margin, w);
    Scale(x, center - margin, w);
  }

  lemma CurveInUnit(p: real, u: real, x: real)
    requires OnCurve(p, u, x) && u >= 0.0 && 0.0 <= p <= 1.0
    ensures 0.0 <= x <= 1.0
  {
    if u == 0.0 {
      SameSquares(p - x, 0.0);
    } else if x < 0.0 {
      SquareIsPositive(p - x);
      Positive(-x, 1.0 - x);
      Positive(u, (-x) * (1.0 - x));
    } else if x > 1.0 {
      SquareIsPositive(p - x);
      Positive(x, x - 1.0);
      Positive(u, x * (x - 1.0));
    }
  }

  lemma EndsExactly(k: nat, n: nat, z: real, root: real, x: real)
    requires 0 < n && IsRoot(root, Radicand(k, n, z)) && 1.0 + Spread(n, z) != 0.0
    ensures OnScore(k, n, z, x) <==>
              x == Center(k, n, z) - Margin(n, z, root) || x == Center(k, n, z) + Margin(n, z, root)
  {
    hide *;
    var p, u, m := Rate(k, n), Spread(n, z), z * root;
    SpreadFacts(n, z);
    ScoreIsCurve(k, n, z, x);
    CurveIsCircle(p, u, 1.0 + u, x);
    MarginSquared(k, n, z, root);
    OnCircle(p, u, Product(x, 1.0 + u), m);
    SameSquares(Product(x, 1.0 + u) - (p + u / 2.0), m);
    CenterScaled(k, n, z);
    MarginScaled(n, z, root);
    AtTheEnds(x, Center(k, n, z), Margin(n, z, root), p + u / 2.0, m, 1.0 + u);
  }

  lemma OnCircle(p: real, u: real, y: real, m: real)
    requires Square(m) == Bound(p, u)
    ensures CircleAt(p, u, y) == 0.0 <==> Square(y - (p + u / 2.0)) == Square(m)
  {
    hide Square;
    hide Bound;
  }

  /** For a non-negative quantile, the two bounds of the interval are exactly the solutions of the score equation. */
  lemma IntervalSolvesScore(k: nat, n: nat, z: real, root: real)
    requires 0 < n && k <= n && z >= 0.0 && IsRoot(root, Radicand(k, n, z))
    ensures var (low, high) := WilsonCi(k, n, z, root);
            low <= high && forall x :: OnScore(k, n, z, x) <==> x == low || x == high
  {
    SpreadFacts(n, z);
    var below, above := Center(k, n, z) - Margin(n, z, root), Center(k, n, z) + Margin(n, z, root);
    InsideUnit(k, n, z, root, below);
    InsideUnit(k, n, z, root, above);
    assert WilsonCi(k, n, z, root) == (below, above);
    IntervalContainsRate(k, n, z, root);
    hide *;
    forall x ensures OnScore(k, n, z, x) <==> x == below || x == above {
      EndsExactly(k, n, z, root, x);
    }
  }

  lemma InsideUnit(k: nat, n: nat, z: real, root: real, x: real)
    requires 0 < n && k <= n && IsRoot(root, Radicand(k, n, z)) && 1.0 + Spread(n, z) != 0.0
    requires x == Center(k, n, z) - Margin(n, z, root) || x == Center(k, n, z) + Margin(n, z, root)
    ensures 0.0 <= x <= 1.0
  {
    hide *;
    SpreadFacts(n, z);
    RateInUnit(k, n);
    EndsExactly(k, n, z, root, x);
    ScoreIsCurve(k, n, z, x);
    CurveInUnit(Rate(k, n), Spread(n, z), x);
  }

  /** The square root is the number without sign whose square is given; there is one for every square. */
  lemma RootExactly(root: real, other: real)
    requires root >= 0.0
    ensures IsRoot(other, root * root) <==> other == root
  {
    if other < root && other >= 0.0 {
      SquaresGrow(other, root);
    } else if other > root {
      SquaresGrow(root, other);
    }
  }
}
