/** The exact two-sided McNemar test on discordant pairs, in exact arithmetic. */
module McNemar {
  import opened Reals

  // ---- Binomial coefficients ----

  function Comb(n: nat, k: nat): nat {
    if k == 0 then 1 else if n == 0 then 0 else Comb(n - 1, k - 1) + Comb(n - 1, k)
  }

  function Factorial(n: nat): nat {
    if n == 0 then 1 else n * Factorial(n - 1)
  }

  function Pow2(n: nat): (p: nat)
    ensures p > 0
  {
    if n == 0 then 1 else 2 * Pow2(n - 1)
  }

  /** The number of outcomes with fewer than `k` successes: the sum of the first `k` coefficients of a row. */
  function SumBelow(n: nat, k: nat): nat {
    if k == 0 then 0 else SumBelow(n, k - 1) + Comb(n, k - 1)
  }

  lemma {:induction false} CombBeyond(n: nat, k: nat)
    requires k > n
    ensures Comb(n, k) == 0
  {
    if n > 0 {
      CombBeyond(n - 1, k - 1);
      CombBeyond(n - 1, k);
    }
  }

  lemma {:induction false} CombFull(n: nat)
    ensures Comb(n, n) == 1
  {
    if n > 0 {
      CombFull(n - 1);
      CombBeyond(n - 1, n);
    }
  }

  lemma {:induction false} CombPositive(n: nat, k: nat)
    requires k <= n
    ensures Comb(n, k) > 0
  {
    if 0 < k {
      CombPositive(n - 1, k - 1);
    }
  }

  lemma {:induction false} CombIsSymmetric(n: nat, k: nat)
    requires k <= n
    ensures Comb(n, k) == Comb(n, n - k)
  {
    if k == 0 || k == n {
      CombFull(n);
    } else {
      CombIsSymmetric(n - 1, k - 1);
      CombIsSymmetric(n - 1, k);
    }
  }

  /** The recurrence computes the quotient of factorials. */
  lemma {:induction false} CombIsFactorialQuotient(n: nat, k: nat)
    requires k <= n
    ensures Comb(n, k) * (Factorial(k) * Factorial(n - k)) == Factorial(n)
  {
    if k == 0 {
    } else if k == n {
      CombFull(n);
    } else {
      CombIsFactorialQuotient(n - 1, k - 1);
      CombIsFactorialQuotient(n - 1, k);
      var a, b, f, g := Comb(n - 1, k - 1), Comb(n - 1, k), Factorial(k - 1), Factorial(n - k - 1);
      assert Factorial(k) == k * f && Factorial(n - k) == (n - k) * g;
      Distribute(a, b, f, g, k, n - k, Factorial(n - 1));
    }
  }

  lemma Distribute(a: nat, b: nat, f: nat, g: nat, k: nat, m: nat, r: nat)
    requires a * (f * (m * g)) == r && b * ((k * f) * g) == r
    ensures (a + b) * ((k * f) * (m * g)) == (k + m) * r
  {
    calc {
      (a + b) * ((k * f) * (m * g));
      a * ((k * f) * (m * g)) + b * ((k * f) * (m * g));
      { Pull(a, f, m * g, k); }
      k * (a * (f * (m * g))) + b * ((k * f) * (m * g));
      { Pull(b, k * f, g, m); }
      k * (a * (f * (m * g))) + m * (b * ((k * f) * g));
      k * r + m * r;
      (k + m) * r;
    }
  }

  lemma Pull(a: nat, f: nat, g: nat, k: nat)
    ensures a * ((k * f) * g) == k * (a * (f * g))
    ensures a * (f * (k * g)) == k * (a * (f * g))
  {
    assert (k * f) * g == k * (f * g);
    assert f * (k * g) == k * (f * g);
    assert a * (k * (f * g)) == k * (a * (f * g));
  }

  lemma {:induction false} SumBelowRecurs(n: nat, k: nat)
    requires n > 0 && k > 0
    ensures SumBelow(n, k) == SumBelow(n - 1, k - 1) + SumBelow(n - 1, k)
  {
    if k > 1 {
      SumBelowRecurs(n, k - 1);
    }
  }

  /** A row of coefficients sums to a power of two. */
  lemma {:induction false} RowSum(n: nat)
    ensures SumBelow(n, n + 1) == Pow2(n)
  {
    if n == 0 {
      assert SumBelow(0, 1) == SumBelow(0, 0) + Comb(0, 0);
    } else {
      RowSum(n - 1);
      SumBelowRecurs(n, n + 1);
      CombBeyond(n - 1, n);
    }
  }

  /** The coefficients up to `k` and those below `n - k` together make the whole row. */
  lemma {:induction false} TailsComplement(n: nat, k: nat)
    requires k <= n
    ensures SumBelow(n, k + 1) + SumBelow(n, n - k) == Pow2(n)
  {
    if k == 0 {
      RowSum(n);
      CombFull(n);
      assert SumBelow(n, 1) == SumBelow(n, 0) + Comb(n, 0) == 1;
    } else {
      TailsComplement(n, k - 1);
      CombIsSymmetric(n, k);
    }
  }

  lemma {:induction false} SumBelowGrows(n: nat, j: nat, k: nat)
    requires j <= k <= n + 1
    ensures SumBelow(n, j) <= SumBelow(n, k)
    ensures j < k ==> SumBelow(n, j) < SumBelow(n, k)
  {
    if j < k {
      CombPositive(n, k - 1);
      SumBelowGrows(n, j, k - 1);
    }
  }

  // ---- The test ----

  /** The probability of at most `k` successes in `n` fair trials; `below` is k + 1. */
  function TailBelow(n: nat, below: nat): real {
    SumBelow(n, below) as real / Pow2(n) as real
  }

  function McNemarP(onlyA: nat, onlyB: nat): real {
    var n := onlyA + onlyB;
    if n == 0 then 1.0
    else
      var lo := if onlyA <= onlyB then onlyA else onlyB;
      var hi := if onlyA <= onlyB then onlyB else onlyA;
      var pLo := TailBelow(n, lo + 1);
      var pHi := 1.0 - TailBelow(n, hi);
      Min(2.0 * Min(pLo, pHi), 1.0)
  }

  lemma Complement(a: real, b: real, p: real)
    requires p > 0.0 && a + b == p
    ensures a / p == 1.0 - b / p
  {
    QuotientTimes(a, p);
    QuotientTimes(b, p);
    Scale(a / p, 1.0 - b / p, p);
  }

  lemma QuotientGrows(a: real, b: real, p: real)
    requires p > 0.0 && a <= b
    ensures a / p <= b / p
  {
    QuotientTimes(a, p);
    QuotientTimes(b, p);
    Scale(a / p, b / p, p);
  }

  /** The two tails the test computes are one number. */
  lemma TailsAreEqual(lo: nat, hi: nat)
    requires lo <= hi && 0 < hi
    ensures TailBelow(lo + hi, lo + 1) == 1.0 - TailBelow(lo + hi, hi)
  {
    hide SumBelow;
    hide Pow2;
    var n := lo + hi;
    TailsComplement(n, lo);
    Complement(SumBelow(n, lo + 1) as real, SumBelow(n, hi) as real, Pow2(n) as real);
  }

  /**
   * With discordant pairs the result is twice the smaller tail, capped at one; it is positive, symmetric in
   * its arguments, and one exactly when the counts differ by at most one.
   */
  lemma McNemarIsExact(onlyA: nat, onlyB: nat)
    ensures McNemarP(onlyA, onlyB) == McNemarP(onlyB, onlyA)
    ensures 0.0 < McNemarP(onlyA, onlyB) <= 1.0
    ensures McNemarP(onlyA, onlyB) == 1.0 <==> -1 <= onlyA - onlyB <= 1
    ensures onlyA <= onlyB && 0 < onlyB ==>
              McNemarP(onlyA, onlyB) == Min(2.0 * TailBelow(onlyA + onlyB, onlyA + 1), 1.0)
  {
    hide SumBelow;
    hide Pow2;
    if onlyA + onlyB > 0 {
      var lo := if onlyA <= onlyB then onlyA else onlyB;
      var hi := if onlyA <= onlyB then onlyB else onlyA;
      var n := lo + hi;
      TailsAreEqual(lo, hi);
      TailsComplement(n, lo);
      SumBelowGrows(n, 0, lo + 1);
      if lo + 1 >= hi {
        SumBelowGrows(n, hi, lo + 1);
      } else {
        SumBelowGrows(n, lo + 1, hi);
      }
      var a, b, p := SumBelow(n, lo + 1), SumBelow(n, hi), Pow2(n);
      assert lo + 1 >= hi ==> a >= b;
      assert lo + 1 < hi ==> a < b;
      HalfOrMore(a, b, p);
    }
  }

  lemma HalfOrMore(a: nat, b: nat, p: nat)
    requires a + b == p && 0 < a
    ensures 0.0 < a as real / p as real
    ensures 2.0 * (a as real / p as real) >= 1.0 <==> a >= b
  {
    var x, q := a as real, p as real;
    QuotientTimes(x, q);
    Scale(0.0, x / q, q);
    assert (2.0 * (x / q)) * q == 2.0 * (x / q * q) == x + x;
    assert 1.0 * q == x + b as real;
    Scale(1.0, 2.0 * (x / q), q);
  }

  /** Moving one discordant pair from the smaller count to the larger never raises the result. */
  lemma MoreLopsidedIsNoMoreLikely(lo: nat, hi: nat)
    requires 0 < lo <= hi
    ensures McNemarP(lo - 1, hi + 1) <= McNemarP(lo, hi)
  {
    hide SumBelow;
    hide Pow2;
    hide McNemarP;
    var n := lo + hi;
    McNemarIsExact(lo, hi);
    McNemarIsExact(lo - 1, hi + 1);
    SumBelowGrows(n, lo, lo + 1);
    QuotientGrows(SumBelow(n, lo) as real, SumBelow(n, lo + 1) as real, Pow2(n) as real);
  }
}
