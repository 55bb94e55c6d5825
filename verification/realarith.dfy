/** Facts about exact real arithmetic shared by the weighted means. */
module RealArith {

  /** A weighted sum lies between `lo` and `hi` times the total weight. */
  predicate WeightedBetween(total: real, weighted: real, lo: real, hi: real) {
    lo * total <= weighted <= hi * total
  }

  lemma {:induction false} DivideByLarger(a: real, x: real, y: real)
    requires a >= 0.0 && 0.0 < x <= y
    ensures a / y <= a / x
  {
    var p, q := a / x, a / y;
    assert p * x == a && q * y == a;
    assert p >= 0.0;
    assert p * x <= p * y;
    assert (q - p) * y <= 0.0;
  }

  lemma {:induction false} DivideSum(x: real, y: real, d: real)
    requires d != 0.0
    ensures (x + y) / d == x / d + y / d
  {
    assert (x / d + y / d) * d == x / d * d + y / d * d;
  }

  /** Multiplying x <= y by a positive c keeps the order; with c·x or c·y named. */
  lemma {:induction false} ScaleAbove(x: real, y: real, c: real, a: real)
    requires c > 0.0 && x <= y
    ensures x == a / c ==> a <= c * y
    ensures y == a / c ==> c * x <= a
  {
    assert c * (y - x) >= 0.0;
    assert c * (a / c) == a;
  }

  lemma {:induction false} ZeroBetween(total: real, weighted: real, lo: real, hi: real)
    requires total == 0.0 && weighted == 0.0
    ensures WeightedBetween(total, weighted, lo, hi)
  {
  }

  lemma {:induction false} StepBetween(a: real, g: real, b: real, y: real, total: real, weighted: real, lo: real, hi: real)
    requires a >= 0.0 && lo <= g <= hi
    requires WeightedBetween(b, y, lo, hi)
    requires total == a + b && weighted == a * g + y
    ensures WeightedBetween(total, weighted, lo, hi)
  {
    ScaledBetween(a, g, lo, hi);
    AddBetween(a, b, a * g, y, lo, hi);
  }

  lemma {:induction false} AddBetween(a: real, b: real, x: real, y: real, lo: real, hi: real)
    requires lo * a <= x <= hi * a && lo * b <= y <= hi * b
    ensures lo * (a + b) <= x + y <= hi * (a + b)
  {
    assert lo * (a + b) == lo * a + lo * b;
    assert hi * (a + b) == hi * a + hi * b;
  }

  lemma {:induction false} ScaledBetween(a: real, g: real, lo: real, hi: real)
    requires a >= 0.0 && lo <= g <= hi
    ensures lo * a <= a * g <= hi * a
  {
    assert (g - lo) * a >= 0.0;
    assert (hi - g) * a >= 0.0;
  }

  lemma {:induction false} SelfQuotient(t: real)
    requires t != 0.0
    ensures t / t == 1.0
  {
  }
}
