/**
  Multiplication and division, a step at a time.
 */
module Arithmetic {
  lemma MultiplyBounds(a: int, b: int, c: int, m: nat)
    requires a <= b <= c
    ensures m * a <= m * b <= m * c
  {
  }

  lemma Commute(a: int, b: int, c: int)
    ensures a * (b * c) == b * (c * a)
  {
  }

  lemma Distribute(a: int, b: int, c: int)
    ensures a * (b + c) == a * b + a * c
  {
  }

  lemma Quotient(a: nat, n: nat)
    requires n > 0
    ensures n * (a / n) <= a < n * (a / n) + n
  {
  }

  lemma DivBounds(a: nat, n: nat, lo: nat, hi: nat)
    requires n > 0 && n * lo <= a < n * hi
    ensures lo <= a / n < hi
  {
    var q := a / n;
    Quotient(a, n);
    if q < lo {
      MultiplyBounds(q + 1, lo, lo, n);
    } else if q >= hi {
      MultiplyBounds(hi, q, q, n);
    }
  }

  lemma QuotientIs(a: nat, n: nat, q: nat)
    requires n > 0 && n * q <= a < n * q + n
    ensures a / n == q
  {
    Distribute(n, q, 1);
    DivBounds(a, n, q, q + 1);
  }

  lemma Halving(a: nat, n: nat)
    requires n > 0
    ensures 2 * (a / (2 * n)) <= a / n <= 2 * (a / (2 * n)) + 1
  {
    var q := a / (2 * n);
    Quotient(a, 2 * n);
    assert n * (2 * q) <= a < n * (2 * q + 2);
    DivBounds(a, n, 2 * q, 2 * q + 2);
  }

  // A larger divisor, a smaller quotient.
  lemma QuotientDecreases(a: nat, n: nat, m: nat)
    requires 0 < n <= m
    ensures a / m <= a / n
  {
    var q := a / m;
    Quotient(a, m);
    MultiplyBounds(n, m, m, q);
    MultiplyBounds(1, n, n, a + 1);
    Commute(n, q, 1);
    Distribute(n, a, 1);
    DivBounds(a, n, q, a + 1);
  }
}
