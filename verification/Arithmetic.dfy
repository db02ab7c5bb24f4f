/** Multiplication, quotients and remainders: the facts the index computations rest on. */
module Arithmetic {

  lemma Below(a: nat, n: nat, b: nat, m: nat)
    requires a < n && b < m
    ensures a * m + b < n * m
  {
    assert (a + 1) * m <= n * m by { Ordered(a + 1, n, m); }
    assert (a + 1) * m == a * m + m;
  }

  lemma Ordered(a: nat, b: nat, m: nat)
    requires a <= b
    ensures a * m <= b * m
  {
  }

  lemma OneQuotient(a: nat, b: nat, q: nat, r: nat, m: nat)
    requires b < m && r < m && a * m + b == q * m + r
    ensures a == q && b == r
  {
    if a < q { Ordered(a + 1, q, m); } else if q < a { Ordered(q + 1, a, m); }
  }

  lemma Divided(a: nat, b: nat, m: nat)
    requires b < m
    ensures (a * m + b) / m == a && (a * m + b) % m == b
  {
    var k := a * m + b;
    OneQuotient(a, b, k / m, k % m, m);
  }

  lemma Split(k: nat, n: nat, m: nat)
    requires m > 0 && k < n * m
    ensures k / m < n && k % m < m && (k / m) * m + k % m == k
  {
    if k / m >= n { Ordered(n, k / m, m); }
  }

  lemma Gap(a: int, b: int, m: int)
    requires a < b && m > 0
    ensures a * m + m <= b * m
  {
    var d := b - a - 1;
    assert d * m >= 0;
    assert d * m == b * m - a * m - m;
  }

  /** Quotient and remainder are what they are written as, also for negative numbers. */
  lemma Quotient(x: int, m: int, q: int, r: int)
    requires m > 0 && x == q * m + r && 0 <= r < m
    ensures x / m == q && x % m == r
  {
    var p := x / m;
    assert x == p * m + x % m;
    if q < p { Gap(q, p, m); } else if p < q { Gap(p, q, m); }
  }

  lemma Swap(a: int, b: int)
    ensures a * b == b * a
  {
  }

  lemma Commute(a: int, b: int, c: int)
    ensures a * b * c == c * a * b && c * a * b == c * (a * b)
  {
  }
}
