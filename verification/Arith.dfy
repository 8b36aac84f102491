/** Division with remainder, where the solver needs telling. */
module Arith {

  lemma AtLeastOnce(d: int, m: int)
    requires m > 0 && d >= 1
    ensures d * m >= m
  {
    assert d * m == (d - 1) * m + m;
  }

  /** A quotient and remainder found by any means are the quotient and the remainder. */
  lemma UniqueRemainder(n: int, q: int, m: nat, r: nat)
    requires r < m && n == q * m + r
    ensures n % m == r && n / m == q
  {
    var d := n / m - q;
    assert d * m == n / m * m - q * m == r - n % m;
    assert -d * m == -(d * m);
    if d > 0 {
      AtLeastOnce(d, m);
    } else if d < 0 {
      AtLeastOnce(-d, m);
    }
  }

  lemma QuotientBounds(n: nat, d: nat)
    requires d > 0
    ensures n / d * d <= n < (n / d + 1) * d
  {
    assert (n / d + 1) * d == n / d * d + d;
  }

  lemma QuotientAtLeast(n: nat, d: nat, v: nat)
    requires d > 0 && v * d <= n
    ensures v <= n / d
  {
    UniqueRemainder(n - v * d, (n - v * d) / d, d, (n - v * d) % d);
    var q := (n - v * d) / d;
    assert (q + v) * d == q * d + v * d;
    UniqueRemainder(n, q + v, d, (n - v * d) % d);
  }

  lemma Monotone(a: nat, b: nat, x: nat, y: nat)
    requires a <= b && x <= y
    ensures a * x <= b * y
  {
    assert a * x <= a * y;
    assert a * y <= b * y;
  }

  lemma DivideTwice(n: nat, a: nat, b: nat)
    requires a > 0 && b > 0
    ensures n / a / b == n / (a * b)
  {
    var q := n / a / b;
    var rest := n / a % b * a + n % a;
    assert n == (q * b + n / a % b) * a + n % a;
    assert (q * b + n / a % b) * a == q * (a * b) + n / a % b * a;
    Monotone(n / a % b, b - 1, a, a);
    assert (b - 1) * a == a * b - a;
    UniqueRemainder(n, q, a * b, rest);
  }
}
