/** Elementary facts about products and quotients that the solver needs spelled out. */
module Arith {

  lemma MulAtLeast(d: nat, k: nat)
    requires k >= 1
    ensures d * k >= d
  {
  }

  lemma Distribute(d: int, a: int, b: int)
    ensures d * (a - b) == d * a - d * b
    ensures d * (a + b) == d * a + d * b
  {
  }

  lemma Assoc(a: int, b: int, c: int)
    ensures (a * b) * c == a * (b * c)
  {
  }

  lemma QuotientNonnegative(x: nat, d: nat)
    requires d > 0
    ensures x / d >= 0
  {
  }

  /** A quotient and a remainder are determined by the division equation. */
  lemma DivUnique(x: int, d: nat, q: int, r: nat)
    requires d > 0 && x == d * q + r && r < d
    ensures x / d == q && x % d == r
  {
    var q', r' := x / d, x % d;
    assert x == d * q' + r';
    Distribute(d, q', q);
    Distribute(d, q, q');
    if q < q' {
      MulAtLeast(d, q' - q);
    } else if q > q' {
      MulAtLeast(d, q - q');
    }
  }

  lemma QuotRem(a: int, n: nat) returns (q: int, r: nat)
    requires n > 0
    ensures a == n * q + r && r == a % n && r < n
  {
    q, r := a / n, a % n;
  }

  lemma DivDiv(x: nat, m: nat, n: nat)
    requires m > 0 && n > 0
    ensures m * n > 0 && x / m / n == x / (m * n)
  {
    var q, r := x / m, x % m;
    var q2, r2 := q / n, q % n;
    assert q == n * q2 + r2;
    assert x == m * q + r;
    Distribute(m, n * q2, r2);
    Assoc(m, n, q2);
    assert x == (m * n) * q2 + (m * r2 + r);
    MulAtLeast(m, n - r2);
    Distribute(m, n, r2);
    MulAtLeast(m, n);
    DivUnique(x, m * n, q2, m * r2 + r);
  }

  /** Adding a multiple of the modulus changes nothing. */
  lemma ModShift(x: int, d: nat, k: int)
    requires d > 0
    ensures (x + d * k) % d == x % d
  {
    var q, r := x / d, x % d;
    Distribute(d, q, k);
    DivUnique(x + d * k, d, q + k, r);
  }

  lemma ModAdd(a: nat, b: nat, n: nat)
    requires n > 0
    ensures (a + b) % n == (a % n + b) % n
  {
    var q, r := QuotRem(a, n);
    ModShift(r + b, n, q);
  }

  lemma ModEqual(x: int, y: int, d: nat)
    requires d > 0 && x % d == y % d
    ensures (x - y) % d == 0
  {
    var q, q' := x / d, y / d;
    Distribute(d, q, q');
    DivUnique(x - y, d, q - q', 0);
  }
}
