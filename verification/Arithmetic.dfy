/** The smaller of two numbers, and division facts for a modulus that is not a literal. */
module Arithmetic {

  function Min(a: int, b: int): int {
    if a <= b then a else b
  }

  lemma PositiveMultiple(d: int, n: int)
    requires d >= 1 && n > 0
    ensures d * n >= n
  {
    assert d * n == (d - 1) * n + n;
    assert (d - 1) * n >= 0;
  }

  lemma DivModUnique(x: int, n: int, k: int, r: int)
    requires n > 0 && x == k * n + r && 0 <= r < n
    ensures x / n == k && x % n == r
  {
    var d := k - x / n;
    assert d * n == k * n - (x / n) * n;
    assert d * n == x % n - r;
    assert (-d) * n == -(d * n);
    if d >= 1 {
      PositiveMultiple(d, n);
    } else if d <= -1 {
      PositiveMultiple(-d, n);
    }
  }

  lemma ModShift(x: int, q: int, n: int)
    requires n > 0
    ensures (x + q * n) % n == x % n && (x + q * n) / n == x / n + q
  {
    var k := x / n;
    assert x + q * n == (k + q) * n + x % n;
    DivModUnique(x + q * n, n, k + q, x % n);
  }

  /** Reducing one summand first changes nothing. */
  lemma ModAdd(a: int, b: int, n: int)
    requires n > 0
    ensures (a % n + b) % n == (a + b) % n
  {
    assert a == a % n + (a / n) * n;
    assert a + b == (a % n + b) + (a / n) * n;
    ModShift(a % n + b, a / n, n);
  }

  /** Reducing by a multiple of d first changes nothing modulo d. */
  lemma ModMod(a: int, m: int, d: int)
    requires m > 0 && d > 0
    ensures m * d > 0 && a % (m * d) % d == a % d
  {
    PositiveMultiple(m, d);
    var n := m * d;
    assert a == a % n + (a / n) * n;
    assert (a / n) * n == ((a / n) * m) * d;
    ModShift(a % n, (a / n) * m, d);
  }

  lemma MulSucc(a: int, w: int)
    ensures (a + 1) * w == a * w + w && w * (a + 1) == w * a + w
  {
  }

  lemma MulLe(a: int, b: int, w: nat)
    requires a <= b
    ensures a * w <= b * w && w * a <= w * b
  {
    assert b * w == a * w + (b - a) * w && (b - a) * w >= 0;
  }

  lemma MulAssoc(a: int, b: int, c: int)
    ensures a * b * c == a * (b * c) == c * (a * b) == b * (a * c)
  {
  }
}
