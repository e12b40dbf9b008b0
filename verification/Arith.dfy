/** Small facts of non-linear arithmetic, each proved in isolation. */
module Arith {

  lemma MulDist(a: int, b: int, c: int)
    ensures (a + b) * c == a * c + b * c
  {}

  lemma MulMono(a: int, b: int, c: nat)
    requires a <= b
    ensures a * c <= b * c
  {
    MulDist(b - a, a, c);
    MulNonNeg(b - a, c);
  }

  lemma MulNonNeg(a: nat, b: nat)
    ensures 0 <= a * b
  {}

  lemma MulAtLeast(k: int, m: nat)
    requires k >= 1
    ensures k * m >= m
  {
    MulMono(1, k, m);
  }

  lemma DivModOf(x: int, m: int)
    requires m > 0
    ensures x == x / m * m + x % m && 0 <= x % m < m
  {
    assert x == m * (x / m) + x % m;
    assert m * (x / m) == x / m * m;
  }

  /** Quotient and remainder are determined by the decomposition. */
  lemma QuotientUnique(x: int, m: int, q: int, r: int)
    requires m > 0 && 0 <= r < m && x == q * m + r
    ensures x / m == q && x % m == r
  {
    DivModOf(x, m);
    var d := x / m - q;
    MulDist(d, q, m);
    assert d * m == r - x % m;
    if d >= 1 {
      MulAtLeast(d, m);
    } else if d <= -1 {
      MulAtLeast(-d, m);
      MulDist(d, -d, m);
    }
  }

  lemma ModAddMultiple(x: int, k: int, m: int)
    requires m > 0
    ensures (x + k * m) % m == x % m && (x + k * m) / m == x / m + k
  {
    DivModOf(x, m);
    MulDist(x / m, k, m);
    QuotientUnique(x + k * m, m, x / m + k, x % m);
  }

  lemma MultipleMod(k: int, m: int)
    requires m > 0
    ensures k * m % m == 0 && k * m / m == k
  {
    QuotientUnique(k * m, m, k, 0);
  }

  /** A multiple of f reduced modulo a multiple of f is a multiple of f. */
  lemma ModKeepsMultiple(x: nat, f: int, l: int)
    requires f > 0 && l > 0 && x % f == 0 && l % f == 0
    ensures x % l % f == 0
  {
    DivModOf(x, f);
    DivModOf(l, f);
    DivModOf(x, l);
    var a, b, q := x / f, l / f, x / l;
    assert q * l == q * b * f by { MulAssoc(q, b, f); }
    MulDist(a - q * b, q * b, f);
    assert x % l == (a - q * b) * f;
    MultipleMod(a - q * b, f);
  }

  lemma MulAssoc(a: int, b: int, c: int)
    ensures a * (b * c) == a * b * c
  {}

  /** Two multiples of f that differ, differ by at least f. */
  lemma MultiplesApart(x: int, y: int, f: int)
    requires f > 0 && x % f == 0 && y % f == 0 && x < y
    ensures x + f <= y
  {
    DivModOf(x, f);
    DivModOf(y, f);
    if y / f <= x / f {
      MulMono(y / f, x / f, f);
    } else {
      MulMono(x / f + 1, y / f, f);
      MulDist(x / f, 1, f);
    }
  }

  lemma DivAtMost(a: nat, b: int)
    requires b > 0
    ensures 0 <= a / b <= a
  {
    DivModOf(a, b);
    if a / b > a {
      MulMono(1, b, a / b);
    } else if a / b < 0 {
      MulMono(a / b, -1, b);
    }
  }

  lemma DivMono(a: nat, b: nat, d: int)
    requires d > 0 && a <= b
    ensures a / d <= b / d
  {
    DivModOf(a, d);
    DivModOf(b, d);
    if a / d > b / d {
      MulMono(b / d + 1, a / d, d);
      MulDist(b / d, 1, d);
    }
  }

  lemma SmallMod(x: nat, m: int)
    requires x < m
    ensures x % m == x && x / m == 0
  {
    QuotientUnique(x, m, 0, x);
  }
}
