/** Division facts the solver does not find by itself. */
module Arith {

  lemma Multiples(x: int, d: nat)
    ensures x >= 1 ==> x * d >= d
    ensures x <= -1 ==> x * d <= 0 - d
  {
    assert (x - 1) * d == x * d - d && (x + 1) * d == x * d + d;
  }

  lemma DivModUnique(a: nat, d: nat, q: nat, r: nat)
    requires r < d && a == q * d + r
    ensures a / d == q && a % d == r
  {
    var q', r' := a / d, a % d;
    assert (q - q') * d == r' - r;
    Multiples(q - q', d);
  }

  lemma Assoc(q: int, p: int, c: int)
    ensures q * (p * c) == (q * c) * p
  {
  }

  lemma Distribute(a: int, b: int, p: int)
    ensures (a + b) * p == a * p + b * p
  {
  }

  /** A remainder modulo a multiple keeps the remainder. */
  lemma ModMod(u: nat, p: nat, c: nat)
    requires p > 0 && c > 0
    ensures p * c > 0 && u % (p * c) % p == u % p
  {
    Multiples(c, p);
    var q, v := Divide(u, p * c);
    var h, l := Divide(v, p);
    Regroup(q, p, c, h, l);
    DivModUnique(u, p, q * c + h, l);
  }

  lemma Divide(u: nat, d: nat) returns (q: nat, r: nat)
    requires d > 0
    ensures q == u / d && r == u % d && u == q * d + r && r < d
  {
    q, r := u / d, u % d;
  }

  lemma Regroup(q: int, p: int, c: int, h: int, l: int)
    ensures q * (p * c) + (h * p + l) == (q * c + h) * p + l
  {
    Assoc(q, p, c);
    Distribute(q * c, h, p);
  }

  lemma QuotientBound(v: nat, p: nat, c: nat)
    requires p > 0 && v < p * c
    ensures v / p < c
  {
    var h, l := v / p, v % p;
    assert v == h * p + l;
    assert (h - c) * p == h * p - p * c;
    Multiples(h - c, p);
  }

  lemma TwoDigits(u: nat, p: nat, c: nat, q: nat, h: nat, l: nat)
    requires l < p && h < c && u == q * (p * c) + (h * p + l)
    ensures u / p / c == q
  {
    assert q * (p * c) == (q * c) * p;
    assert (q * c + h) * p == (q * c) * p + h * p;
    DivModUnique(u, p, q * c + h, l);
    DivModUnique(q * c + h, c, q, h);
  }

  /** Dividing in two stages. */
  lemma DivDiv(u: nat, p: nat, c: nat)
    requires p > 0 && c > 0
    ensures p * c > 0 && u / p / c == u / (p * c)
  {
    Multiples(c, p);
    var q, v := u / (p * c), u % (p * c);
    QuotientBound(v, p, c);
    assert v == v / p * p + v % p;
    TwoDigits(u, p, c, q, v / p, v % p);
  }

  lemma QuotientSmaller(u: nat, p: nat)
    requires p > 0
    ensures u / p <= u
  {
    var q, r := u / p, u % p;
    assert u == q * p + r;
    assert q * p == q * (p - 1) + q;
    NonNegative(q, p - 1);
  }

  lemma NonNegative(x: nat, y: nat)
    ensures x * y >= 0
  {
  }

  lemma ScaleMod(v: nat, p: nat, b: nat)
    requires p > 0 && b < 256
    ensures (256 * v + b) % (p * 256) == 256 * (v % p) + b
  {
    var q := v / p;
    assert v == q * p + v % p;
    assert 256 * v + b == q * (p * 256) + (256 * (v % p) + b);
    DivModUnique(256 * v + b, p * 256, q, 256 * (v % p) + b);
  }

  lemma ModHalf(a: nat, p: nat)
    requires p > 0
    ensures a % (2 * p) == 2 * (a / 2 % p) + a % 2
  {
    var h := a / 2;
    var q := h / p;
    assert h == q * p + h % p;
    assert a == q * (2 * p) + (2 * (h % p) + a % 2);
    DivModUnique(a, 2 * p, q, 2 * (h % p) + a % 2);
  }

  /** Cutting a number modulo 32p into the quotient's five bits and the remainder. */
  lemma Peel(u: nat, p: nat, high: nat, low: nat)
    requires high < 32 && low < p && u % (p * 32) == high * p + low
    ensures u / p % 32 == high && u % p == low
  {
    var q, r := Divide(u, p * 32);
    Regroup(q, p, 32, high, low);
    DivModUnique(u, p, q * 32 + high, low);
    DivModUnique(q * 32 + high, 32, q, high);
  }

  /** Shifting left inside a modulus that is a multiple of p * c. */
  lemma FillMod(u: nat, p: nat, c: nat)
    requires p > 0 && c > 0
    ensures p * c > 0 && u * c % (p * c) == u % p * c
  {
    Multiples(c, p);
    var q, r := Divide(u, p);
    Scaled(u, p, c, q, r);
    DivModUnique(u * c, p * c, q, r * c);
  }

  lemma Scaled(u: int, p: int, c: int, q: int, r: int)
    requires u == q * p + r && r < p && c > 0
    ensures u * c == q * (p * c) + r * c && r * c < p * c
  {
    Distribute(q * p, r, c);
    Assoc(q, c, p);
    Distribute(r, p - r, c);
    Multiples(p - r, c);
  }
}
