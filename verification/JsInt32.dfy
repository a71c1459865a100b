/** The bit operators of ECMAScript on numbers: operands become 32-bit patterns, results of `<<`, `|`
    and `&` are read as signed, the result of `>>>` as unsigned. */
module JsInt32 {
  import opened Bits
  import opened Arith

  const MOD: nat := 0x1_0000_0000

  function ToUint32(x: int): (r: nat)
    ensures r < MOD
  {
    x % MOD
  }

  function ToInt32(x: int): int {
    var u := ToUint32(x);
    if u >= 0x8000_0000 then u - MOD else u
  }

  function OrBits(a: nat, b: nat): nat {
    if a == 0 && b == 0 then 0
    else 2 * OrBits(a / 2, b / 2) + if a % 2 == 1 || b % 2 == 1 then 1 else 0
  }

  function AndBits(a: nat, b: nat): nat {
    if a == 0 || b == 0 then 0
    else 2 * AndBits(a / 2, b / 2) + if a % 2 == 1 && b % 2 == 1 then 1 else 0
  }

  function Shl(x: int, k: nat): int
    requires k < 32
  {
    ToInt32(ToUint32(x) * Pow2(k))
  }

  function Ushr(x: int, k: nat): int
    requires k < 32
  {
    ToUint32(x) / Pow2(k)
  }

  function Or(x: int, y: int): int {
    ToInt32(OrBits(ToUint32(x), ToUint32(y)))
  }

  function And(x: int, y: int): int {
    ToInt32(AndBits(ToUint32(x), ToUint32(y)))
  }

  /** Or-ing a small number into cleared low bits adds it. */
  lemma {:induction false} OrDisjoint(a: nat, b: nat, k: nat)
    requires b < Pow2(k)
    ensures OrBits(a * Pow2(k), b) == a * Pow2(k) + b
    decreases k, a
  {
    if k == 0 {
      OrZero(a);
    } else {
      var p := Pow2(k - 1);
      assert a * Pow2(k) == 2 * (a * p);
      OrDisjoint(a, b / 2, k - 1);
    }
  }

  lemma {:induction false} OrZero(a: nat)
    ensures OrBits(a, 0) == a
  {
    if a > 0 {
      OrZero(a / 2);
    }
  }

  /** And-ing with 2^k - 1 keeps the k low bits. */
  lemma {:induction false} AndMask(a: nat, k: nat)
    ensures AndBits(a, Pow2(k) - 1) == a % Pow2(k)
    decreases k
  {
    if k > 0 && a > 0 {
      var p := Pow2(k - 1);
      var mask := Pow2(k) - 1;
      assert mask == 2 * p - 1 && mask / 2 == p - 1 && mask % 2 == 1;
      AndMask(a / 2, k - 1);
      ModHalf(a, p);
    } else if k > 0 {
      ZeroMod(Pow2(k));
    }
  }

  lemma ZeroMod(d: nat)
    requires d > 0
    ensures 0 % d == 0
  {
  }

  lemma Patterns(x: int)
    ensures ToUint32(ToInt32(x)) == ToUint32(x)
  {
  }

  lemma ShlPattern(x: int, k: nat)
    requires k < 32
    ensures ToUint32(Shl(x, k)) == ToUint32(x) * Pow2(k) % MOD
  {
    Patterns(ToUint32(x) * Pow2(k));
  }

  /** `x & 31`. */
  lemma AndLow(x: int)
    ensures And(x, 31) == ToUint32(x) % 32
  {
    Pow2Small();
    AndMask(ToUint32(x), 5);
  }

  lemma UshrRange(x: int, k: nat)
    requires k < 32
    ensures ToUint32(Ushr(x, k)) == ToUint32(x) / Pow2(k)
  {
    WordQuotient(ToUint32(x), Pow2(k));
  }

  lemma WordQuotient(u: nat, p: nat)
    requires u < MOD && p > 0
    ensures ToUint32(u / p) == u / p
  {
    QuotientSmaller(u, p);
    Small(u / p);
  }

  lemma Small(u: nat)
    requires u < MOD
    ensures ToUint32(u) == u && ToUint32(ToInt32(u)) == u
  {
  }

  lemma ShiftLeftByte(u: nat)
    ensures u * 256 % MOD == u % 0x100_0000 * 256
  {
  }

  /** `(x << 8) | b` for a byte b. */
  lemma ShiftInByte(x: int, b: nat)
    requires b < 256
    ensures ToUint32(Or(Shl(x, 8), b)) == 256 * (ToUint32(x) % 0x100_0000) + b
  {
    var v := ToUint32(x) % 0x100_0000;
    assert ToUint32(Shl(x, 8)) == v * 256 by {
      Pow2Small();
      ShlPattern(x, 8);
      ShiftLeftByte(ToUint32(x));
    }
    assert OrBits(v * 256, b) == v * 256 + b by {
      Pow2Small();
      OrDisjoint(v, b, 8);
    }
    Small(b);
    Small(v * 256 + b);
  }
}
