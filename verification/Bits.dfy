/** Big-endian bit strings: the common ground of base32, base64 and the accumulator loop. */
module Bits {
  import opened ByteSeq

  function Pow2(n: nat): (r: nat)
    ensures r > 0
  {
    if n == 0 then 1 else 2 * Pow2(n - 1)
  }

  lemma Twice(x: nat, y: nat)
    ensures 2 * (x * y) == (2 * x) * y
  {
  }

  lemma {:induction false} Pow2Add(m: nat, n: nat)
    ensures Pow2(m + n) == Pow2(m) * Pow2(n)
  {
    if m > 0 {
      Pow2Add(m - 1, n);
      Twice(Pow2(m - 1), Pow2(n));
    }
  }

  /** The number a bit string spells, most significant bit first. */
  function Val(bits: seq<bool>): (r: nat)
    ensures r < Pow2(|bits|)
  {
    if bits == [] then 0
    else 2 * Val(bits[..|bits| - 1]) + if bits[|bits| - 1] then 1 else 0
  }

  /** The `width` low bits of a number. */
  function Spell(n: nat, width: nat): (r: seq<bool>)
    ensures |r| == width
    decreases width
  {
    if width == 0 then [] else Spell(n / 2, width - 1) + [n % 2 == 1]
  }

  lemma {:induction false} ValSpell(n: nat, width: nat)
    requires n < Pow2(width)
    ensures Val(Spell(n, width)) == n
    decreases width
  {
    if width > 0 {
      ValSpell(n / 2, width - 1);
      assert Spell(n, width)[..width - 1] == Spell(n / 2, width - 1);
    }
  }

  lemma {:induction false} SpellVal(bits: seq<bool>)
    ensures Spell(Val(bits), |bits|) == bits
  {
    if bits != [] {
      var front := bits[..|bits| - 1];
      SpellVal(front);
      assert Val(bits) / 2 == Val(front);
      assert bits == front + [bits[|bits| - 1]];
    }
  }

  lemma ValLast(a: seq<bool>, b: seq<bool>)
    requires b != []
    ensures Val(a + b) == 2 * Val(a + b[..|b| - 1]) + if b[|b| - 1] then 1 else 0
  {
    assert (a + b)[..|a + b| - 1] == a + b[..|b| - 1];
  }

  lemma Double(x: nat, p: nat, v: nat)
    ensures 2 * (x * p + v) == x * (2 * p) + 2 * v
  {
  }

  lemma {:induction false} ValConcat(a: seq<bool>, b: seq<bool>)
    ensures Val(a + b) == Val(a) * Pow2(|b|) + Val(b)
  {
    if b == [] {
      assert a + b == a;
    } else {
      var front := b[..|b| - 1];
      ValConcat(a, front);
      ValLast(a, b);
      Double(Val(a), Pow2(|front|), Val(front));
    }
  }

  function OfByte(b: byte): (r: seq<bool>)
    ensures |r| == 8
  {
    Spell(b, 8)
  }

  function OfBytes(bytes: Bytes): (r: seq<bool>)
    ensures |r| == 8 * |bytes|
  {
    if bytes == [] then [] else OfByte(bytes[0]) + OfBytes(bytes[1..])
  }

  lemma Pow2Small()
    ensures Pow2(0) == 1 && Pow2(1) == 2 && Pow2(2) == 4 && Pow2(3) == 8 && Pow2(4) == 16 && Pow2(5) == 32
    ensures Pow2(6) == 64 && Pow2(7) == 128 && Pow2(8) == 256
  {
  }

  /** Whole bytes of a bit string; up to seven spare bits at the end are dropped. */
  function ToBytes(bits: seq<bool>): (r: Bytes)
    ensures |r| == |bits| / 8
    decreases |bits|
  {
    if |bits| < 8 then [] else
      Pow2Small();
      [Val(bits[..8])] + ToBytes(bits[8..])
  }

  /** Spare bits do not matter. */
  lemma {:induction false} ToBytesOfBytes(bytes: Bytes, spare: seq<bool>)
    requires |spare| < 8
    ensures ToBytes(OfBytes(bytes) + spare) == bytes
  {
    if bytes == [] {
      assert OfBytes(bytes) + spare == spare;
    } else {
      FirstByte(bytes[0], OfBytes(bytes[1..]), spare);
      ToBytesOfBytes(bytes[1..], spare);
    }
  }

  lemma CutByte(first: seq<bool>, more: seq<bool>, spare: seq<bool>)
    requires |first| == 8
    ensures var bits := first + more + spare; bits[..8] == first && bits[8..] == more + spare
  {
  }

  lemma ByteVal(b: byte)
    ensures Val(OfByte(b)) == b
  {
    Pow2Small();
    ValSpell(b, 8);
  }

  lemma FirstByte(b: byte, more: seq<bool>, spare: seq<bool>)
    ensures ToBytes(OfByte(b) + more + spare) == [b] + ToBytes(more + spare)
  {
    CutByte(OfByte(b), more, spare);
    ByteVal(b);
  }

  function Zeros(n: nat): (r: seq<bool>)
    ensures |r| == n
  {
    seq(n, _ => false)
  }

  lemma {:induction false} ValZeros(n: nat)
    ensures Val(Zeros(n)) == 0
  {
    if n > 0 {
      ValZeros(n - 1);
      assert Zeros(n)[..n - 1] == Zeros(n - 1);
    }
  }
}
