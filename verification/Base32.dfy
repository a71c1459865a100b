/** Unpadded base32 of section 6 of RFC 4648: the bit string is cut into groups of five, the last one
    filled up with zero bits, and every group selects a character. */
module Base32 {
  import opened ByteSeq
  import opened Bits

  /** Table 3 of RFC 4648. */
  function Letter(n: nat): char
    requires n < 32
  {
    if n < 26 then 'A' + n as char else '2' + (n - 26) as char
  }

  lemma LetterTable(n: nat)
    requires n < 32
    ensures Letter(n) == "ABCDEFGHIJKLMNOPQRSTUVWXYZ234567"[n]
  {
  }

  function Group(bits: seq<bool>): char
    requires |bits| == 5
  {
    Pow2Small();
    Letter(Val(bits))
  }

  function EncodeBits(bits: seq<bool>): string
    decreases |bits|
  {
    if bits == [] then ""
    else if |bits| < 5 then [Group(bits + Zeros(5 - |bits|))]
    else [Group(bits[..5])] + EncodeBits(bits[5..])
  }

  function Encode(bytes: Bytes): string {
    EncodeBits(OfBytes(bytes))
  }

  /** The inverse of the alphabet. */
  function Digit(c: char): (r: int)
    ensures -1 <= r < 32
    ensures r >= 0 ==> Letter(r) == c
  {
    if 'A' <= c <= 'Z' then c as int - 'A' as int
    else if '2' <= c <= '7' then c as int - '2' as int + 26
    else -1
  }

  function DecodeBits(text: string): (r: seq<bool>)
    requires forall c :: c in text ==> Digit(c) >= 0
  {
    if text == "" then [] else Spell(Digit(text[0]), 5) + DecodeBits(text[1..])
  }

  predicate WellFormed(text: string) {
    forall c :: c in text ==> Digit(c) >= 0
  }

  function Decode(text: string): Bytes
    requires WellFormed(text)
  {
    ToBytes(DecodeBits(text))
  }

  lemma SpellGroup(bits: seq<bool>)
    requires |bits| == 5
    ensures Digit(Group(bits)) >= 0 && Spell(Digit(Group(bits)), 5) == bits
  {
    Pow2Small();
    SpellVal(bits);
  }

  lemma DecodeCons(bits: seq<bool>, rest: string)
    requires |bits| == 5 && WellFormed(rest)
    ensures WellFormed([Group(bits)] + rest) && DecodeBits([Group(bits)] + rest) == bits + DecodeBits(rest)
  {
    SpellGroup(bits);
    var text := [Group(bits)] + rest;
    assert text[1..] == rest;
    forall c | c in text
      ensures Digit(c) >= 0
    {
      assert c == text[0] || c in rest;
    }
  }

  /** Decoding gives the bits back, followed by the fill. */
  lemma {:induction false} DecodeEncodeBits(bits: seq<bool>) returns (fill: nat)
    ensures fill < 5
    ensures WellFormed(EncodeBits(bits)) && DecodeBits(EncodeBits(bits)) == bits + Zeros(fill)
    decreases |bits|
  {
    if bits == [] {
      fill := 0;
      assert bits + Zeros(0) == [];
    } else if |bits| < 5 {
      fill := 5 - |bits|;
      DecodeShort(bits);
    } else {
      fill := DecodeEncodeBits(bits[5..]);
      DecodeCons(bits[..5], EncodeBits(bits[5..]));
      PutBack(bits, Zeros(fill));
    }
  }

  lemma PutBack(bits: seq<bool>, more: seq<bool>)
    requires |bits| >= 5
    ensures bits + more == bits[..5] + (bits[5..] + more)
  {
  }

  lemma DecodeShort(bits: seq<bool>)
    requires 0 < |bits| < 5
    ensures var text := [Group(bits + Zeros(5 - |bits|))];
      EncodeBits(bits) == text && WellFormed(text) && DecodeBits(text) == bits + Zeros(5 - |bits|)
  {
    var group := bits + Zeros(5 - |bits|);
    DecodeCons(group, "");
    assert [Group(group)] + "" == [Group(group)];
    assert group + DecodeBits("") == group;
  }

  /** Round trip: base32 loses nothing, whatever the length. */
  lemma RoundTrip(bytes: Bytes)
    ensures WellFormed(Encode(bytes)) && Decode(Encode(bytes)) == bytes
  {
    var fill := DecodeEncodeBits(OfBytes(bytes));
    ToBytesOfBytes(bytes, Zeros(fill));
  }
}
