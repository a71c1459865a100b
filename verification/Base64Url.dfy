/** The writer's side of opaque identifiers: unpadded base64url of section 5 of RFC 4648, as `RawURLEncoding` makes
    it from random bytes. */
module Base64Url {
  import opened ByteSeq
  import opened Bits
  import opened Options
  import opened OpaqueId

  /** Table 2 of RFC 4648. */
  const UPPER := "ABCDEFGHIJKLMNOPQRSTUVWXYZ"
  const LOWER := "abcdefghijklmnopqrstuvwxyz"
  const OTHER := "0123456789-_"

  function Letter(n: nat): char
    requires n < 64
  {
    if n < 26 then UPPER[n] else if n < 52 then LOWER[n - 26] else OTHER[n - 52]
  }

  function Group(bits: seq<bool>): char
    requires |bits| == 6
  {
    Pow2Small();
    Letter(Val(bits))
  }

  function EncodeBits(bits: seq<bool>): (r: string)
    ensures |r| == (|bits| + 5) / 6
    decreases |bits|
  {
    if bits == [] then ""
    else if |bits| < 6 then [Group(bits + Zeros(6 - |bits|))]
    else [Group(bits[..6])] + EncodeBits(bits[6..])
  }

  /** `base64.RawURLEncoding.EncodeToString`. */
  function Encode(bytes: Bytes): string {
    EncodeBits(OfBytes(bytes))
  }

  lemma UpperDigit(n: nat)
    requires n < 26
    ensures UrlDigit(UPPER[n]) == n
  {
  }

  lemma LowerDigit(n: nat)
    requires n < 26
    ensures UrlDigit(LOWER[n]) == n + 26
  {
  }

  lemma OtherDigit(n: nat)
    requires n < 12
    ensures UrlDigit(OTHER[n]) == n + 52
  {
  }

  /** The reader knows exactly the 64 characters of the table, each with its number. */
  lemma AlphabetExactly(c: char)
    ensures forall n: nat :: n < 64 ==> UrlDigit(Letter(n)) == n
    ensures UrlDigit(c) >= 0 ==> Letter(UrlDigit(c)) == c
  {
    forall n: nat | n < 64
      ensures UrlDigit(Letter(n)) == n
    {
      LetterDigit(n);
    }
    if UrlDigit(c) >= 0 {
      LetterDigit(UrlDigit(c));
    }
  }

  lemma LetterDigit(n: nat)
    requires n < 64
    ensures UrlDigit(Letter(n)) == n
  {
    if n < 26 {
      UpperDigit(n);
    } else if n < 52 {
      LowerDigit(n - 26);
    } else {
      OtherDigit(n - 52);
    }
  }

  lemma GroupDigit(bits: seq<bool>)
    requires |bits| == 6
    ensures UrlDigit(Group(bits)) >= 0 && Spell(UrlDigit(Group(bits)), 6) == bits
  {
    Pow2Small();
    LetterDigit(Val(bits));
    SpellVal(bits);
  }

  lemma DecodeCons(bits: seq<bool>, rest: string)
    requires |bits| == 6 && AllDigits(rest, UrlDigit)
    ensures var text := [Group(bits)] + rest; AllDigits(text, UrlDigit) && SixBits(text, UrlDigit) == bits + SixBits(rest, UrlDigit)
  {
    GroupDigit(bits);
    var text := [Group(bits)] + rest;
    assert text[1..] == rest;
    forall i | 0 <= i < |text|
      ensures UrlDigit(text[i]) >= 0
    {
      if i > 0 {
        assert text[i] == rest[i - 1];
      }
    }
  }

  lemma DecodeShort(bits: seq<bool>)
    requires 0 < |bits| < 6
    ensures AllDigits(EncodeBits(bits), UrlDigit) && SixBits(EncodeBits(bits), UrlDigit) == bits + Zeros(6 - |bits|)
  {
    var group := bits + Zeros(6 - |bits|);
    DecodeCons(group, "");
    assert [Group(group)] + "" == EncodeBits(bits);
    assert group + SixBits("", UrlDigit) == group;
  }

  lemma PutBack(bits: seq<bool>, more: seq<bool>)
    requires |bits| >= 6
    ensures bits + more == bits[..6] + (bits[6..] + more)
  {
  }

  lemma EncodeLong(bits: seq<bool>)
    requires |bits| >= 6
    ensures EncodeBits(bits) == [Group(bits[..6])] + EncodeBits(bits[6..])
  {
  }

  /** Reading gives the bits back, followed by the fill. */
  lemma {:induction false} DecodeEncodeBits(bits: seq<bool>) returns (fill: nat)
    ensures fill < 6
    ensures AllDigits(EncodeBits(bits), UrlDigit) && SixBits(EncodeBits(bits), UrlDigit) == bits + Zeros(fill)
    decreases |bits|
  {
    if bits == [] {
      fill := 0;
      assert bits + Zeros(0) == [];
    } else if |bits| < 6 {
      fill := 6 - |bits|;
      DecodeShort(bits);
    } else {
      fill := DecodeEncodeBits(bits[6..]);
      EncodeLong(bits);
      DecodeCons(bits[..6], EncodeBits(bits[6..]));
      PutBack(bits, Zeros(fill));
    }
  }

  /** No text of whole bytes ends in a lone character. */
  lemma NoLoneCharacter(n: nat)
    ensures (8 * n + 5) / 6 % 4 != 1
  {
    assert n == 3 * (n / 3) + n % 3;
    assert (8 * n + 5) / 6 == 4 * (n / 3) + (8 * (n % 3) + 5) / 6;
  }

  lemma DigitsReadable(text: string)
    requires AllDigits(text, UrlDigit)
    ensures Filter(text, NewLine) == text
  {
    NoNewLines(text);
  }

  /** Round trip: whatever bytes are written, the reader gets them back. */
  lemma RoundTrip(bytes: Bytes)
    ensures GoDecode(Encode(bytes)) == Some(bytes)
  {
    var fill := DecodeEncodeBits(OfBytes(bytes));
    DigitsReadable(Encode(bytes));
    NoLoneCharacter(|bytes|);
    assert |Encode(bytes)| == (8 * |bytes| + 5) / 6;
    ToBytesOfBytes(bytes, Zeros(fill));
  }

  /** Every identifier that is made of 16 random bytes is accepted, and browser and Agent read those bytes out of it. */
  lemma MadeIdIsValid(bytes: Bytes)
    requires |bytes| == 16
    ensures ValidOpaqueId(Encode(bytes)) && |Encode(bytes)| == 22 && BrowserDecode(Encode(bytes)) == Some(bytes)
  {
    RoundTrip(bytes);
    BrowserReadsAlike(Encode(bytes));
  }
}
