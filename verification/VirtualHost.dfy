/** The synthetic host name of a service, built twice: by the Agent with a base32 library and by the
    browser with an accumulator loop on 32-bit numbers. */
module VirtualHost {
  import opened ByteSeq
  import opened Bits
  import opened OpaqueId
  import opened Options
  import Base32
  import opened JsInt32
  import opened Arith

  function LowerChar(c: char): char {
    if 'A' <= c <= 'Z' then c - 'A' + 'a' else c
  }

  function Lower(text: string): (r: string)
    ensures |r| == |text| && forall i :: 0 <= i < |r| ==> r[i] == LowerChar(text[i])
  {
    seq(|text|, i requires 0 <= i < |text| => LowerChar(text[i]))
  }

  /** `virtualHostname` of the Agent on a decoded identifier. */
  function AgentHost(raw: Bytes): string {
    "s-" + Lower(Base32.Encode(raw)) + ".webvpn.invalid"
  }

  // ----- the accumulator -----

  const ALPHABET := "ABCDEFGHIJKLMNOPQRSTUVWXYZ234567"

  lemma AlphabetIsTable3(n: nat)
    requires n < 32
    ensures ALPHABET[n] == Base32.Letter(n)
  {
  }

  /** The accumulator agrees with the pending bits; everything above them may have wrapped away. */
  ghost predicate Holds(value: int, pending: seq<bool>) {
    ToUint32(value) % Pow2(|pending|) == Val(pending)
  }

  lemma Pow2Word(m: nat)
    requires m <= 24
    ensures Pow2(24) == 0x100_0000 && Pow2(m) * Pow2(24 - m) == 0x100_0000
  {
    Pow2Small();
    Pow2Add(8, 8);
    Pow2Add(8, 16);
    Pow2Add(m, 24 - m);
  }

  lemma ShiftInMod(u: nat, m: nat, b: nat)
    requires m <= 24 && b < 256
    ensures (256 * (u % 0x100_0000) + b) % Pow2(m + 8) == 256 * (u % Pow2(m)) + b
  {
    Pow2Word(m);
    ModMod(u, Pow2(m), Pow2(24 - m));
    ScaleMod(u % 0x100_0000, Pow2(m), b);
    Pow2Small();
    Pow2Add(m, 8);
  }

  lemma ValAppendByte(pending: seq<bool>, b: byte)
    ensures Val(pending + OfByte(b)) == 256 * Val(pending) + b
  {
    ValConcat(pending, OfByte(b));
    Pow2Small();
    ValSpell(b, 8);
  }

  lemma WordAppendByte(value: int, m: nat, b: byte)
    requires m < 5
    ensures ToUint32(Or(Shl(value, 8), b)) % Pow2(m + 8) == 256 * (ToUint32(value) % Pow2(m)) + b
  {
    ShiftInByte(value, b);
    ShiftInMod(ToUint32(value), m, b);
  }

  /** `value = (value << 8) | byte` appends the byte to the pending bits. */
  lemma HoldsShiftIn(value: int, pending: seq<bool>, b: byte)
    requires Holds(value, pending) && |pending| < 5
    ensures Holds(Or(Shl(value, 8), b), pending + OfByte(b))
  {
    ValAppendByte(pending, b);
    WordAppendByte(value, |pending|, b);
  }

  /** `(value >>> (bits - 5)) & 31` selects the oldest five pending bits. */
  lemma HoldsSelect(value: int, pending: seq<bool>)
    requires Holds(value, pending) && 5 <= |pending| <= 12
    ensures And(Ushr(value, |pending| - 5), 31) == Val(pending[..5]) < 32
    ensures Holds(value, pending[5..])
  {
    SplitFive(pending);
    SelectWord(value, |pending| - 5, Val(pending[..5]), Val(pending[5..]));
  }

  lemma SplitFive(pending: seq<bool>)
    requires 5 <= |pending|
    ensures Val(pending) == Val(pending[..5]) * Pow2(|pending| - 5) + Val(pending[5..])
    ensures Val(pending[..5]) < 32 && Val(pending[5..]) < Pow2(|pending| - 5)
  {
    assert pending == pending[..5] + pending[5..];
    ValConcat(pending[..5], pending[5..]);
    Pow2Small();
  }

  lemma SelectWord(value: int, k: nat, high: nat, low: nat)
    requires k <= 7 && high < 32 && low < Pow2(k) && ToUint32(value) % Pow2(k + 5) == high * Pow2(k) + low
    ensures And(Ushr(value, k), 31) == high && ToUint32(value) % Pow2(k) == low
  {
    UshrRange(value, k);
    AndLow(Ushr(value, k));
    assert Pow2(k + 5) == Pow2(k) * 32 by {
      Pow2Small();
      Pow2Add(k, 5);
    }
    Peel(ToUint32(value), Pow2(k), high, low);
  }

  lemma FillGroup(u: nat, m: nat)
    requires 0 < m < 5
    ensures u * Pow2(5 - m) % MOD % 32 == u % Pow2(m) * Pow2(5 - m)
  {
    ModMod(u * Pow2(5 - m), 32, 0x800_0000);
    assert Pow2(m) * Pow2(5 - m) == 32 by {
      Pow2Small();
      Pow2Add(m, 5 - m);
    }
    FillMod(u, Pow2(m), Pow2(5 - m));
  }

  lemma FillWord(value: int, m: nat, v: nat)
    requires 0 < m < 5 && ToUint32(value) % Pow2(m) == v
    ensures And(Shl(value, 5 - m), 31) == v * Pow2(5 - m) < 32
  {
    ShlPattern(value, 5 - m);
    AndLow(Shl(value, 5 - m));
    FillGroup(ToUint32(value), m);
  }

  lemma ValFill(pending: seq<bool>, k: nat)
    ensures Val(pending + Zeros(k)) == Val(pending) * Pow2(k)
  {
    ValZeros(k);
    ValConcat(pending, Zeros(k));
  }

  /** `(value << (5 - bits)) & 31` fills the last group with zeros. */
  lemma HoldsFill(value: int, pending: seq<bool>)
    requires Holds(value, pending) && 0 < |pending| < 5
    ensures And(Shl(value, 5 - |pending|), 31) == Val(pending + Zeros(5 - |pending|)) < 32
  {
    FillWord(value, |pending|, Val(pending));
    ValFill(pending, 5 - |pending|);
  }

  /** The text so far, the accumulator and the bytes still to come make up the base32 text. */
  ghost predicate Progress(bytes: Bytes, text: string, value: int, pending: seq<bool>, rest: Bytes) {
    Holds(value, pending) && Base32.Encode(bytes) == text + Base32.EncodeBits(pending + OfBytes(rest))
  }

  lemma BitsOfNext(pending: seq<bool>, rest: Bytes)
    requires rest != []
    ensures pending + OfBytes(rest) == (pending + OfByte(rest[0])) + OfBytes(rest[1..])
  {
  }

  lemma BitsOfGroup(pending: seq<bool>, rest: seq<bool>)
    requires |pending| >= 5
    ensures Base32.EncodeBits(pending + rest) == [Base32.Group(pending[..5])] + Base32.EncodeBits(pending[5..] + rest)
  {
    var all := pending + rest;
    assert all[..5] == pending[..5] && all[5..] == pending[5..] + rest;
  }

  lemma ProgressByte(bytes: Bytes, text: string, value: int, pending: seq<bool>, rest: Bytes)
    requires Progress(bytes, text, value, pending, rest) && |pending| < 5 && rest != []
    ensures Progress(bytes, text, Or(Shl(value, 8), rest[0]), pending + OfByte(rest[0]), rest[1..])
  {
    HoldsShiftIn(value, pending, rest[0]);
    BitsOfNext(pending, rest);
  }

  lemma GroupSelected(value: int, pending: seq<bool>)
    requires Holds(value, pending) && 5 <= |pending| <= 12
    ensures var n := And(Ushr(value, |pending| - 5), 31);
      0 <= n < 32 && ALPHABET[n] == Base32.Group(pending[..5]) && Holds(value, pending[5..])
  {
    HoldsSelect(value, pending);
    AlphabetIsTable3(And(Ushr(value, |pending| - 5), 31));
  }

  lemma TextGrows(text: string, c: char, more: string)
    ensures text + ([c] + more) == (text + [c]) + more
  {
  }

  lemma ProgressGroup(bytes: Bytes, text: string, value: int, pending: seq<bool>, rest: Bytes)
    requires Progress(bytes, text, value, pending, rest) && 5 <= |pending| <= 12
    ensures var n := And(Ushr(value, |pending| - 5), 31);
      0 <= n < 32 && Progress(bytes, text + [ALPHABET[n]], value, pending[5..], rest)
  {
    GroupSelected(value, pending);
    BitsOfGroup(pending, OfBytes(rest));
    TextGrows(text, Base32.Group(pending[..5]), Base32.EncodeBits(pending[5..] + OfBytes(rest)));
  }

  lemma ProgressEnd(bytes: Bytes, text: string, value: int, pending: seq<bool>)
    requires Progress(bytes, text, value, pending, []) && |pending| < 5
    ensures pending == [] ==> Base32.Encode(bytes) == text
    ensures pending != [] ==> var n := And(Shl(value, 5 - |pending|), 31);
      0 <= n < 32 && Base32.Encode(bytes) == text + [ALPHABET[n]]
  {
    assert pending + OfBytes([]) == pending;
    if pending != [] {
      HoldsFill(value, pending);
      AlphabetIsTable3(And(Shl(value, 5 - |pending|), 31));
    }
  }

  /** The inner loop: every five pending bits become a character. */
  method Drain(text: string, value: int, bits: nat, ghost bytes: Bytes, ghost pending: seq<bool>, ghost rest: Bytes)
    returns (text': string, bits': nat, ghost pending': seq<bool>)
    requires bits == |pending| <= 12 && Progress(bytes, text, value, pending, rest)
    ensures bits' == |pending'| < 5 && Progress(bytes, text', value, pending', rest)
  {
    text', bits', pending' := text, bits, pending;
    while bits' >= 5
      invariant bits' == |pending'| <= 12 && Progress(bytes, text', value, pending', rest)
    {
      ProgressGroup(bytes, text', value, pending', rest);
      text' := text' + [ALPHABET[And(Ushr(value, bits' - 5), 31)]];
      bits' := bits' - 5;
      pending' := pending'[5..];
    }
  }

  /** After the loop: bits that are left are filled up with zeros. */
  method Fill(text: string, value: int, bits: nat, ghost bytes: Bytes, ghost pending: seq<bool>) returns (text': string)
    requires bits == |pending| < 5 && Progress(bytes, text, value, pending, [])
    ensures text' == Base32.Encode(bytes)
  {
    ProgressEnd(bytes, text, value, pending);
    text' := text;
    if bits != 0 {
      text' := text + [ALPHABET[And(Shl(value, 5 - bits), 31)]];
    }
  }

  /** The loop of the browser's `virtualHostname`: for byte strings of any length it produces exactly
      the unpadded base32 text, although `value` is never masked and wraps at 32 bits. */
  method Accumulate(bytes: Bytes) returns (text: string)
    ensures text == Base32.Encode(bytes)
  {
    var bits, value := 0, 0;
    text := "";
    ghost var pending: seq<bool> := [];
    assert [] + OfBytes(bytes) == OfBytes(bytes);
    for n := 0 to |bytes|
      invariant bits == |pending| && bits < 5 && Progress(bytes, text, value, pending, bytes[n..])
    {
      ProgressByte(bytes, text, value, pending, bytes[n..]);
      value := Or(Shl(value, 8), bytes[n]);
      text, bits, pending := Drain(text, value, bits + 8, bytes, pending + OfByte(bytes[n]), bytes[n + 1..]);
    }
    text := Fill(text, value, bits, bytes, pending);
  }

  /** `virtualHostname` at the Agent, for an identifier that passed validation. */
  function AgentHostname(id: string): string
    requires ValidOpaqueId(id)
  {
    AgentHost(GoDecode(id).value)
  }

  /** `virtualHostname` in the browser; `None` stands for the exception.  For every identifier the
      Agent accepts it is the very name the Agent computes. */
  method BrowserHostname(id: string) returns (host: Option<string>)
    ensures BrowserDecode(id).Some? && |BrowserDecode(id).value| == 16 ==> host == Some(AgentHost(BrowserDecode(id).value))
    ensures BrowserDecode(id).None? || |BrowserDecode(id).value| != 16 ==> host == None
    ensures ValidOpaqueId(id) ==> host == Some(AgentHostname(id))
  {
    if ValidOpaqueId(id) {
      BrowserReadsAlike(id);
    }
    match BrowserDecode(id)
    case None => host := None;
    case Some(bytes) =>
      if |bytes| != 16 {
        return None;
      }
      var text := Accumulate(bytes);
      host := Some("s-" + Lower(text) + ".webvpn.invalid");
  }

  lemma LowerInjective(a: string, b: string)
    requires Base32.WellFormed(a) && Base32.WellFormed(b) && Lower(a) == Lower(b)
    ensures a == b
  {
    forall i | 0 <= i < |a|
      ensures a[i] == b[i]
    {
      assert a[i] in a && b[i] in b;
      assert Lower(a)[i] == Lower(b)[i];
    }
  }

  /** Host names distinguish identifiers exactly as far as their 16 bytes do. */
  lemma HostnamesSeparate(a: string, b: string)
    requires ValidOpaqueId(a) && ValidOpaqueId(b)
    ensures AgentHostname(a) == AgentHostname(b) <==> GoDecode(a) == GoDecode(b)
  {
    if AgentHostname(a) == AgentHostname(b) {
      var x, y := GoDecode(a).value, GoDecode(b).value;
      var p, q := Lower(Base32.Encode(x)), Lower(Base32.Encode(y));
      var tail := ".webvpn.invalid";
      assert ("s-" + p + tail)[2..2 + |p|] == p && ("s-" + q + tail)[2..2 + |q|] == q;
      Base32.RoundTrip(x);
      Base32.RoundTrip(y);
      LowerInjective(Base32.Encode(x), Base32.Encode(y));
    }
  }
}
