/** Opaque identifiers: base64url text as Go's `RawURLEncoding` reads it and as the browser's `atob`
    reads it.  Both drop the spare bits of the last character. */
module OpaqueId {
  import opened ByteSeq
  import opened Bits
  import opened Options

  /** The six bits of a base64url character, or -1. */
  function UrlDigit(c: char): (r: int)
    ensures -1 <= r < 64
  {
    if 'A' <= c <= 'Z' then c as int - 'A' as int
    else if 'a' <= c <= 'z' then c as int - 'a' as int + 26
    else if '0' <= c <= '9' then c as int - '0' as int + 52
    else if c == '-' then 62
    else if c == '_' then 63
    else -1
  }

  /** The six bits of a standard base64 character, or -1. */
  function StdDigit(c: char): (r: int)
    ensures -1 <= r < 64
  {
    if c == '+' then 62 else if c == '/' then 63 else if c == '-' || c == '_' then -1 else UrlDigit(c)
  }

  function Filter(text: string, drop: char -> bool): string {
    if text == "" then ""
    else if drop(text[0]) then Filter(text[1..], drop)
    else [text[0]] + Filter(text[1..], drop)
  }

  predicate NewLine(c: char) {
    c == '\r' || c == '\n'
  }

  /** ASCII whitespace, which `atob` removes. */
  predicate Blank(c: char) {
    c == '\t' || c == '\n' || c == '\U{000C}' || c == '\r' || c == ' '
  }

  function SixBits(text: string, digit: char -> int): (r: seq<bool>) {
    if text == "" then []
    else (if digit(text[0]) >= 0 then Spell(digit(text[0]), 6) else Zeros(6)) + SixBits(text[1..], digit)
  }

  predicate AllDigits(text: string, digit: char -> int) {
    forall i :: 0 <= i < |text| ==> digit(text[i]) >= 0
  }

  /** `base64.RawURLEncoding.DecodeString`. */
  function GoDecode(text: string): Option<Bytes> {
    var t := Filter(text, NewLine);
    if !AllDigits(t, UrlDigit) || |t| % 4 == 1 then None
    else Some(ToBytes(SixBits(t, UrlDigit)))
  }

  /** One or two padding characters are dropped from text whose length is a multiple of four. */
  function Unpadded(t: string): string {
    if |t| % 4 != 0 then t
    else if |t| >= 2 && t[|t| - 2..] == "==" then t[..|t| - 2]
    else if |t| >= 1 && t[|t| - 1..] == "=" then t[..|t| - 1]
    else t
  }

  /** The forgiving base64 decoder behind `atob`. */
  function Atob(text: string): Option<Bytes> {
    var u := Unpadded(Filter(text, Blank));
    if !AllDigits(u, StdDigit) || |u| % 4 == 1 then None
    else Some(ToBytes(SixBits(u, StdDigit)))
  }

  function Translate(c: char): char {
    if c == '-' then '+' else if c == '_' then '/' else c
  }

  function TranslateAll(text: string): (r: string)
    ensures |r| == |text|
  {
    seq(|text|, i requires 0 <= i < |text| => Translate(text[i]))
  }

  /** What the browser decodes an identifier to. */
  function BrowserDecode(id: string): Option<Bytes> {
    Atob(TranslateAll(id) + "==")
  }

  predicate ValidOpaqueId(id: string) {
    GoDecode(id).Some? && |GoDecode(id).value| == 16
  }

  // ----- the browser reads every identifier the Agent accepts the same way -----

  lemma {:induction false} SixBitsLength(text: string, digit: char -> int)
    requires forall c :: digit(c) < 64
    ensures |SixBits(text, digit)| == 6 * |text|
  {
    if text != "" {
      SixBitsLength(text[1..], digit);
    }
  }

  lemma {:induction false} SixBitsTranslated(text: string)
    requires AllDigits(text, UrlDigit)
    ensures AllDigits(TranslateAll(text), StdDigit)
    ensures SixBits(TranslateAll(text), StdDigit) == SixBits(text, UrlDigit)
  {
    if text != "" {
      assert TranslateAll(text)[1..] == TranslateAll(text[1..]);
      SixBitsTranslated(text[1..]);
    }
  }

  lemma FilterCons(c: char, rest: string, drop: char -> bool)
    ensures Filter([c] + rest, drop) == if drop(c) then Filter(rest, drop) else [c] + Filter(rest, drop)
  {
    assert ([c] + rest)[1..] == rest;
  }

  lemma TranslateCons(c: char, rest: string)
    ensures TranslateAll([c] + rest) == [Translate(c)] + TranslateAll(rest)
  {
  }

  lemma DigitsCons(c: char, rest: string)
    requires AllDigits([c] + rest, UrlDigit)
    ensures UrlDigit(c) >= 0 && AllDigits(rest, UrlDigit)
  {
    assert ([c] + rest)[0] == c;
    assert forall i :: 0 <= i < |rest| ==> ([c] + rest)[i + 1] == rest[i];
  }

  lemma DigitIsKept(c: char)
    requires UrlDigit(c) >= 0
    ensures !Blank(Translate(c))
  {
  }

  lemma AppendAssoc(a: string, b: string, c: string)
    ensures a + (b + c) == a + b + c
  {
  }

  lemma KeepDigit(c: char, kept: string, mapped: string, tail: string)
    requires !Blank(Translate(c)) && Filter(mapped, Blank) == TranslateAll(kept) + tail
    ensures Filter([Translate(c)] + mapped, Blank) == TranslateAll([c] + kept) + tail
  {
    FilterCons(Translate(c), mapped, Blank);
    TranslateCons(c, kept);
    AppendAssoc([Translate(c)], TranslateAll(kept), tail);
  }

  lemma DropNewLine(c: char, mapped: string)
    requires NewLine(c)
    ensures Filter([Translate(c)] + mapped, Blank) == Filter(mapped, Blank)
  {
    FilterCons(Translate(c), mapped, Blank);
  }

  lemma TranslateHead(text: string, tail: string)
    requires text != ""
    ensures TranslateAll(text) + tail == [Translate(text[0])] + (TranslateAll(text[1..]) + tail)
  {
  }

  /** Line breaks are the only characters either side skips in such an identifier. */
  lemma {:induction false} SameFilter(text: string, tail: string)
    requires AllDigits(Filter(text, NewLine), UrlDigit)
    requires Filter(tail, Blank) == tail
    ensures Filter(TranslateAll(text) + tail, Blank) == TranslateAll(Filter(text, NewLine)) + tail
  {
    if text == "" {
      assert TranslateAll("") + tail == tail;
    } else {
      var c, rest := text[0], text[1..];
      TranslateHead(text, tail);
      if NewLine(c) {
        SameFilter(rest, tail);
        DropNewLine(c, TranslateAll(rest) + tail);
      } else {
        DigitsCons(c, Filter(rest, NewLine));
        SameFilter(rest, tail);
        DigitIsKept(c);
        KeepDigit(c, Filter(rest, NewLine), TranslateAll(rest) + tail, tail);
      }
    }
  }

  lemma PaddingIsKept()
    ensures Filter("==", Blank) == "=="
  {
    assert "=="[1..] == "=" && "="[1..] == "";
  }

  lemma AtobPadded(text: string, t: string)
    requires Filter(text, Blank) == t + "==" && |t| % 4 == 2 && AllDigits(t, StdDigit)
    ensures Atob(text) == Some(ToBytes(SixBits(t, StdDigit)))
  {
    PaddingIsDropped(t);
  }

  lemma PaddingIsDropped(t: string)
    requires |t| % 4 == 2
    ensures Unpadded(t + "==") == t
  {
    var full := t + "==";
    assert full[|full| - 2..] == "==" && full[..|full| - 2] == t;
  }

  lemma OpaqueIdLength(id: string)
    requires ValidOpaqueId(id)
    ensures |Filter(id, NewLine)| == 22
  {
    SixBitsLength(Filter(id, NewLine), UrlDigit);
  }

  /** Every identifier the Agent and the Controller accept decodes to the same bytes in the browser. */
  lemma BrowserReadsAlike(id: string)
    requires ValidOpaqueId(id)
    ensures BrowserDecode(id) == GoDecode(id)
  {
    var t := Filter(id, NewLine);
    OpaqueIdLength(id);
    AcceptedDigits(id);
    BrowserDecodes(id, t);
    GoDecodes(id, t);
  }

  lemma AcceptedDigits(id: string)
    requires ValidOpaqueId(id)
    ensures AllDigits(Filter(id, NewLine), UrlDigit)
  {
  }

  lemma BrowserDecodes(id: string, t: string)
    requires t == Filter(id, NewLine) && |t| == 22 && AllDigits(t, UrlDigit)
    ensures BrowserDecode(id) == Some(ToBytes(SixBits(t, UrlDigit)))
  {
    assert Filter(TranslateAll(id) + "==", Blank) == TranslateAll(t) + "==" by {
      PaddingIsKept();
      SameFilter(id, "==");
    }
    SixBitsTranslated(t);
    AtobPadded(TranslateAll(id) + "==", TranslateAll(t));
  }

  lemma GoDecodes(id: string, t: string)
    requires t == Filter(id, NewLine) && AllDigits(t, UrlDigit) && |t| % 4 != 1
    ensures GoDecode(id) == Some(ToBytes(SixBits(t, UrlDigit)))
  {
  }

  // ----- identifiers are not unique spellings -----

  lemma DropLowBit(n: nat, w: nat, m: nat)
    requires m <= w
    ensures Spell(n, w + 1)[..m] == Spell(n / 2, w)[..m]
  {
  }

  lemma TopBits(n: nat)
    ensures Spell(n, 6)[..2] == Spell(n / 16, 2)
  {
    DropLowBit(n, 5, 2);
    DropLowBit(n / 2, 4, 2);
    DropLowBit(n / 2 / 2, 3, 2);
    DropLowBit(n / 2 / 2 / 2, 2, 2);
    assert n / 2 / 2 / 2 / 2 == n / 16;
  }

  lemma LastSixBits(c: char)
    requires UrlDigit(c) >= 0
    ensures SixBits([c], UrlDigit) == Spell(UrlDigit(c), 6)
  {
    assert [c][1..] == "";
  }

  lemma DecodeLast(head: string, c: char)
    requires |head| == 21 && AllDigits(head + [c], UrlDigit) && UrlDigit(c) >= 0
    ensures ValidOpaqueId(head + [c]) && |SixBits(head, UrlDigit)| == 126
    ensures GoDecode(head + [c]).value == ToBytes(SixBits(head, UrlDigit) + Spell(UrlDigit(c), 6))
  {
    var id := head + [c];
    NoNewLines(id);
    GoDecodes(id, id);
    SixBitsLength(head, UrlDigit);
    BitsOfLast(head, c);
  }

  lemma BitsOfLast(head: string, c: char)
    requires UrlDigit(c) >= 0
    ensures SixBits(head + [c], UrlDigit) == SixBits(head, UrlDigit) + Spell(UrlDigit(c), 6)
  {
    SixBitsAppend(head, [c], UrlDigit);
    LastSixBits(c);
  }

  /** The last character carries two bits; characters that agree on them spell the same identifier. */
  lemma SpareBits(head: string, c: char, d: char)
    requires |head| == 21 && AllDigits(head + [c], UrlDigit) && AllDigits(head + [d], UrlDigit)
    requires 0 <= UrlDigit(c) && 0 <= UrlDigit(d) && UrlDigit(c) / 16 == UrlDigit(d) / 16
    ensures ValidOpaqueId(head + [c]) && ValidOpaqueId(head + [d]) && GoDecode(head + [c]) == GoDecode(head + [d])
  {
    DecodeLast(head, c);
    DecodeLast(head, d);
    TopBits(UrlDigit(c));
    TopBits(UrlDigit(d));
    var bits := SixBits(head, UrlDigit);
    assert (bits + Spell(UrlDigit(c), 6))[..128] == bits + Spell(UrlDigit(c), 6)[..2];
    assert (bits + Spell(UrlDigit(d), 6))[..128] == bits + Spell(UrlDigit(d), 6)[..2];
    ToBytesPrefix(bits + Spell(UrlDigit(c), 6), bits + Spell(UrlDigit(d), 6), 16);
  }

  lemma {:induction false} NoNewLines(text: string)
    requires forall i :: 0 <= i < |text| ==> !NewLine(text[i])
    ensures Filter(text, NewLine) == text
  {
    if text != "" {
      NoNewLines(text[1..]);
    }
  }

  lemma {:induction false} SixBitsAppend(a: string, b: string, digit: char -> int)
    requires forall c :: digit(c) < 64
    ensures SixBits(a + b, digit) == SixBits(a, digit) + SixBits(b, digit)
  {
    if a == "" {
      assert a + b == b;
    } else {
      assert (a + b)[1..] == a[1..] + b;
      SixBitsAppend(a[1..], b, digit);
    }
  }

  /** Bytes depend only on the bits they are made of. */
  lemma {:induction false} ToBytesPrefix(a: seq<bool>, b: seq<bool>, n: nat)
    requires |a| == |b| && 8 * n <= |a| < 8 * n + 8 && a[..8 * n] == b[..8 * n]
    ensures ToBytes(a) == ToBytes(b)
    decreases n
  {
    if n > 0 {
      assert a[..8] == a[..8 * n][..8] && b[..8] == b[..8 * n][..8];
      assert a[8..][..8 * (n - 1)] == a[..8 * n][8..] && b[8..][..8 * (n - 1)] == b[..8 * n][8..];
      ToBytesPrefix(a[8..], b[8..], n - 1);
    }
  }
}
