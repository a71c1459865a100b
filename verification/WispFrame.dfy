/** The Wisp packet layout: one type byte, a little-endian 32-bit stream ID, and the payload. */
module WispFrame {
  import opened ByteSeq

  const CONNECT: byte := 0x01
  const DATA: byte := 0x02
  const CONTINUE: byte := 0x03
  const CLOSE: byte := 0x04
  const INFO: byte := 0x05

  const MAX_PACKET: nat := 65536

  type StreamId = n: nat | n < 0x1_0000_0000

  datatype Frame = Frame(kind: byte, stream: StreamId, payload: Bytes)

  datatype Parsed = Packet(frame: Frame) | TooShort | TooLong | UnknownKind(kind: byte)

  function Le32(n: StreamId): (r: Bytes)
    ensures |r| == 4
  {
    [n % 256, n / 0x100 % 256, n / 0x1_0000 % 256, n / 0x100_0000]
  }

  function FromLe32(b: Bytes): StreamId
    requires |b| == 4
  {
    b[0] as int + 0x100 * b[1] as int + 0x1_0000 * b[2] as int + 0x100_0000 * b[3] as int
  }

  function FromLe16(b: Bytes): nat
    requires |b| == 2
  {
    b[0] as int + 0x100 * b[1] as int
  }

  /** What `sendFrame` hands to the data channel. */
  function Encode(f: Frame): Bytes {
    [f.kind] + Le32(f.stream) + f.payload
  }

  function Parse(data: Bytes): Parsed {
    if |data| < 5 then TooShort
    else if |data| > MAX_PACKET then TooLong
    else if data[0] < CONNECT || data[0] > INFO then UnknownKind(data[0])
    else Packet(Frame(data[0], FromLe32(data[1..5]), data[5..]))
  }

  lemma Digits(n: nat, a: nat, b: nat)
    requires b < 256 && n == 256 * a + b
    ensures n / 256 == a && n % 256 == b
  {
  }

  lemma Le32RoundTrip(n: StreamId)
    ensures FromLe32(Le32(n)) == n
  {
    var a := n / 0x100;
    var b := a / 0x100;
    assert n / 0x1_0000 == b && n / 0x100_0000 == b / 0x100;
    assert n == 0x100 * a + n % 0x100 && a == 0x100 * b + a % 0x100 && b == 0x100 * (b / 0x100) + b % 0x100;
  }

  lemma Le32Spelling(b: Bytes)
    requires |b| == 4
    ensures Le32(FromLe32(b)) == b
  {
    var n := FromLe32(b);
    var n1 := b[1] as int + 0x100 * (b[2] as int + 0x100 * b[3] as int);
    var n2 := b[2] as int + 0x100 * b[3] as int;
    Digits(n, n1, b[0]);
    Digits(n1, n2, b[1]);
    Digits(n2, b[3], b[2]);
    assert n / 0x1_0000 == n2 && n / 0x100_0000 == b[3];
  }

  /** Where the parts of a packet are. */
  lemma Layout(kind: byte, id: Bytes, payload: Bytes)
    requires |id| == 4
    ensures var data := [kind] + id + payload;
      |data| == 5 + |payload| && data[0] == kind && data[1..5] == id && data[5..] == payload
  {
  }

  /** What is on the wire: the kind, the stream ID with its least significant byte first, the payload. */
  lemma OnTheWire(f: Frame)
    ensures var data := Encode(f);
      && |data| == 5 + |f.payload| && data[0] == f.kind && data[5..] == f.payload
      && f.stream == data[1] as int + 0x100 * data[2] as int + 0x1_0000 * data[3] as int + 0x100_0000 * data[4] as int
  {
    Layout(f.kind, Le32(f.stream), f.payload);
    Le32RoundTrip(f.stream);
  }

  /** What the parser reads: too short, too long or of an unknown kind, or else exactly these fields. */
  lemma ParsedFields(data: Bytes)
    ensures if |data| < 5 then Parse(data) == TooShort
            else if |data| > 65536 then Parse(data) == TooLong
            else if !(1 <= data[0] <= 5) then Parse(data) == UnknownKind(data[0])
            else && Parse(data).Packet?
                 && var f := Parse(data).frame;
                    && f.kind == data[0] && f.payload == data[5..]
                    && f.stream == data[1] as int + 0x100 * data[2] as int + 0x1_0000 * data[3] as int + 0x100_0000 * data[4] as int
  {
    if |data| >= 5 {
      var id := data[1..5];
      assert id[0] == data[1] && id[1] == data[2] && id[2] == data[3] && id[3] == data[4];
    }
  }

  /** Parsing inverts encoding on every frame of a known kind that fits one message. */
  lemma ParseEncode(f: Frame)
    ensures Parse(Encode(f)) == Packet(f) <==> CONNECT <= f.kind <= INFO && |f.payload| + 5 <= MAX_PACKET
  {
    var id := Le32(f.stream);
    Layout(f.kind, id, f.payload);
    Le32RoundTrip(f.stream);
  }

  /** Encoding inverts parsing: the parser accepts no second spelling of a frame. */
  lemma EncodeParse(data: Bytes)
    requires Parse(data).Packet?
    ensures Encode(Parse(data).frame) == data
  {
    Le32Spelling(data[1..5]);
    assert data == [data[0]] + data[1..5] + data[5..];
  }
}
