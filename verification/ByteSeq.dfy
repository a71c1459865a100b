/** Octets and payloads, as the Wisp and base32 code see them. */
module ByteSeq {

  type byte = x: int | 0 <= x < 256

  type Bytes = seq<byte>

  /** Concatenation of payloads in order: what a reader of the target socket observes. */
  function Concat(packets: seq<Bytes>): Bytes {
    if packets == [] then [] else packets[0] + Concat(packets[1..])
  }

  lemma {:induction false} ConcatSplit(a: seq<Bytes>, b: seq<Bytes>)
    ensures Concat(a + b) == Concat(a) + Concat(b)
  {
    if a == [] {
      assert a + b == b;
    } else {
      assert (a + b)[1..] == a[1..] + b;
      ConcatSplit(a[1..], b);
    }
  }

  lemma ConcatOne(p: Bytes)
    ensures Concat([p]) == p
  {
    assert [p][1..] == [];
  }

  /** A prefix of the packets is a prefix of the bytes. */
  lemma ConcatPrefix(a: seq<Bytes>, b: seq<Bytes>)
    requires a <= b
    ensures Concat(a) <= Concat(b)
  {
    assert b == a + b[|a|..];
    ConcatSplit(a, b[|a|..]);
  }
}
