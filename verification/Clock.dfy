/** Time as Go keeps it, in nanoseconds, and as the database keeps it, in whole seconds. */
module Clock {
  import opened ByteSeq

  const SECOND: int := 1_000_000_000
  const MINUTE: int := 60 * SECOND
  const HOUR: int := 60 * MINUTE

  /** `Time.Unix`: seconds, rounded down. */
  function Unix(t: int): (s: int)
    ensures s * SECOND <= t < (s + 1) * SECOND
  {
    t / SECOND
  }

  /** A SHA-256 or HMAC value. */
  type Digest = d: Bytes | |d| == 32 witness seq(32, _ => 0)

  /** The digest of nobody: the zero value of a Go array. */
  predicate Absent(d: Digest) {
    forall i :: 0 <= i < 32 ==> d[i] == 0
  }
}
