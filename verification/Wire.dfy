/**
 The length-prefixed strings shared by the tablet serializer and the command log.
 A byte is modelled as a `char`, a byte string as a `string`.
 */
module Wire {

  type Bytes = string

  /** One more than the largest `uint32_t`. */
  const LIMIT32: nat := 0x1_0000_0000

  /** What a read leaves behind: nothing usable, or a value and the unread bytes. */
  datatype Parsed<T> = Fail | Got(value: T, rest: Bytes)

  ghost predicate Short(s: Bytes) {
    |s| < LIMIT32
  }

  /** A `uint32_t` written in little-endian byte order. */
  function Le32(n: nat): (b: Bytes)
    requires n < LIMIT32
    ensures |b| == 4
  {
    [(n % 256) as char, (n / 256 % 256) as char, (n / 65536 % 256) as char, (n / 16777216) as char]
  }

  function UnLe32(b: Bytes): nat
    requires |b| == 4
  {
    b[0] as int + 256 * (b[1] as int) + 65536 * (b[2] as int) + 16777216 * (b[3] as int)
  }

  lemma Le32RoundTrip(n: nat)
    requires n < LIMIT32
    ensures UnLe32(Le32(n)) == n
  {
    assert n / 256 / 256 == n / 65536 && n / 65536 / 256 == n / 16777216;
  }

  /** The 32-bit length is truncated, and so is the text that follows it. */
  function WriteString(s: Bytes): (b: Bytes)
    ensures Short(s) ==> b == Le32(|s|) + s
  {
    var len := |s| % LIMIT32;
    Le32(len) + s[..len]
  }

  function ReadString(b: Bytes): (r: Parsed<Bytes>)
    ensures r.Got? ==> |r.rest| < |b|
  {
    if |b| < 4 then Fail
    else
      var len := UnLe32(b[..4]);
      if |b| - 4 < len then Fail else Got(b[4..4 + len], b[4 + len..])
  }

  lemma ReadWritten(s: Bytes, rest: Bytes)
    requires Short(s)
    ensures ReadString(WriteString(s) + rest) == Got(s, rest)
  {
    var b := WriteString(s) + rest;
    Le32RoundTrip(|s|);
    assert b[..4] == Le32(|s|);
    assert b[4..4 + |s|] == s && b[4 + |s|..] == rest;
  }

  /** A written string that was cut short cannot be read back. */
  lemma ReadCut(s: Bytes, k: nat)
    requires Short(s) && k < |WriteString(s)|
    ensures ReadString(WriteString(s)[..k]) == Fail
  {
    if k >= 4 {
      Le32RoundTrip(|s|);
      assert WriteString(s)[..k][..4] == Le32(|s|);
    }
  }
}
