/** Octets, their ASCII reading, and 4-byte big-endian unsigned integers (Node's `Buffer.writeUInt32BE`). */
module Bytes {

  type Byte = b: int | 0 <= b < 256

  const Uint32Limit: nat := 0x1_0000_0000

  /** True when every character of `s` is 7-bit ASCII. */
  predicate IsAscii(s: string) {
    forall i :: 0 <= i < |s| ==> s[i] as int < 128
  }

  /** The bytes Node writes for an ASCII string (its UTF-8 encoding). */
  function AsciiBytes(s: string): (b: seq<Byte>)
    requires IsAscii(s)
    ensures |b| == |s|
    ensures forall i :: 0 <= i < |s| ==> b[i] == s[i] as int
  {
    seq(|s|, i requires 0 <= i < |s| => s[i] as int as Byte)
  }

  /** `sizeHeader.writeUInt32BE(n, 0)`: most significant byte first. */
  function Be32(n: nat): (b: seq<Byte>)
    requires n < Uint32Limit
    ensures |b| == 4
  {
    [n / 0x100_0000, (n / 0x1_0000) % 0x100, (n / 0x100) % 0x100, n % 0x100]
  }

  /** Reads a 4-byte big-endian unsigned integer, as clamd does with each chunk header. */
  function Be32Value(b: seq<Byte>): (n: nat)
    requires |b| == 4
    ensures n < Uint32Limit
  {
    (b[0] as int) * 0x100_0000 + (b[1] as int) * 0x1_0000 + (b[2] as int) * 0x100 + b[3] as int
  }

  /** Decoding a header gives back the length that was encoded. */
  lemma Be32RoundTrip(n: nat)
    requires n < Uint32Limit
    ensures Be32Value(Be32(n)) == n
  {
    var b := Be32(n);
    assert b[0] * 0x100_0000 + (n % 0x100_0000) == n;
    assert b[1] * 0x1_0000 + (n % 0x1_0000) == n % 0x100_0000;
    assert b[2] * 0x100 + (n % 0x100) == n % 0x1_0000;
  }

  /** A header decodes to zero exactly when it is four zero bytes. */
  lemma Be32ZeroOnlyForZeroBytes(b: seq<Byte>)
    requires |b| == 4
    ensures Be32Value(b) == 0 <==> b == [0, 0, 0, 0]
  {
  }
}
