/** Bytes and the little-endian words every file format of the repository is
    written in.

    A word is read at an offset of a byte string and written as a byte string of its
    own.  Reading what was written gives the word, and writing what was read gives the
    bytes, so a file's numbers can be followed through both its writer and its reader.
    The three widths are the ones the formats use: 32 bits, 16 bits, and single
    bytes. */
module Bytes {

  type byte = x: int | 0 <= x < 256

  const WORD := 0x1_0000_0000

  type word = x: nat | x < 0x1_0000_0000

  /** The four bytes of a 32-bit word, least significant first. */
  function Le32(n: nat): (b: seq<byte>)
    requires n < WORD
    ensures |b| == 4 && Rd32(b, 0) == n
  {
    var q1 := n / 256;
    var q2 := q1 / 256;
    [n % 256, q1 % 256, q2 % 256, q2 / 256]
  }

  /** The word at offset `o`. */
  function Rd32(b: seq<byte>, o: nat): (n: nat)
    requires o + 4 <= |b|
    ensures n < WORD
  {
    var b0: int, b1: int, b2: int, b3: int := b[o], b[o + 1], b[o + 2], b[o + 3];
    b0 + 256 * b1 + 65536 * b2 + 16777216 * b3
  }

  function Le16(n: nat): (b: seq<byte>)
    requires n < 0x1_0000
    ensures |b| == 2 && Rd16(b, 0) == n
  {
    [n % 256, n / 256]
  }

  function Rd16(b: seq<byte>, o: nat): (n: nat)
    requires o + 2 <= |b|
    ensures n < 0x1_0000
  {
    var b0: int, b1: int := b[o], b[o + 1];
    b0 + 256 * b1
  }

  /** Writing back the word that was read restores the bytes. */
  lemma Le32OfRd32(b: seq<byte>, o: nat)
    requires o + 4 <= |b|
    ensures Le32(Rd32(b, o)) == b[o..o + 4]
  {
    var b0: int, b1: int, b2: int, b3: int := b[o], b[o + 1], b[o + 2], b[o + 3];
    var n := Rd32(b, o);
    assert n == b0 + 256 * (b1 + 256 * (b2 + 256 * b3));
    assert n / 256 == b1 + 256 * (b2 + 256 * b3);
    assert n / 256 / 256 == b2 + 256 * b3;
  }

  /** The low byte comes first. */
  lemma LowByteFirst(b: seq<byte>, o: nat)
    requires o + 4 <= |b|
    ensures Rd32(b, o) % 0x100 == b[o] && Rd32(b, o) / 0x100_0000 == b[o + 3]
    ensures Rd32(b, o) == Rd16(b, o) + 0x1_0000 * Rd16(b, o + 2)
    ensures Rd16(b, o) % 0x100 == b[o] && Rd16(b, o) / 0x100 == b[o + 1]
  {
    var b0: int, b1: int, b2: int, b3: int := b[o], b[o + 1], b[o + 2], b[o + 3];
    assert Rd32(b, o) == b0 + 0x100 * (b1 + 256 * b2 + 65536 * b3);
  }
}
