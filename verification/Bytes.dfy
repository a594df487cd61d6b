/** Machine words and their big-endian byte form, as `encoding/binary` writes them. */
module Bytes {

  const TWO_32: int := 0x1_0000_0000

  type byte = x: int | 0 <= x < 256
  type uint32 = x: int | 0 <= x < TWO_32

  /** Truncation of any integer to an unsigned 32-bit word. */
  function U32(x: int): uint32 {
    x % TWO_32
  }

  function BigEndian(x: uint32): (s: seq<byte>)
    ensures |s| == 4
  {
    [x / 256 / 256 / 256, x / 256 / 256 % 256, x / 256 % 256, x % 256]
  }

  function FromBigEndian(s: seq<byte>): uint32
    requires |s| == 4
  {
    var b3: int, b2: int, b1: int, b0: int := s[0], s[1], s[2], s[3];
    ((b3 * 256 + b2) * 256 + b1) * 256 + b0
  }

  /** The byte of the greatest weight comes first. */
  lemma BigEndianWeighs(x: uint32)
    ensures var b3: int, b2: int, b1: int, b0: int := BigEndian(x)[0], BigEndian(x)[1], BigEndian(x)[2], BigEndian(x)[3];
            b3 * 0x100_0000 + b2 * 0x1_0000 + b1 * 0x100 + b0 == x
  {
  }

  lemma BigEndianInverse(x: uint32)
    ensures FromBigEndian(BigEndian(x)) == x
  {
  }

  lemma FromBigEndianInverse(s: seq<byte>)
    requires |s| == 4
    ensures BigEndian(FromBigEndian(s)) == s
  {
    var b3: int, b2: int, b1: int, b0: int := s[0], s[1], s[2], s[3];
    var x := FromBigEndian(s);
    assert x / 256 == (b3 * 256 + b2) * 256 + b1;
    assert x / 256 / 256 == b3 * 256 + b2;
  }
}
