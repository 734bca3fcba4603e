/** Bytes and little-endian numbers. */
module Bytes {
  type byte = b: int | 0 <= b < 256

  /** The 16-bit number stored at `i`, low byte first. */
  function U16(s: seq<byte>, i: nat): (n: nat)
    requires i + 2 <= |s|
    ensures n < 0x1_0000
  {
    (s[i] as int) + 256 * (s[i + 1] as int)
  }

  function U32(s: seq<byte>, i: nat): (n: nat)
    requires i + 4 <= |s|
    ensures n < 0x1_0000_0000
  {
    U16(s, i) + 0x1_0000 * U16(s, i + 2)
  }

  function Put16(n: nat): (s: seq<byte>)
    requires n < 0x1_0000
    ensures |s| == 2 && U16(s, 0) == n
  {
    [n % 256, n / 256]
  }

  function Put32(n: nat): (s: seq<byte>)
    requires n < 0x1_0000_0000
    ensures |s| == 4 && U32(s, 0) == n
  {
    var s := Put16(n % 0x1_0000) + Put16(n / 0x1_0000);
    assert U16(s, 0) == n % 0x1_0000 && U16(s, 2) == n / 0x1_0000;
    s
  }
}
