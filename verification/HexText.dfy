/** Bytes as lowercase hexadecimal text. */
module HexText {
  import opened Bytes

  function Digit(n: nat): char
    requires n < 16
  {
    "0123456789abcdef"[n]
  }

  /** Two digits for each byte, the high digit first. */
  function Hex(s: seq<byte>): (h: string)
    ensures |h| == 2 * |s|
  {
    if s == [] then "" else [Digit(s[0] / 16), Digit(s[0] % 16)] + Hex(s[1..])
  }

  /** `toString(16)`: no leading zeros. */
  function Radix16(n: nat): (h: string)
    decreases n
  {
    if n < 16 then [Digit(n)] else Radix16(n / 16) + [Digit(n % 16)]
  }

  /** `padStart(n, "0")`. */
  function PadStart(s: string, n: nat): string
    decreases n - |s|
  {
    if |s| >= n then s else PadStart("0" + s, n)
  }

  /** Each byte in base 16, padded to two digits. */
  method HexOf(bytes: seq<byte>) returns (hex: string)
    ensures hex == Hex(bytes) && Reads(hex, bytes)
  {
    hide *;
    HexIsRead(bytes);
    hex := "";
    for i := 0 to |bytes|
      invariant hex == Hex(bytes[..i])
    {
      HexNext(bytes, i);
      HexByte(bytes[i]);
      hex := hex + PadStart(Radix16(bytes[i]), 2);
    }
    assert bytes[..|bytes|] == bytes;
  }

  lemma HexByte(b: byte)
    ensures PadStart(Radix16(b), 2) == [Digit(b / 16), Digit(b % 16)]
  {
  }

  lemma {:induction false} HexNext(s: seq<byte>, i: nat)
    requires i < |s|
    ensures Hex(s[..i + 1]) == Hex(s[..i]) + [Digit(s[i] / 16), Digit(s[i] % 16)]
    decreases i
  {
    if i > 0 {
      HexNext(s[1..], i - 1);
      assert s[..i + 1][1..] == s[1..][..i] && s[..i][1..] == s[1..][..i - 1];
    }
  }

  /** Where the digits of byte `i` are. */
  lemma {:induction false} HexAt(s: seq<byte>, i: nat)
    requires i < |s|
    ensures Hex(s)[2 * i] == Digit(s[i] / 16) && Hex(s)[2 * i + 1] == Digit(s[i] % 16)
    decreases i
  {
    if i > 0 { HexAt(s[1..], i - 1); }
  }

  predicate IsDigit(c: char) { '0' <= c <= '9' || 'a' <= c <= 'f' }

  /** What a digit stands for, by its place in the alphabet. */
  function Value(c: char): nat
    requires IsDigit(c)
  {
    if c <= '9' then c as nat - '0' as nat else c as nat - 'a' as nat + 10
  }

  lemma DigitValue(n: nat)
    requires n < 16
    ensures IsDigit(Digit(n)) && Value(Digit(n)) == n
  {
  }

  /** Reading the text two digits at a time gives the bytes back. */
  lemma HexReads(s: seq<byte>, i: nat)
    requires i < |s|
    ensures IsDigit(Hex(s)[2 * i]) && IsDigit(Hex(s)[2 * i + 1])
    ensures Value(Hex(s)[2 * i]) * 16 + Value(Hex(s)[2 * i + 1]) == s[i]
  {
    HexAt(s, i);
    DigitValue(s[i] / 16);
    DigitValue(s[i] % 16);
    hide Hex, Digit, Value, IsDigit;
  }

  /** The text of a list of bytes, told by reading it. */
  ghost predicate Reads(text: string, s: seq<byte>) {
    && |text| == 2 * |s|
    && forall i :: 0 <= i < |s| ==> IsDigit(text[2 * i]) && IsDigit(text[2 * i + 1])
                                    && Value(text[2 * i]) * 16 + Value(text[2 * i + 1]) == s[i]
  }

  lemma HexIsRead(s: seq<byte>)
    ensures Reads(Hex(s), s)
  {
    hide Hex;
    forall i | 0 <= i < |s| { HexReads(s, i); }
  }

  /** Different bytes have different texts. */
  lemma HexInjective(a: seq<byte>, b: seq<byte>)
    requires |a| == |b| && Hex(a) == Hex(b)
    ensures a == b
  {
    hide Hex, Value;
    forall i | 0 <= i < |a| ensures a[i] == b[i] {
      HexReads(a, i);
      HexReads(b, i);
    }
  }
}
