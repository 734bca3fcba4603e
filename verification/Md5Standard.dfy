/** The MD5 message digest as sections 3.1 to 3.5 of RFC 1321 describe it. */
module Md5Standard {
  import opened Bytes
  import opened Md5Words

  // ----- padding -----

  /** Padding zeros are appended until the length is 56 modulo 64. */
  function Zeros(n: nat): (z: nat)
    ensures z == (56 - n) % 64
    decreases (56 - n) % 64
  {
    if n % 64 == 56 then 0 else 1 + Zeros(n + 1)
  }

  /** A 64-bit number, low-order byte first. */
  function LittleEndian(n: nat, bytes: nat): (s: seq<byte>)
    ensures |s| == bytes
    decreases bytes
  {
    if bytes == 0 then [] else [n % 256] + LittleEndian(n / 256, bytes - 1)
  }

  lemma WholeBlocks(n: nat)
    ensures (n + 1 + (56 - (n + 1)) % 64 + 8) % 64 == 0
  {
    var q := (n + 9) / 64;
    assert n + 9 == 64 * q + (n + 9) % 64;
  }

  function Pad(message: seq<byte>): (p: seq<byte>)
    ensures |p| == |message| + 1 + Zeros(|message| + 1) + 8 && |p| % 64 == 0
  {
    hide Zeros, LittleEndian;
    WholeBlocks(|message|);
    message + [0x80] + seq(Zeros(|message| + 1), _ => 0) + LittleEndian(8 * |message|, 8)
  }

  // ----- the operation list -----

  /** The message word and the shift of each operation, round by round as printed. */
  function Round1(): (ops: seq<(nat, nat)>)
    ensures |ops| == 16 && forall j :: 0 <= j < 16 ==> ops[j].0 < 16 && ShiftOfMd5(ops[j].1)
  {
    [(0, 7), (1, 12), (2, 17), (3, 22), (4, 7), (5, 12), (6, 17), (7, 22),
     (8, 7), (9, 12), (10, 17), (11, 22), (12, 7), (13, 12), (14, 17), (15, 22)]
  }

  function Round2(): (ops: seq<(nat, nat)>)
    ensures |ops| == 16 && forall j :: 0 <= j < 16 ==> ops[j].0 < 16 && ShiftOfMd5(ops[j].1)
  {
    [(1, 5), (6, 9), (11, 14), (0, 20), (5, 5), (10, 9), (15, 14), (4, 20),
     (9, 5), (14, 9), (3, 14), (8, 20), (13, 5), (2, 9), (7, 14), (12, 20)]
  }

  function Round3(): (ops: seq<(nat, nat)>)
    ensures |ops| == 16 && forall j :: 0 <= j < 16 ==> ops[j].0 < 16 && ShiftOfMd5(ops[j].1)
  {
    [(5, 4), (8, 11), (11, 16), (14, 23), (1, 4), (4, 11), (7, 16), (10, 23),
     (13, 4), (0, 11), (3, 16), (6, 23), (9, 4), (12, 11), (15, 16), (2, 23)]
  }

  function Round4(): (ops: seq<(nat, nat)>)
    ensures |ops| == 16 && forall j :: 0 <= j < 16 ==> ops[j].0 < 16 && ShiftOfMd5(ops[j].1)
  {
    [(0, 6), (7, 10), (14, 15), (5, 21), (12, 6), (3, 10), (10, 15), (1, 21),
     (8, 6), (15, 10), (6, 15), (13, 21), (4, 6), (11, 10), (2, 15), (9, 21)]
  }

  /** The table built from the sine function. */
  function Table(): (t: seq<Word>)
    ensures |t| == 64
  {
    [0xD76AA478, 0xE8C7B756, 0x242070DB, 0xC1BDCEEE, 0xF57C0FAF, 0x4787C62A,
    0xA8304613, 0xFD469501, 0x698098D8, 0x8B44F7AF, 0xFFFF5BB1, 0x895CD7BE,
    0x6B901122, 0xFD987193, 0xA679438E, 0x49B40821, 0xF61E2562, 0xC040B340,
    0x265E5A51, 0xE9B6C7AA, 0xD62F105D, 0x02441453, 0xD8A1E681, 0xE7D3FBC8,
    0x21E1CDE6, 0xC33707D6, 0xF4D50D87, 0x455A14ED, 0xA9E3E905, 0xFCEFA3F8,
    0x676F02D9, 0x8D2A4C8A, 0xFFFA3942, 0x8771F681, 0x6D9D6122, 0xFDE5380C,
    0xA4BEEA44, 0x4BDECFA9, 0xF6BB4B60, 0xBEBFBC70, 0x289B7EC6, 0xEAA127FA,
    0xD4EF3085, 0x04881D05, 0xD9D4D039, 0xE6DB99E5, 0x1FA27CF8, 0xC4AC5665,
    0xF4292244, 0x432AFF97, 0xAB9423A7, 0xFC93A039, 0x655B59C3, 0x8F0CCC92,
    0xFFEFF47D, 0x85845DD1, 0x6FA87E4F, 0xFE2CE6E0, 0xA3014314, 0x4E0811A1,
    0xF7537E82, 0xBD3AF235, 0x2AD7D2BB, 0xEB86D391]
  }

  function Sine(n: nat): Word
    requires n < 64
  {
    Table()[n]
  }

  function Listed(n: nat): (r: (nat, nat))
    requires n < 64
    ensures r.0 < 16 && ShiftOfMd5(r.1)
  {
    hide Round1, Round2, Round3, Round4, ShiftOfMd5;
    if n < 16 then Round1()[n] else if n < 32 then Round2()[n - 16] else if n < 48 then Round3()[n - 32] else Round4()[n - 48]
  }

  // ----- the registers -----

  datatype State = State(a: Word, b: Word, c: Word, d: Word)

  function WordAt(s: seq<byte>, i: nat): Word
    requires i + 4 <= |s|
  {
    FromNumber(U32(s, i))
  }

  /** Block `k` as sixteen words. */
  function Block(padded: seq<byte>, k: nat): (x: seq<Word>)
    requires 64 * k + 64 <= |padded|
    ensures |x| == 16
  {
    seq(16, j requires 0 <= j < 16 => WordAt(padded, 64 * k + 4 * j))
  }

  function Auxiliary(n: nat, x: Word, y: Word, z: Word): Word {
    if n < 16 then F(x, y, z) else if n < 32 then G(x, y, z) else if n < 48 then H(x, y, z) else I(x, y, z)
  }

  /** The right-hand side b + ((a + f(b, c, d) + X[k] + T[i]) <<< s) of operation `n`. */
  function Updated(n: nat, a: Word, b: Word, c: Word, d: Word, x: seq<Word>): Word
    requires n < 64 && |x| == 16
  {
    var op := Listed(n);
    Plus(b, Circular(Plus4(a, Auxiliary(n, b, c, d), x[op.0], Sine(n)), op.1))
  }

  /** Operation `n` in place: the operations name their registers [ABCD], [DABC], [CDAB], [BCDA] in turn. */
  function Operation(n: nat, r: State, x: seq<Word>): State
    requires n < 64 && |x| == 16
  {
    if n % 4 == 0 then r.(a := Updated(n, r.a, r.b, r.c, r.d, x))
    else if n % 4 == 1 then r.(d := Updated(n, r.d, r.a, r.b, r.c, x))
    else if n % 4 == 2 then r.(c := Updated(n, r.c, r.d, r.a, r.b, x))
    else r.(b := Updated(n, r.b, r.c, r.d, r.a, x))
  }

  /** The first `n` operations. */
  function Operations(n: nat, r: State, x: seq<Word>): State
    requires n <= 64 && |x| == 16
  {
    if n == 0 then r else Operation(n - 1, Operations(n - 1, r, x), x)
  }

  function Sum(r: State, s: State): State {
    State(Plus(r.a, s.a), Plus(r.b, s.b), Plus(r.c, s.c), Plus(r.d, s.d))
  }

  const INITIAL := State(0x67452301, 0xEFCDAB89, 0x98BADCFE, 0x10325476)

  /** The registers after the first `k` blocks. */
  function Processed(padded: seq<byte>, k: nat): State
    requires 64 * k <= |padded|
  {
    if k == 0 then INITIAL
    else
      var before := Processed(padded, k - 1);
      Sum(before, Operations(64, before, Block(padded, k - 1)))
  }

  /** The digest: A to D, each low-order byte first. */
  function Output(r: State): (s: seq<byte>)
    ensures |s| == 16
  {
    hide Put32;
    Put32(Number(r.a)) + Put32(Number(r.b)) + Put32(Number(r.c)) + Put32(Number(r.d))
  }

  function Digest(message: seq<byte>): (s: seq<byte>)
    ensures |s| == 16
  {
    hide Pad;
    var padded := Pad(message);
    Output(Processed(padded, |padded| / 64))
  }

  /** Section 3.3 prints the initial registers byte by byte, low-order bytes first:
      01 23 45 67, 89 ab cd ef, fe dc ba 98, 76 54 32 10. */
  lemma RegistersStart()
    ensures Output(INITIAL) == [0x01, 0x23, 0x45, 0x67, 0x89, 0xAB, 0xCD, 0xEF, 0xFE, 0xDC, 0xBA, 0x98, 0x76, 0x54, 0x32, 0x10]
  {
    Stored(0x67452301, 0x01, 0x23, 0x45, 0x67);
    Stored(0xEFCDAB89, 0x89, 0xAB, 0xCD, 0xEF);
    Stored(0x98BADCFE, 0xFE, 0xDC, 0xBA, 0x98);
    Stored(0x10325476, 0x76, 0x54, 0x32, 0x10);
    hide Put32, Number;
    Numbers();
  }

  lemma Stored(n: nat, a: byte, b: byte, c: byte, d: byte)
    requires n < 0x1_0000_0000 && n == a + 0x100 * (b as int) + 0x1_0000 * (c as int) + 0x100_0000 * (d as int)
    ensures Put32(n) == [a, b, c, d]
  {
    assert n % 0x1_0000 == a + 0x100 * (b as int) && n / 0x1_0000 == c + 0x100 * (d as int);
  }

  lemma Numbers()
    ensures Number(0x67452301) == 0x67452301 && Number(0xEFCDAB89) == 0xEFCDAB89
    ensures Number(0x98BADCFE) == 0x98BADCFE && Number(0x10325476) == 0x10325476
  {
  }
}
