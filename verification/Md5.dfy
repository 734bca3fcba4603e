/** The MD5 digest behind offline player ids, proved to compute RFC 1321. */
module Md5 {
  import opened Results
  import opened Bytes
  import opened HexText
  import opened Md5Words
  import opened Md5Standard

  /** The rows of the table of per-operation rotation amounts. */
  function Row1(): seq<nat> {
    [7, 12, 17, 22, 7, 12, 17, 22, 7, 12, 17, 22, 7, 12, 17, 22]
  }

  function Row2(): seq<nat> {
    [5, 9, 14, 20, 5, 9, 14, 20, 5, 9, 14, 20, 5, 9, 14, 20]
  }

  function Row3(): seq<nat> {
    [4, 11, 16, 23, 4, 11, 16, 23, 4, 11, 16, 23, 4, 11, 16, 23]
  }

  function Row4(): seq<nat> {
    [6, 10, 15, 21, 6, 10, 15, 21, 6, 10, 15, 21, 6, 10, 15, 21]
  }

  function Shift(i: nat): nat
    requires i < 64
  {
    if i < 16 then Row1()[i] else if i < 32 then Row2()[i - 16] else if i < 48 then Row3()[i - 32] else Row4()[i - 48]
  }

  /** Which message word operation `i` adds. */
  function MessageIndex(i: nat): (g: nat)
    ensures g < 16 || i < 16
  {
    if i < 16 then i else if i < 32 then (5 * i + 1) % 16 else if i < 48 then (3 * i + 5) % 16 else (7 * i) % 16
  }

  /** `ToInt32`: the conversion every 32-bit operator of the language applies. */
  function ToInt32(n: int): (r: int)
    ensures -0x8000_0000 <= r < 0x8000_0000
  {
    var m := n % 0x1_0000_0000;
    if m < 0x8000_0000 then m else m - 0x1_0000_0000
  }

  /** (((n + 8) >> 6) + 1) << 6 in 32-bit arithmetic. */
  function PaddedLength(n: nat): int {
    ToInt32((ToInt32(n + 8) / 64 + 1) * 64)
  }

  datatype Fault = RangeError

  // ----- padding -----

  /** The length formula gives the least multiple of 64 that leaves room for nine
      more bytes, as long as it fits in 32 bits. */
  lemma PaddedLengthExact(n: nat)
    requires n < 0x8000_0000 - 72
    ensures PaddedLength(n) == n + 1 + Zeros(n + 1) + 8
    ensures PaddedLength(n) % 64 == 0 && n + 9 <= PaddedLength(n) < n + 9 + 64
  {
    NoWrap(n);
    hide Zeros, PaddedLength;
    WholeBlocks(n);
    var q := (n + 8) / 64;
    assert 64 * q <= n + 8 < 64 * q + 64;
    assert n + 9 <= n + 1 + Zeros(n + 1) + 8 < n + 9 + 64;
  }

  lemma PaddedLengthLeast(n: nat, m: nat)
    requires n < 0x8000_0000 - 72 && m % 64 == 0 && m >= n + 9
    ensures m >= PaddedLength(n)
  {
    PaddedLengthExact(n);
    hide PaddedLength, Zeros;
    var p := PaddedLength(n);
    assert m == 64 * (m / 64) && p == 64 * (p / 64);
  }

  lemma NoWrap(n: nat)
    requires n < 0x8000_0000 - 72
    ensures PaddedLength(n) == ((n + 8) / 64 + 1) * 64
  {
  }

  /** Otherwise the buffer cannot be allocated or cannot hold the text. */
  lemma PaddedLengthWraps(n: nat)
    requires n >= 0x8000_0000 - 72
    ensures PaddedLength(n) < n
  {
    if n < 0x8000_0000 - 8 {
      assert (ToInt32(n + 8) / 64 + 1) * 64 == 0x8000_0000;
    } else if n < 0x8000_0000 {
      assert ToInt32(n + 8) == n + 8 - 0x1_0000_0000;
    }
  }

  function Bits(n: nat): (s: seq<byte>)
    requires n < 0x1_0000_0000 * 0x1_0000_0000
    ensures |s| == 8
  {
    Put32(n % 0x1_0000_0000) + Put32(n / 0x1_0000_0000)
  }

  lemma Put32Is(n: nat)
    requires n < 0x1_0000_0000
    ensures n / 0x100_0000 < 256
    ensures Put32(n) == [n % 256, n / 0x100 % 256, n / 0x1_0000 % 256, n / 0x100_0000]
  {
    var low, high := n % 0x1_0000, n / 0x1_0000;
    assert n == 0x1_0000 * high + low;
    assert low % 256 == n % 256 && low / 256 == n / 0x100 % 256;
    assert high / 256 == n / 0x100_0000;
    hide U16, U32;
  }

  lemma LowFirst(n: nat, k: nat)
    ensures LittleEndian(n, k + 1) == [n % 256] + LittleEndian(n / 256, k)
  {
  }

  lemma FourBytes(n: nat)
    requires n < 0x1_0000_0000
    ensures LittleEndian(n, 4) == Put32(n)
  {
    hide Put32, LittleEndian;
    Put32Is(n);
    LowFirst(n, 3);
    LowFirst(n / 0x100, 2);
    LowFirst(n / 0x1_0000, 1);
    LowFirst(n / 0x100_0000, 0);
    assert n / 0x100 / 256 == n / 0x1_0000 && n / 0x1_0000 / 256 == n / 0x100_0000;
    assert LittleEndian(n / 0x100_0000 / 256, 0) == [];
  }

  lemma Carry(low: nat, high: nat, p: nat)
    requires p > 0
    ensures (high * (256 * p) + low) % 256 == low % 256
    ensures (high * (256 * p) + low) / 256 == high * p + low / 256
  {
    assert high * (256 * p) + low == 256 * (high * p + low / 256) + low % 256;
  }

  /** The low bytes depend only on the low part, the rest only on the high part. */
  lemma Split(low: nat, high: nat)
    requires low < 0x1_0000_0000
    ensures LittleEndian(high * 0x1_0000_0000 + low, 8) == LittleEndian(low, 4) + LittleEndian(high, 4)
  {
    hide LittleEndian;
    var l1, l2, l3 := low / 0x100, low / 0x1_0000, low / 0x100_0000;
    LowFirst(high * 0x1_0000_0000 + low, 7);
    LowFirst(high * 0x100_0000 + l1, 6);
    LowFirst(high * 0x1_0000 + l2, 5);
    LowFirst(high * 0x100 + l3, 4);
    LowFirst(low, 3);
    LowFirst(l1, 2);
    LowFirst(l2, 1);
    LowFirst(l3, 0);
    Carry(low, high, 0x100_0000);
    Carry(l1, high, 0x1_0000);
    Carry(l2, high, 0x100);
    Carry(l3, high, 1);
    assert l1 / 256 == l2 && l2 / 256 == l3 && l3 / 256 == 0;
    assert LittleEndian(l3 / 256, 0) == [];
  }

  /** The two 32-bit halves, low half first, are the 64-bit length. */
  lemma LengthHalves(n: nat)
    requires n < 0x1_0000_0000 * 0x1_0000_0000
    ensures Bits(n) == LittleEndian(n, 8)
  {
    hide Put32, LittleEndian;
    FourBytes(n % 0x1_0000_0000);
    FourBytes(n / 0x1_0000_0000);
    Split(n % 0x1_0000_0000, n / 0x1_0000_0000);
  }

  method SetUint32(buf: array<byte>, at: nat, n: nat)
    requires at + 4 <= buf.Length && n < 0x1_0000_0000
    modifies buf
    ensures buf[..] == old(buf[..at]) + Put32(n) + old(buf[at + 4..])
  {
    hide *;
    Put32Is(n);
    buf[at], buf[at + 1], buf[at + 2], buf[at + 3] :=
      n % 256, n / 0x100 % 256, n / 0x1_0000 % 256, n / 0x100_0000;
  }

  method Fill(bytes: seq<byte>, paddedLen: nat) returns (buf: array<byte>)
    requires |bytes| < 0x8000_0000 && paddedLen == |bytes| + 1 + Zeros(|bytes| + 1) + 8
    ensures fresh(buf) && buf[..] == Pad(bytes)
  {
    hide *;
    var n, z := |bytes|, Zeros(|bytes| + 1);
    buf := new byte[paddedLen](_ => 0);
    for i := 0 to n
      invariant buf[..i] == bytes[..i]
      invariant forall k :: i <= k < paddedLen ==> buf[k] == 0
    {
      buf[i] := bytes[i];
    }
    buf[n] := 0x80;
    ghost var front := bytes + [0x80] + seq(z, _ => 0);
    ghost var marked := buf[..];
    assert marked == front + seq(8, _ => 0);
    SetUint32(buf, paddedLen - 8, 8 * n % 0x1_0000_0000);
    SetUint32(buf, paddedLen - 4, 8 * n / 0x1_0000_0000);
    BitsAre(8 * n);
    LengthsWritten(front, marked, Put32(8 * n % 0x1_0000_0000), Put32(8 * n / 0x1_0000_0000));
    LengthHalves(8 * n);
    PadIs(bytes);
  }

  /** Writing four bytes and four bytes over eight. */
  lemma LengthsWritten(front: seq<byte>, marked: seq<byte>, low: seq<byte>, high: seq<byte>)
    requires |marked| == |front| + 8 && marked[..|front|] == front && |low| == 4 && |high| == 4
    ensures var once := marked[..|front|] + low + marked[|front| + 4..];
      once[..|front| + 4] + high + once[|front| + 8..] == front + (low + high)
  {
  }

  lemma BitsAre(n: nat)
    requires n < 0x1_0000_0000 * 0x1_0000_0000
    ensures Bits(n) == Put32(n % 0x1_0000_0000) + Put32(n / 0x1_0000_0000)
  {
  }

  lemma PadIs(message: seq<byte>)
    ensures Pad(message) == message + [0x80] + seq(Zeros(|message| + 1), _ => 0) + LittleEndian(8 * |message|, 8)
  {
  }

  method Load(buf: array<byte>, block: nat, m: array<Word>)
    requires m.Length == 16 && block % 64 == 0 && block + 64 <= buf.Length
    modifies m
    ensures m[..] == Block(buf[..], block / 64)
  {
    hide WordAt;
    for i := 0 to 16
      invariant forall j :: 0 <= j < i ==> m[j] == WordAt(buf[..], block + 4 * j)
    {
      m[i] := WordAt(buf[..], block + 4 * i);
    }
  }

  // ----- one block -----

  /** The index formulas and the shift table are the standard's operation list. */
  lemma IndexAgrees(i: nat)
    requires i < 64
    ensures Listed(i) == (MessageIndex(i), Shift(i))
  {
    hide Row1, Row2, Row3, Row4, Round1, Round2, Round3, Round4;
    if i < 16 { Agreement1(i); }
    else if i < 32 { Agreement2(i - 16); }
    else if i < 48 { Agreement3(i - 32); }
    else { Agreement4(i - 48); }
  }

  /** The cases of a round, spelled out. */
  predicate OneOf16(j: nat) {
    || j == 0 || j == 1 || j == 2 || j == 3 || j == 4 || j == 5 || j == 6 || j == 7
    || j == 8 || j == 9 || j == 10 || j == 11 || j == 12 || j == 13 || j == 14 || j == 15
  }

  lemma Agreement1(j: nat)
    requires j < 16
    ensures |Round1()| == 16 && Round1()[j].0 == j
    ensures Round1()[j].1 == Row1()[j]
  {
    assert OneOf16(j);
  }

  lemma Agreement2(j: nat)
    requires j < 16
    ensures |Round2()| == 16 && Round2()[j].0 == (5 * (j + 16) + 1) % 16
    ensures Round2()[j].1 == Row2()[j]
  {
    assert OneOf16(j);
  }

  lemma Agreement3(j: nat)
    requires j < 16
    ensures |Round3()| == 16 && Round3()[j].0 == (3 * (j + 32) + 5) % 16
    ensures Round3()[j].1 == Row3()[j]
  {
    assert OneOf16(j);
  }

  lemma Agreement4(j: nat)
    requires j < 16
    ensures |Round4()| == 16 && Round4()[j].0 == 7 * (j + 48) % 16
    ensures Round4()[j].1 == Row4()[j]
  {
    assert OneOf16(j);
  }

  /** The registers in the order operation `n` names them. */
  function Named(n: nat, r: State): State {
    if n % 4 == 0 then r
    else if n % 4 == 1 then State(r.d, r.a, r.b, r.c)
    else if n % 4 == 2 then State(r.c, r.d, r.a, r.b)
    else State(r.b, r.c, r.d, r.a)
  }

  /** Renaming four variables after each step is rotating the registers' roles. */
  lemma Step(i: nat, r: State, x: seq<Word>)
    requires i < 64 && |x| == 16
    ensures var v := Named(i, r);
      Named(i + 1, Operation(i, r, x)) == State(v.d, Updated(i, v.a, v.b, v.c, v.d, x), v.b, v.c)
  {
    hide Updated;
    if i % 4 == 0 {
      assert (i + 1) % 4 == 1;
    } else if i % 4 == 1 {
      assert (i + 1) % 4 == 2;
    } else if i % 4 == 2 {
      assert (i + 1) % 4 == 3;
    } else {
      assert i % 4 == 3 && (i + 1) % 4 == 0;
    }
  }

  /** One pass of the source's loop computes the operation's new register value. */
  lemma SourceStep(i: nat, a: Word, b: Word, c: Word, d: Word, x: seq<Word>)
    requires i < 64 && |x| == 16
    ensures MessageIndex(i) < 16 && Shift(i) < 32
    ensures Plus(b, Rotate(Plus4(a, Formula(i, b, c, d), Sine(i), x[MessageIndex(i)]), Shift(i)))
            == Updated(i, a, b, c, d, x)
  {
    hide Formula, Auxiliary, Sine, Rotate, Circular, Listed, MessageIndex, Shift, Plus, Plus4;
    IndexAgrees(i);
    FormulaAgrees(i, b, c, d);
    var f, t, w := Formula(i, b, c, d), Sine(i), x[MessageIndex(i)];
    PlusCommutes(a, f, t, w);
    RotateIsCircular(Plus4(a, f, w, t), Shift(i));
  }

  function Formula(i: nat, b: Word, c: Word, d: Word): Word {
    if i < 16 then SourceF(b, c, d) else if i < 32 then SourceG(b, c, d) else if i < 48 then SourceH(b, c, d) else SourceI(b, c, d)
  }

  lemma FormulaAgrees(i: nat, b: Word, c: Word, d: Word)
    ensures Formula(i, b, c, d) == Auxiliary(i, b, c, d)
  {
    hide F, G, H, I, SourceF, SourceG, SourceH, SourceI;
    FAgrees(b, c, d);
    GAgrees(b, c, d);
    HAgrees(b, c, d);
    IAgrees(b, c, d);
  }

  lemma FormulaIs(i: nat, b: Word, c: Word, d: Word)
    ensures Formula(i, b, c, d) ==
      if i < 16 then SourceF(b, c, d) else if i < 32 then SourceG(b, c, d) else if i < 48 then SourceH(b, c, d) else SourceI(b, c, d)
    ensures MessageIndex(i) ==
      if i < 16 then i else if i < 32 then (5 * i + 1) % 16 else if i < 48 then (3 * i + 5) % 16 else (7 * i) % 16
  {
    hide SourceF, SourceG, SourceH, SourceI;
  }

  lemma NoOperations(s: State, x: seq<Word>)
    requires |x| == 16
    ensures Named(0, Operations(0, s, x)) == s
    ensures forall r :: Named(64, r) == r
  {
  }

  lemma OperationsNext(i: nat, s: State, x: seq<Word>)
    requires i < 64 && |x| == 16
    ensures Operations(i + 1, s, x) == Operation(i, Operations(i, s, x), x)
  {
  }

  /** The 64 steps on four variables that are renamed instead of rotated. */
  method Compress(m: array<Word>, s: State) returns (t: State)
    requires m.Length == 16
    ensures t == Operations(64, s, m[..])
  {
    hide *;
    var a, b, c, d := s.a, s.b, s.c, s.d;
    var i := 0;
    NoOperations(s, m[..]);
    while i < 64
      invariant 0 <= i <= 64
      invariant Named(i, Operations(i, s, m[..])) == State(a, b, c, d)
    {
      var f: Word, g: nat;
      if i < 16 {
        f, g := SourceF(b, c, d), i;
      } else if i < 32 {
        f, g := SourceG(b, c, d), (5 * i + 1) % 16;
      } else if i < 48 {
        f, g := SourceH(b, c, d), (3 * i + 5) % 16;
      } else {
        f, g := SourceI(b, c, d), (7 * i) % 16;
      }
      SourceStep(i, a, b, c, d, m[..]);
      assert f == Formula(i, b, c, d) && g == MessageIndex(i) by { FormulaIs(i, b, c, d); }
      Step(i, Operations(i, s, m[..]), m[..]);
      OperationsNext(i, s, m[..]);
      var tmp := d;
      d := c;
      c := b;
      var sum := Plus4(a, f, Sine(i), m[g]);
      b := Plus(b, Rotate(sum, Shift(i)));
      a := tmp;
      i := i + 1;
    }
    t := State(a, b, c, d);
  }

  // ----- the whole function -----

  lemma ProcessedNext(padded: seq<byte>, k: nat)
    requires 64 * k + 64 <= |padded|
    ensures Processed(padded, k + 1) == Sum(Processed(padded, k), Operations(64, Processed(padded, k), Block(padded, k)))
  {
  }

  lemma ProcessedNone(padded: seq<byte>)
    ensures Processed(padded, 0) == INITIAL
  {
  }

  lemma DigestIs(message: seq<byte>)
    ensures Digest(message) == Output(Processed(Pad(message), |Pad(message)| / 64))
  {
    hide Pad, Output, Processed;
  }

  /** The whole function on encoded text. A buffer length that comes out negative
      or too small for the text is a range error. */
  method Md5Hex(bytes: seq<byte>) returns (r: Result<string, Fault>)
    ensures r == if |bytes| < 0x8000_0000 - 72 then Success(Hex(Digest(bytes))) else Failure(RangeError)
    ensures r.Success? ==> Reads(r.value, Digest(bytes))
  {
    hide *;
    HexIsRead(Digest(bytes));
    var paddedLen := PaddedLength(|bytes|);
    if paddedLen < |bytes| {
      if |bytes| < 0x8000_0000 - 72 { PaddedLengthExact(|bytes|); }
      return Failure(RangeError);
    }
    if |bytes| >= 0x8000_0000 - 72 { PaddedLengthWraps(|bytes|); }
    PaddedLengthExact(|bytes|);
    var buf := Fill(bytes, paddedLen);
    var s := INITIAL;
    var m := new Word[16];
    var block := 0;
    ProcessedNone(Pad(bytes));
    while block < paddedLen
      invariant 0 <= block <= paddedLen && block % 64 == 0 && paddedLen % 64 == 0
      invariant buf[..] == Pad(bytes) && s == Processed(Pad(bytes), block / 64)
      decreases paddedLen - block
    {
      Load(buf, block, m);
      var t := Compress(m, s);
      ProcessedNext(Pad(bytes), block / 64);
      s := Sum(s, t);
      block := block + 64;
    }
    DigestIs(bytes);
    var hex := HexOf(Output(s));
    return Success(hex);
  }
}
