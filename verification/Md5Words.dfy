/** The 32-bit words of MD5. Sums wrap, as `| 0` makes them do in the source. */
module Md5Words {
  type Word = bv32

  function Plus(x: Word, y: Word): Word { x + y }

  function FromNumber(n: nat): Word
    requires n < 0x1_0000_0000
  {
    n as bv32
  }

  function Number(x: Word): (n: nat)
    ensures n < 0x1_0000_0000
  {
    x as int
  }

  /** The four auxiliary functions of section 3.4 of RFC 1321. */
  function F(x: Word, y: Word, z: Word): Word { (x & y) | (!x & z) }
  function G(x: Word, y: Word, z: Word): Word { (x & z) | (y & !z) }
  function H(x: Word, y: Word, z: Word): Word { x ^ y ^ z }
  function I(x: Word, y: Word, z: Word): Word { y ^ (x | !z) }

  /** "X <<< s": the circular shift to the left. */
  function Circular(x: Word, s: nat): Word
    requires s < 32
  {
    x.RotateLeft(s)
  }

  /** The source's rotation by two shifts. */
  function Rotate(x: Word, s: nat): Word
    requires s < 32
  {
    (x << s) | (x >> (32 - s))
  }

  /** The shift amounts of the four rounds. */
  predicate ShiftOfMd5(s: nat) {
    s in {7, 12, 17, 22} || s in {5, 9, 14, 20} || s in {4, 11, 16, 23} || s in {6, 10, 15, 21}
  }

  lemma Rotations1(x: Word)
    ensures Rotate(x, 7) == Circular(x, 7) && Rotate(x, 12) == Circular(x, 12)
    ensures Rotate(x, 17) == Circular(x, 17) && Rotate(x, 22) == Circular(x, 22)
  {
  }

  lemma Rotations2(x: Word)
    ensures Rotate(x, 5) == Circular(x, 5) && Rotate(x, 9) == Circular(x, 9)
    ensures Rotate(x, 14) == Circular(x, 14) && Rotate(x, 20) == Circular(x, 20)
  {
  }

  lemma Rotations3(x: Word)
    ensures Rotate(x, 4) == Circular(x, 4) && Rotate(x, 11) == Circular(x, 11)
    ensures Rotate(x, 16) == Circular(x, 16) && Rotate(x, 23) == Circular(x, 23)
  {
  }

  lemma Rotations4(x: Word)
    ensures Rotate(x, 6) == Circular(x, 6) && Rotate(x, 10) == Circular(x, 10)
    ensures Rotate(x, 15) == Circular(x, 15) && Rotate(x, 21) == Circular(x, 21)
  {
  }

  lemma RotateIsCircular(x: Word, s: nat)
    requires ShiftOfMd5(s)
    ensures Rotate(x, s) == Circular(x, s)
  {
    hide Rotate, Circular;
    Rotations1(x);
    Rotations2(x);
    Rotations3(x);
    Rotations4(x);
  }

  /** The sum of four words; the source adds the last two in the other order. */
  function Plus4(x: Word, y: Word, z: Word, t: Word): Word { x + y + z + t }

  lemma PlusCommutes(x: Word, y: Word, z: Word, t: Word)
    ensures Plus4(x, y, z, t) == Plus4(x, y, t, z)
  {
  }

  /** The source's own formulas for the four functions. */
  function SourceF(b: Word, c: Word, d: Word): Word { (b & c) | (!b & d) }
  function SourceG(b: Word, c: Word, d: Word): Word { (d & b) | (!d & c) }
  function SourceH(b: Word, c: Word, d: Word): Word { b ^ c ^ d }
  function SourceI(b: Word, c: Word, d: Word): Word { c ^ (b | !d) }

  lemma FAgrees(b: Word, c: Word, d: Word)
    ensures SourceF(b, c, d) == F(b, c, d)
  {
  }

  lemma GAgrees(b: Word, c: Word, d: Word)
    ensures SourceG(b, c, d) == G(b, c, d)
  {
  }

  lemma HAgrees(b: Word, c: Word, d: Word)
    ensures SourceH(b, c, d) == H(b, c, d)
  {
  }

  lemma IAgrees(b: Word, c: Word, d: Word)
    ensures SourceI(b, c, d) == I(b, c, d)
  {
  }
}
