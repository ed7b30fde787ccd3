/** Bytes, 32-bit words and the few word operations that MD5 is made of.

    A `uint32` is an integer below 2^32 and wraps explicitly; the bitwise
    operators go through the bit-vector type `bv32`. */
module Words {
  const TWO32: int := 0x1_0000_0000

  type Byte = b: int | 0 <= b < 256
  type Word = w: int | 0 <= w < 0x1_0000_0000

  function Wrap(n: int): Word {
    n % 0x1_0000_0000
  }

  /** Unsigned 32-bit addition. */
  function Plus(x: Word, y: Word): Word {
    Wrap(x as int + y as int)
  }

  function RotateBits(x: bv32, s: nat): bv32
    requires 0 < s < 32
  {
    (x << s) | (x >> (32 - s))
  }

  /** Circular left shift, from two shifts. */
  function RotateLeft(x: Word, s: nat): Word
    requires 0 < s < 32
  {
    RotateBits(x as bv32, s) as Word
  }

  /** The four bytes of a word, low-order byte first. */
  function WordToBytes(w: Word): (bs: seq<Byte>)
    ensures |bs| == 4
  {
    [w % 0x100, w / 0x100 % 0x100, w / 0x1_0000 % 0x100, w / 0x100_0000]
  }

  lemma WordToBytesIsInjective(v: Word, w: Word)
    requires WordToBytes(v) == WordToBytes(w)
    ensures v == w
  {
    ByteDigits(v);
    ByteDigits(w);
  }

  lemma ByteDigits(w: Word)
    ensures var bs := WordToBytes(w); BytesToWord(bs[0], bs[1], bs[2], bs[3]) == w
  {
    assert w / 0x1_0000 == w / 0x100 / 0x100;
    assert w / 0x100_0000 == w / 0x1_0000 / 0x100;
  }

  function BytesToWord(b0: Byte, b1: Byte, b2: Byte, b3: Byte): Word {
    b0 + 0x100 * b1 + 0x1_0000 * b2 + 0x100_0000 * b3
  }

  function Zeros(n: nat): (z: seq<Byte>)
    ensures |z| == n
    ensures forall i :: 0 <= i < n ==> z[i] == 0
  {
    seq(n, i => 0)
  }
}
