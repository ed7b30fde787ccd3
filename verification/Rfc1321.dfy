/** MD5 as RFC 1321 defines it: sections 3.1 to 3.5, on whole messages. */
module Rfc1321 {
  import opened Words

  datatype State = State(a: Word, b: Word, c: Word, d: Word)

  /** Section 3.3: the initial value of the four-word buffer. */
  const INITIAL: State := State(0x67452301, 0xefcdab89, 0x98badcfe, 0x10325476)

  // Section 3.4: the four auxiliary functions.

  function FBits(x: bv32, y: bv32, z: bv32): bv32 {
    (x & y) | (!x & z)
  }

  function GBits(x: bv32, y: bv32, z: bv32): bv32 {
    (x & z) | (y & !z)
  }

  function HBits(x: bv32, y: bv32, z: bv32): bv32 {
    x ^ y ^ z
  }

  function IBits(x: bv32, y: bv32, z: bv32): bv32 {
    y ^ (x | !z)
  }

  function F(x: Word, y: Word, z: Word): Word {
    FBits(x as bv32, y as bv32, z as bv32) as Word
  }

  function G(x: Word, y: Word, z: Word): Word {
    GBits(x as bv32, y as bv32, z as bv32) as Word
  }

  function H(x: Word, y: Word, z: Word): Word {
    HBits(x as bv32, y as bv32, z as bv32) as Word
  }

  function I(x: Word, y: Word, z: Word): Word {
    IBits(x as bv32, y as bv32, z as bv32) as Word
  }

  function Auxiliary(round: nat, x: Word, y: Word, z: Word): Word {
    match round
    case 0 => F(x, y, z)
    case 1 => G(x, y, z)
    case 2 => H(x, y, z)
    case _ => I(x, y, z)
  }

  /** The table T of section 3.4: entry i is the integer part of 2^32 * abs(sin(i + 1)). */
  function Sine(i: nat): Word
    requires i < 64
  {
    match i / 16

    case 0 => (
      match i % 16
      case 0 => 0xd76aa478 case 1 => 0xe8c7b756 case 2 => 0x242070db case 3 => 0xc1bdceee
      case 4 => 0xf57c0faf case 5 => 0x4787c62a case 6 => 0xa8304613 case 7 => 0xfd469501
      case 8 => 0x698098d8 case 9 => 0x8b44f7af case 10 => 0xffff5bb1 case 11 => 0x895cd7be
      case 12 => 0x6b901122 case 13 => 0xfd987193 case 14 => 0xa679438e case _ => 0x49b40821)
    case 1 => (
      match i % 16
      case 0 => 0xf61e2562 case 1 => 0xc040b340 case 2 => 0x265e5a51 case 3 => 0xe9b6c7aa
      case 4 => 0xd62f105d case 5 => 0x02441453 case 6 => 0xd8a1e681 case 7 => 0xe7d3fbc8
      case 8 => 0x21e1cde6 case 9 => 0xc33707d6 case 10 => 0xf4d50d87 case 11 => 0x455a14ed
      case 12 => 0xa9e3e905 case 13 => 0xfcefa3f8 case 14 => 0x676f02d9 case _ => 0x8d2a4c8a)
    case 2 => (
      match i % 16
      case 0 => 0xfffa3942 case 1 => 0x8771f681 case 2 => 0x6d9d6122 case 3 => 0xfde5380c
      case 4 => 0xa4beea44 case 5 => 0x4bdecfa9 case 6 => 0xf6bb4b60 case 7 => 0xbebfbc70
      case 8 => 0x289b7ec6 case 9 => 0xeaa127fa case 10 => 0xd4ef3085 case 11 => 0x04881d05
      case 12 => 0xd9d4d039 case 13 => 0xe6db99e5 case 14 => 0x1fa27cf8 case _ => 0xc4ac5665)
    case _ => (
      match i % 16
      case 0 => 0xf4292244 case 1 => 0x432aff97 case 2 => 0xab9423a7 case 3 => 0xfc93a039
      case 4 => 0x655b59c3 case 5 => 0x8f0ccc92 case 6 => 0xffeff47d case 7 => 0x85845dd1
      case 8 => 0x6fa87e4f case 9 => 0xfe2ce6e0 case 10 => 0xa3014314 case 11 => 0x4e0811a1
      case 12 => 0xf7537e82 case 13 => 0xbd3af235 case 14 => 0x2ad7d2bb case _ => 0xeb86d391)
  }

  /** The index k of operation i. */
  function WordIndex(i: nat): (k: nat)
    ensures k < 16
  {
    match i / 16
    case 0 => i % 16
    case 1 => (5 * i + 1) % 16
    case 2 => (3 * i + 5) % 16
    case _ => (7 * i) % 16
  }

  /** The shift s of operation i. */
  function Shift(i: nat): (s: nat)
    ensures 0 < s < 32
  {
    match i / 16
    case 0 => (match i % 4 case 0 => 7 case 1 => 12 case 2 => 17 case _ => 22)
    case 1 => (match i % 4 case 0 => 5 case 1 => 9 case 2 => 14 case _ => 20)
    case 2 => (match i % 4 case 0 => 4 case 1 => 11 case 2 => 16 case _ => 23)
    case _ => (match i % 4 case 0 => 6 case 1 => 10 case 2 => 15 case _ => 21)
  }

  /** One operation [abcd k s i]: a = b + ((a + fun(b,c,d) + X[k] + T[i]) <<< s). */
  function NewWord(fun: Word, a: Word, b: Word, x: Word, t: Word, s: nat): Word
    requires 0 < s < 32
  {
    Plus(b, RotateLeft(Plus(Plus(Plus(a, fun), x), t), s))
  }

  /** Operation i, after which the four words trade places so that the next
      operation again changes the first one. */
  function Operation(st: State, x: seq<Word>, i: nat): State
    requires |x| == 16 && i < 64
  {
    State(st.d,
          NewWord(Auxiliary(i / 16, st.b, st.c, st.d), st.a, st.b, x[WordIndex(i)], Sine(i), Shift(i)),
          st.b,
          st.c)
  }

  function Operations(st: State, x: seq<Word>, n: nat): State
    requires |x| == 16 && n <= 64
  {
    if n == 0 then st else Operation(Operations(st, x, n - 1), x, n - 1)
  }

  /** The 16 words of a 64-byte block, each with its low-order byte first. */
  function BlockWords(block: seq<Byte>): (x: seq<Word>)
    requires |block| == 64
    ensures |x| == 16
  {
    seq(16, j requires 0 <= j < 16 =>
      BytesToWord(block[4 * j], block[4 * j + 1], block[4 * j + 2], block[4 * j + 3]))
  }

  function AddStates(s: State, t: State): State {
    State(Plus(s.a, t.a), Plus(s.b, t.b), Plus(s.c, t.c), Plus(s.d, t.d))
  }

  function CompressWords(st: State, x: seq<Word>): State
    requires |x| == 16
  {
    AddStates(st, Operations(st, x, 64))
  }

  function Compress(st: State, block: seq<Byte>): State
    requires |block| == 64
  {
    CompressWords(st, BlockWords(block))
  }

  /** Section 3.4: every 64-byte block in turn. */
  function Absorb(data: seq<Byte>): State {
    if |data| < 64 then INITIAL
    else Compress(Absorb(data[..|data| - 64]), data[|data| - 64..])
  }

  /** Section 3.1: how many zero bytes follow the single 0x80 byte, so that the
      length is congruent to 56 modulo 64. */
  function PaddingZeros(n: nat): nat {
    if n % 64 < 56 then 55 - n % 64 else 119 - n % 64
  }

  /** Section 3.2: the low-order 64 bits of the bit length, low-order word first. */
  function LengthBytes(n: nat): (bs: seq<Byte>)
    ensures |bs| == 8
  {
    WordToBytes(Wrap(8 * n)) + WordToBytes(Wrap(8 * n / TWO32))
  }

  function Pad(msg: seq<Byte>): seq<Byte> {
    msg + [0x80] + Zeros(PaddingZeros(|msg|)) + LengthBytes(|msg|)
  }

  /** Padding loses nothing below 2^61 bytes, where the 64-bit length does not wrap. */
  lemma PadIsInjective(m1: seq<Byte>, m2: seq<Byte>)
    requires |m1| < 0x2000_0000_0000_0000 && |m2| < 0x2000_0000_0000_0000
    ensures Pad(m1) == Pad(m2) ==> m1 == m2
  {
    if Pad(m1) == Pad(m2) {
      var p := Pad(m1);
      assert p[|p| - 8..] == LengthBytes(|m1|) == LengthBytes(|m2|);
      LengthIsRecoverable(|m1|, |m2|);
      assert p[..|m1|] == m1 == m2;
    }
  }

  lemma LengthIsRecoverable(n1: nat, n2: nat)
    requires n1 < 0x2000_0000_0000_0000 && n2 < 0x2000_0000_0000_0000
    requires LengthBytes(n1) == LengthBytes(n2)
    ensures n1 == n2
  {
    hide WordToBytes;
    var l1, h1, l2, h2 := Wrap(8 * n1), Wrap(8 * n1 / TWO32), Wrap(8 * n2), Wrap(8 * n2 / TWO32);
    assert LengthBytes(n1)[..4] == WordToBytes(l1) && LengthBytes(n1)[4..] == WordToBytes(h1);
    assert LengthBytes(n2)[..4] == WordToBytes(l2) && LengthBytes(n2)[4..] == WordToBytes(h2);
    WordToBytesIsInjective(l1, l2);
    WordToBytesIsInjective(h1, h2);
    assert 8 * n1 == TWO32 * h1 + l1 && 8 * n2 == TWO32 * h2 + l2;
  }

  /** Section 3.5: the four words, low-order byte first. */
  function Output(st: State): (d: seq<Byte>)
    ensures |d| == 16
  {
    WordToBytes(st.a) + WordToBytes(st.b) + WordToBytes(st.c) + WordToBytes(st.d)
  }

  function Digest(msg: seq<Byte>): (d: seq<Byte>)
    ensures |d| == 16
  {
    Output(Absorb(Pad(msg)))
  }
}
