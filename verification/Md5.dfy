/** The streaming MD5 of md5.cpp: a four-word state, a two-word byte counter and
    a 64-byte input block, all updated in place. */
module Md5 {
  import opened Words
  import Rfc = Rfc1321

  // ---------- The 64 steps ----------

  function F1Bits(x: bv32, y: bv32, z: bv32): (r: bv32)
    ensures r == Rfc.FBits(x, y, z)
  {
    assert z ^ (x & (y ^ z)) == (x & y) | (!x & z);
    z ^ (x & (y ^ z))
  }

  function F2Bits(x: bv32, y: bv32, z: bv32): (r: bv32)
    ensures r == Rfc.GBits(x, y, z)
  {
    F1Bits(z, x, y)
  }

  function F3Bits(x: bv32, y: bv32, z: bv32): (r: bv32)
    ensures r == Rfc.HBits(x, y, z)
  {
    x ^ y ^ z
  }

  function F4Bits(x: bv32, y: bv32, z: bv32): (r: bv32)
    ensures r == Rfc.IBits(x, y, z)
  {
    y ^ (x | !z)
  }

  function F1(x: Word, y: Word, z: Word): (r: Word)
    ensures r == Rfc.F(x, y, z)
  {
    F1Bits(x as bv32, y as bv32, z as bv32) as Word
  }

  function F2(x: Word, y: Word, z: Word): (r: Word)
    ensures r == Rfc.G(x, y, z)
  {
    F2Bits(x as bv32, y as bv32, z as bv32) as Word
  }

  function F3(x: Word, y: Word, z: Word): (r: Word)
    ensures r == Rfc.H(x, y, z)
  {
    F3Bits(x as bv32, y as bv32, z as bv32) as Word
  }

  function F4(x: Word, y: Word, z: Word): (r: Word)
    ensures r == Rfc.I(x, y, z)
  {
    F4Bits(x as bv32, y as bv32, z as bv32) as Word
  }

  lemma PlusAssociates(w: Word, x: Word, y: Word, z: Word)
    ensures Plus(w, Plus(x, Plus(y, z))) == Plus(Plus(Plus(w, x), y), z)
  {
    Regroup(x, y, z);
    Regroup(w, Plus(x, y), z);
    Regroup(w, x, y);
  }

  lemma Regroup(x: Word, y: Word, z: Word)
    ensures Plus(x, Plus(y, z)) == Plus(Plus(x, y), z)
  {
    assert Plus(y, z) == y + z || Plus(y, z) == y + z - TWO32;
    assert Plus(x, y) == x + y || Plus(x, y) == x + y - TWO32;
  }

  /** The MD5STEP macro: w += f + in, then w = (w <<< s) + x. */
  function Step(fun: Word, w: Word, x: Word, xk: Word, t: Word, s: nat): (r: Word)
    requires 0 < s < 32
    ensures r == Rfc.NewWord(fun, w, x, xk, t, s)
  {
    PlusAssociates(w, fun, xk, t);
    Plus(RotateLeft(Plus(w, Plus(fun, Plus(xk, t))), s), x)
  }

  method Round1First(ghost s0: Rfc.State, st: Rfc.State, x: seq<Word>) returns (r: Rfc.State)
    requires |x| == 16
    requires st == s0
    ensures r == Rfc.Operations(s0, x, 8)
  {
    hide Rfc.NewWord, Step, F1, F2, F3, F4, Rfc.F, Rfc.G, Rfc.H, Rfc.I;
    var a, b, c, d := st.a, st.b, st.c, st.d;
    a := Step(F1(b, c, d), a, b, x[0], 0xd76aa478, 7);
    assert Rfc.Operations(s0, x, 1) == Rfc.State(d, a, b, c);
    d := Step(F1(a, b, c), d, a, x[1], 0xe8c7b756, 12);
    assert Rfc.Operations(s0, x, 2) == Rfc.State(c, d, a, b);
    c := Step(F1(d, a, b), c, d, x[2], 0x242070db, 17);
    assert Rfc.Operations(s0, x, 3) == Rfc.State(b, c, d, a);
    b := Step(F1(c, d, a), b, c, x[3], 0xc1bdceee, 22);
    assert Rfc.Operations(s0, x, 4) == Rfc.State(a, b, c, d);
    a := Step(F1(b, c, d), a, b, x[4], 0xf57c0faf, 7);
    assert Rfc.Operations(s0, x, 5) == Rfc.State(d, a, b, c);
    d := Step(F1(a, b, c), d, a, x[5], 0x4787c62a, 12);
    assert Rfc.Operations(s0, x, 6) == Rfc.State(c, d, a, b);
    c := Step(F1(d, a, b), c, d, x[6], 0xa8304613, 17);
    assert Rfc.Operations(s0, x, 7) == Rfc.State(b, c, d, a);
    b := Step(F1(c, d, a), b, c, x[7], 0xfd469501, 22);
    assert Rfc.Operations(s0, x, 8) == Rfc.State(a, b, c, d);
    r := Rfc.State(a, b, c, d);
  }

  method Round1Second(ghost s0: Rfc.State, st: Rfc.State, x: seq<Word>) returns (r: Rfc.State)
    requires |x| == 16
    requires st == Rfc.Operations(s0, x, 8)
    ensures r == Rfc.Operations(s0, x, 16)
  {
    hide Rfc.NewWord, Step, F1, F2, F3, F4, Rfc.F, Rfc.G, Rfc.H, Rfc.I;
    var a, b, c, d := st.a, st.b, st.c, st.d;
    a := Step(F1(b, c, d), a, b, x[8], 0x698098d8, 7);
    assert Rfc.Operations(s0, x, 9) == Rfc.State(d, a, b, c);
    d := Step(F1(a, b, c), d, a, x[9], 0x8b44f7af, 12);
    assert Rfc.Operations(s0, x, 10) == Rfc.State(c, d, a, b);
    c := Step(F1(d, a, b), c, d, x[10], 0xffff5bb1, 17);
    assert Rfc.Operations(s0, x, 11) == Rfc.State(b, c, d, a);
    b := Step(F1(c, d, a), b, c, x[11], 0x895cd7be, 22);
    assert Rfc.Operations(s0, x, 12) == Rfc.State(a, b, c, d);
    a := Step(F1(b, c, d), a, b, x[12], 0x6b901122, 7);
    assert Rfc.Operations(s0, x, 13) == Rfc.State(d, a, b, c);
    d := Step(F1(a, b, c), d, a, x[13], 0xfd987193, 12);
    assert Rfc.Operations(s0, x, 14) == Rfc.State(c, d, a, b);
    c := Step(F1(d, a, b), c, d, x[14], 0xa679438e, 17);
    assert Rfc.Operations(s0, x, 15) == Rfc.State(b, c, d, a);
    b := Step(F1(c, d, a), b, c, x[15], 0x49b40821, 22);
    assert Rfc.Operations(s0, x, 16) == Rfc.State(a, b, c, d);
    r := Rfc.State(a, b, c, d);
  }

  method Round2First(ghost s0: Rfc.State, st: Rfc.State, x: seq<Word>) returns (r: Rfc.State)
    requires |x| == 16
    requires st == Rfc.Operations(s0, x, 16)
    ensures r == Rfc.Operations(s0, x, 24)
  {
    hide Rfc.NewWord, Step, F1, F2, F3, F4, Rfc.F, Rfc.G, Rfc.H, Rfc.I;
    var a, b, c, d := st.a, st.b, st.c, st.d;
    a := Step(F2(b, c, d), a, b, x[1], 0xf61e2562, 5);
    assert Rfc.Operations(s0, x, 17) == Rfc.State(d, a, b, c);
    d := Step(F2(a, b, c), d, a, x[6], 0xc040b340, 9);
    assert Rfc.Operations(s0, x, 18) == Rfc.State(c, d, a, b);
    c := Step(F2(d, a, b), c, d, x[11], 0x265e5a51, 14);
    assert Rfc.Operations(s0, x, 19) == Rfc.State(b, c, d, a);
    b := Step(F2(c, d, a), b, c, x[0], 0xe9b6c7aa, 20);
    assert Rfc.Operations(s0, x, 20) == Rfc.State(a, b, c, d);
    a := Step(F2(b, c, d), a, b, x[5], 0xd62f105d, 5);
    assert Rfc.Operations(s0, x, 21) == Rfc.State(d, a, b, c);
    d := Step(F2(a, b, c), d, a, x[10], 0x02441453, 9);
    assert Rfc.Operations(s0, x, 22) == Rfc.State(c, d, a, b);
    c := Step(F2(d, a, b), c, d, x[15], 0xd8a1e681, 14);
    assert Rfc.Operations(s0, x, 23) == Rfc.State(b, c, d, a);
    b := Step(F2(c, d, a), b, c, x[4], 0xe7d3fbc8, 20);
    assert Rfc.Operations(s0, x, 24) == Rfc.State(a, b, c, d);
    r := Rfc.State(a, b, c, d);
  }

  method Round2Second(ghost s0: Rfc.State, st: Rfc.State, x: seq<Word>) returns (r: Rfc.State)
    requires |x| == 16
    requires st == Rfc.Operations(s0, x, 24)
    ensures r == Rfc.Operations(s0, x, 32)
  {
    hide Rfc.NewWord, Step, F1, F2, F3, F4, Rfc.F, Rfc.G, Rfc.H, Rfc.I;
    var a, b, c, d := st.a, st.b, st.c, st.d;
    a := Step(F2(b, c, d), a, b, x[9], 0x21e1cde6, 5);
    assert Rfc.Operations(s0, x, 25) == Rfc.State(d, a, b, c);
    d := Step(F2(a, b, c), d, a, x[14], 0xc33707d6, 9);
    assert Rfc.Operations(s0, x, 26) == Rfc.State(c, d, a, b);
    c := Step(F2(d, a, b), c, d, x[3], 0xf4d50d87, 14);
    assert Rfc.Operations(s0, x, 27) == Rfc.State(b, c, d, a);
    b := Step(F2(c, d, a), b, c, x[8], 0x455a14ed, 20);
    assert Rfc.Operations(s0, x, 28) == Rfc.State(a, b, c, d);
    a := Step(F2(b, c, d), a, b, x[13], 0xa9e3e905, 5);
    assert Rfc.Operations(s0, x, 29) == Rfc.State(d, a, b, c);
    d := Step(F2(a, b, c), d, a, x[2], 0xfcefa3f8, 9);
    assert Rfc.Operations(s0, x, 30) == Rfc.State(c, d, a, b);
    c := Step(F2(d, a, b), c, d, x[7], 0x676f02d9, 14);
    assert Rfc.Operations(s0, x, 31) == Rfc.State(b, c, d, a);
    b := Step(F2(c, d, a), b, c, x[12], 0x8d2a4c8a, 20);
    assert Rfc.Operations(s0, x, 32) == Rfc.State(a, b, c, d);
    r := Rfc.State(a, b, c, d);
  }

  method Round3First(ghost s0: Rfc.State, st: Rfc.State, x: seq<Word>) returns (r: Rfc.State)
    requires |x| == 16
    requires st == Rfc.Operations(s0, x, 32)
    ensures r == Rfc.Operations(s0, x, 40)
  {
    hide Rfc.NewWord, Step, F1, F2, F3, F4, Rfc.F, Rfc.G, Rfc.H, Rfc.I;
    var a, b, c, d := st.a, st.b, st.c, st.d;
    a := Step(F3(b, c, d), a, b, x[5], 0xfffa3942, 4);
    assert Rfc.Operations(s0, x, 33) == Rfc.State(d, a, b, c);
    d := Step(F3(a, b, c), d, a, x[8], 0x8771f681, 11);
    assert Rfc.Operations(s0, x, 34) == Rfc.State(c, d, a, b);
    c := Step(F3(d, a, b), c, d, x[11], 0x6d9d6122, 16);
    assert Rfc.Operations(s0, x, 35) == Rfc.State(b, c, d, a);
    b := Step(F3(c, d, a), b, c, x[14], 0xfde5380c, 23);
    assert Rfc.Operations(s0, x, 36) == Rfc.State(a, b, c, d);
    a := Step(F3(b, c, d), a, b, x[1], 0xa4beea44, 4);
    assert Rfc.Operations(s0, x, 37) == Rfc.State(d, a, b, c);
    d := Step(F3(a, b, c), d, a, x[4], 0x4bdecfa9, 11);
    assert Rfc.Operations(s0, x, 38) == Rfc.State(c, d, a, b);
    c := Step(F3(d, a, b), c, d, x[7], 0xf6bb4b60, 16);
    assert Rfc.Operations(s0, x, 39) == Rfc.State(b, c, d, a);
    b := Step(F3(c, d, a), b, c, x[10], 0xbebfbc70, 23);
    assert Rfc.Operations(s0, x, 40) == Rfc.State(a, b, c, d);
    r := Rfc.State(a, b, c, d);
  }

  method Round3Second(ghost s0: Rfc.State, st: Rfc.State, x: seq<Word>) returns (r: Rfc.State)
    requires |x| == 16
    requires st == Rfc.Operations(s0, x, 40)
    ensures r == Rfc.Operations(s0, x, 48)
  {
    hide Rfc.NewWord, Step, F1, F2, F3, F4, Rfc.F, Rfc.G, Rfc.H, Rfc.I;
    var a, b, c, d := st.a, st.b, st.c, st.d;
    a := Step(F3(b, c, d), a, b, x[13], 0x289b7ec6, 4);
    assert Rfc.Operations(s0, x, 41) == Rfc.State(d, a, b, c);
    d := Step(F3(a, b, c), d, a, x[0], 0xeaa127fa, 11);
    assert Rfc.Operations(s0, x, 42) == Rfc.State(c, d, a, b);
    c := Step(F3(d, a, b), c, d, x[3], 0xd4ef3085, 16);
    assert Rfc.Operations(s0, x, 43) == Rfc.State(b, c, d, a);
    b := Step(F3(c, d, a), b, c, x[6], 0x04881d05, 23);
    assert Rfc.Operations(s0, x, 44) == Rfc.State(a, b, c, d);
    a := Step(F3(b, c, d), a, b, x[9], 0xd9d4d039, 4);
    assert Rfc.Operations(s0, x, 45) == Rfc.State(d, a, b, c);
    d := Step(F3(a, b, c), d, a, x[12], 0xe6db99e5, 11);
    assert Rfc.Operations(s0, x, 46) == Rfc.State(c, d, a, b);
    c := Step(F3(d, a, b), c, d, x[15], 0x1fa27cf8, 16);
    assert Rfc.Operations(s0, x, 47) == Rfc.State(b, c, d, a);
    b := Step(F3(c, d, a), b, c, x[2], 0xc4ac5665, 23);
    assert Rfc.Operations(s0, x, 48) == Rfc.State(a, b, c, d);
    r := Rfc.State(a, b, c, d);
  }

  method Round4First(ghost s0: Rfc.State, st: Rfc.State, x: seq<Word>) returns (r: Rfc.State)
    requires |x| == 16
    requires st == Rfc.Operations(s0, x, 48)
    ensures r == Rfc.Operations(s0, x, 56)
  {
    hide Rfc.NewWord, Step, F1, F2, F3, F4, Rfc.F, Rfc.G, Rfc.H, Rfc.I;
    var a, b, c, d := st.a, st.b, st.c, st.d;
    a := Step(F4(b, c, d), a, b, x[0], 0xf4292244, 6);
    assert Rfc.Operations(s0, x, 49) == Rfc.State(d, a, b, c);
    d := Step(F4(a, b, c), d, a, x[7], 0x432aff97, 10);
    assert Rfc.Operations(s0, x, 50) == Rfc.State(c, d, a, b);
    c := Step(F4(d, a, b), c, d, x[14], 0xab9423a7, 15);
    assert Rfc.Operations(s0, x, 51) == Rfc.State(b, c, d, a);
    b := Step(F4(c, d, a), b, c, x[5], 0xfc93a039, 21);
    assert Rfc.Operations(s0, x, 52) == Rfc.State(a, b, c, d);
    a := Step(F4(b, c, d), a, b, x[12], 0x655b59c3, 6);
    assert Rfc.Operations(s0, x, 53) == Rfc.State(d, a, b, c);
    d := Step(F4(a, b, c), d, a, x[3], 0x8f0ccc92, 10);
    assert Rfc.Operations(s0, x, 54) == Rfc.State(c, d, a, b);
    c := Step(F4(d, a, b), c, d, x[10], 0xffeff47d, 15);
    assert Rfc.Operations(s0, x, 55) == Rfc.State(b, c, d, a);
    b := Step(F4(c, d, a), b, c, x[1], 0x85845dd1, 21);
    assert Rfc.Operations(s0, x, 56) == Rfc.State(a, b, c, d);
    r := Rfc.State(a, b, c, d);
  }

  method Round4Second(ghost s0: Rfc.State, st: Rfc.State, x: seq<Word>) returns (r: Rfc.State)
    requires |x| == 16
    requires st == Rfc.Operations(s0, x, 56)
    ensures r == Rfc.Operations(s0, x, 64)
  {
    hide Rfc.NewWord, Step, F1, F2, F3, F4, Rfc.F, Rfc.G, Rfc.H, Rfc.I;
    var a, b, c, d := st.a, st.b, st.c, st.d;
    a := Step(F4(b, c, d), a, b, x[8], 0x6fa87e4f, 6);
    assert Rfc.Operations(s0, x, 57) == Rfc.State(d, a, b, c);
    d := Step(F4(a, b, c), d, a, x[15], 0xfe2ce6e0, 10);
    assert Rfc.Operations(s0, x, 58) == Rfc.State(c, d, a, b);
    c := Step(F4(d, a, b), c, d, x[6], 0xa3014314, 15);
    assert Rfc.Operations(s0, x, 59) == Rfc.State(b, c, d, a);
    b := Step(F4(c, d, a), b, c, x[13], 0x4e0811a1, 21);
    assert Rfc.Operations(s0, x, 60) == Rfc.State(a, b, c, d);
    a := Step(F4(b, c, d), a, b, x[4], 0xf7537e82, 6);
    assert Rfc.Operations(s0, x, 61) == Rfc.State(d, a, b, c);
    d := Step(F4(a, b, c), d, a, x[11], 0xbd3af235, 10);
    assert Rfc.Operations(s0, x, 62) == Rfc.State(c, d, a, b);
    c := Step(F4(d, a, b), c, d, x[2], 0x2ad7d2bb, 15);
    assert Rfc.Operations(s0, x, 63) == Rfc.State(b, c, d, a);
    b := Step(F4(c, d, a), b, c, x[9], 0xeb86d391, 21);
    assert Rfc.Operations(s0, x, 64) == Rfc.State(a, b, c, d);
    r := Rfc.State(a, b, c, d);
  }

  // ---------- Blocks of the message ----------

  /** How many of the first n bytes fill whole 64-byte blocks. */
  function WholeBlocks(n: nat): (m: nat)
    ensures m <= n && n - m == n % 64
  {
    n - n % 64
  }

  lemma WholeBlocksIs(n: nat, k: nat)
    requires 64 * k <= n < 64 * k + 64
    ensures WholeBlocks(n) == 64 * k && n % 64 == n - 64 * k
  {
  }

  lemma AbsorbBlock(data: seq<Byte>, block: seq<Byte>)
    requires |block| == 64
    ensures Rfc.Absorb(data + block) == Rfc.Compress(Rfc.Absorb(data), block)
  {
    var all := data + block;
    assert all[..|all| - 64] == data && all[|all| - 64..] == block;
  }

  /** How MD5Update cuts `data`: what completes the open block, then whole blocks,
      then the new open block. */
  lemma UpdateSplit(msg: seq<Byte>, data: seq<Byte>)
    requires 64 - |msg| % 64 <= |data|
    ensures var w, all := WholeBlocks(|msg|), msg + data;
            var space := 64 - |msg| % 64;
            var rest := data[space..];
            var m := WholeBlocks(|rest|);
            && all[..WholeBlocks(|all|)] == msg[..w] + msg[w..] + data[..space] + rest[..m]
            && all[WholeBlocks(|all|)..] == rest[m..]
  {
    var k, r := |msg| / 64, |msg| % 64;
    var rest := data[64 - r..];
    WholeBlocksIs(|msg|, k);
    WholeBlocksIs(|rest|, |rest| / 64);
    WholeBlocksIs(|msg| + |data|, k + 1 + |rest| / 64);
  }

  /** Data that leaves the block open only joins what is buffered. */
  lemma UpdateFits(msg: seq<Byte>, data: seq<Byte>)
    requires 64 - |msg| % 64 > |data|
    ensures var w, all := WholeBlocks(|msg|), msg + data;
            all[..WholeBlocks(|all|)] == msg[..w] && all[WholeBlocks(|all|)..] == msg[w..] + data
  {
    WholeBlocksIs(|msg|, |msg| / 64);
    WholeBlocksIs(|msg| + |data|, |msg| / 64);
  }

  /** How MD5Final pads: in one block when the tail leaves room for the length, else in two. */
  lemma FinalSplit(msg: seq<Byte>)
    ensures var w, n := WholeBlocks(|msg|), |msg|;
            var started := msg[w..] + [0x80];
            Rfc.Pad(msg) ==
              if n % 64 < 56 then
                msg[..w] + (started + Zeros(55 - n % 64)) + Rfc.LengthBytes(n)
              else
                msg[..w] + started + Zeros(63 - n % 64) + ([] + Zeros(56)) + Rfc.LengthBytes(n)
  {
    if |msg| % 64 >= 56 {
      assert Zeros(119 - |msg| % 64) == Zeros(63 - |msg| % 64) + Zeros(56);
    }
  }

  /** The bit length survives being assembled from the two counter words. */
  lemma CounterBits(n: nat)
    ensures var lo, hi := Wrap(n), Wrap(n / TWO32);
            && Wrap(8 * lo) == Wrap(8 * n)
            && Wrap(8 * hi) + lo / 0x2000_0000 == Wrap(8 * n / TWO32)
  {
    var q, lo := n / TWO32, n % TWO32;
    var u, hi := q / TWO32, q % TWO32;
    var k := lo / 0x2000_0000;
    var j := hi / 0x2000_0000;
    Quotient(8 * lo, k, 8 * lo - k * TWO32);
    Quotient(8 * n, 8 * q + k, 8 * lo - k * TWO32);
    Quotient(8 * hi, j, 8 * hi - j * TWO32);
    Quotient(8 * q + k, 8 * u + j, 8 * hi - j * TWO32 + k);
  }

  lemma Quotient(x: int, q: int, r: int)
    requires x == q * TWO32 + r && 0 <= r < TWO32
    ensures x / TWO32 == q && Wrap(x) == r
  {
  }

  /** The carry test of MD5Update: the low word got smaller exactly when it overflowed. */
  lemma CounterCarry(n: nat, len: nat)
    requires len < TWO32
    ensures var lo, hi := Wrap(n), Wrap(n / TWO32);
            && Plus(lo, len) == Wrap(n + len)
            && (if Plus(lo, len) < lo then Plus(hi, 1) else hi) == Wrap((n + len) / TWO32)
  {
    var q, lo := n / TWO32, n % TWO32;
    if lo + len < TWO32 {
      Quotient(n + len, q, lo + len);
    } else {
      Quotient(n + len, q + 1, lo + len - TWO32);
      NextWord(q);
    }
  }

  lemma NextWord(q: nat)
    ensures Plus(Wrap(q), 1) == Wrap(q + 1)
  {
  }

  lemma LowBits(n: nat)
    ensures Wrap(n) % 64 == n % 64
  {
  }

  method MemCopy(dst: array<Byte>, at: nat, src: seq<Byte>)
    requires at + |src| <= dst.Length
    modifies dst
    ensures dst[..at + |src|] == old(dst[..at]) + src
    ensures dst[at + |src|..] == old(dst[at + |src|..])
  {
    forall i | 0 <= i < |src| {
      dst[at + i] := src[i];
    }
  }

  class MD5Context {
    const buf: array<Word>
    const bytes: array<Word>
    const input: array<Byte>
    /** Everything absorbed since initialisation. */
    ghost var msg: seq<Byte>

    ghost predicate Shaped()
      reads this
    {
      buf.Length == 4 && bytes.Length == 2 && input.Length == 64 && buf != bytes
    }

    ghost function State(): Rfc.State
      requires Shaped()
      reads this, buf
    {
      Rfc.State(buf[0], buf[1], buf[2], buf[3])
    }

    /** The whole blocks of the message are absorbed, the rest is in the input block. */
    ghost predicate Buffered()
      reads this, buf, input
    {
      && Shaped()
      && var whole := WholeBlocks(|msg|);
      && State() == Rfc.Absorb(msg[..whole])
      && input[..|msg| - whole] == msg[whole..]
    }

    ghost predicate Counted()
      reads this, bytes
    {
      && Shaped()
      && bytes[0] == Wrap(|msg|)
      && bytes[1] == Wrap(|msg| / TWO32)
    }

    ghost predicate Valid()
      reads this, buf, bytes, input
    {
      Buffered() && Counted()
    }

    /** MD5Init */
    constructor ()
      ensures Valid() && msg == []
      ensures fresh(buf) && fresh(bytes) && fresh(input)
    {
      buf := new Word[4];
      bytes := new Word[2];
      input := new Byte[64];
      new;
      buf[0], buf[1], buf[2], buf[3] := 0x67452301, 0xefcdab89, 0x98badcfe, 0x10325476;
      bytes[0], bytes[1] := 0, 0;
      forall i | 0 <= i < 64 {
        input[i] := 0;
      }
      msg := [];
    }

    /** MD5Transform */
    method Transform()
      requires Shaped()
      modifies buf
      ensures State() == Rfc.Compress(old(State()), input[..])
    {
      hide Rfc.Operations;
      var st := Rfc.State(buf[0], buf[1], buf[2], buf[3]);
      var x := Rfc.BlockWords(input[..]);
      var r := Round1First(st, st, x);
      r := Round1Second(st, r, x);
      r := Round2First(st, r, x);
      r := Round2Second(st, r, x);
      r := Round3First(st, r, x);
      r := Round3Second(st, r, x);
      r := Round4First(st, r, x);
      r := Round4Second(st, r, x);
      buf[0] := Plus(buf[0], r.a);
      buf[1] := Plus(buf[1], r.b);
      buf[2] := Plus(buf[2], r.c);
      buf[3] := Plus(buf[3], r.d);
    }

    /** Completes the input block with `chunk` and transforms. */
    method TransformNext(at: nat, chunk: seq<Byte>, ghost done: seq<Byte>)
      requires Shaped() && at + |chunk| == 64
      requires State() == Rfc.Absorb(done)
      modifies buf, input
      ensures State() == Rfc.Absorb(done + old(input[..at]) + chunk)
    {
      hide Rfc.Compress, Rfc.Absorb;
      MemCopy(input, at, chunk);
      ghost var block := input[..];
      assert input[..at + |chunk|] == block;
      assert done + old(input[..at]) + chunk == done + block;
      AbsorbBlock(done, block);
      Transform();
    }

    /** The part of MD5Update that starts on a block boundary. */
    method UpdateBlocks(data: seq<Byte>, ghost done: seq<Byte>)
      requires Shaped()
      requires State() == Rfc.Absorb(done)
      modifies buf, input
      ensures var m := WholeBlocks(|data|);
              State() == Rfc.Absorb(done + data[..m]) && input[..|data| - m] == data[m..]
    {
      hide Rfc.Absorb, WholeBlocks;
      var pos, len := 0, |data|;
      ghost var k := 0;
      assert done + data[..0] == done;
      while len >= 64
        invariant pos == 64 * k && 0 <= len && pos + len == |data|
        invariant State() == Rfc.Absorb(done + data[..pos])
      {
        TransformNext(0, data[pos..pos + 64], done + data[..pos]);
        assert done + data[..pos] + [] + data[pos..pos + 64] == done + data[..pos + 64];
        pos, len, k := pos + 64, len - 64, k + 1;
      }
      MemCopy(input, 0, data[pos..]);
      WholeBlocksIs(|data|, k);
    }

    /** The byte counter, with its carry from the low to the high word. */
    method Count(len: nat, ghost n: nat)
      requires Shaped() && len < TWO32
      requires bytes[0] == Wrap(n) && bytes[1] == Wrap(n / TWO32)
      modifies bytes
      ensures bytes[0] == Wrap(n + len) && bytes[1] == Wrap((n + len) / TWO32)
    {
      hide Wrap, Plus;
      CounterCarry(n, len);
      var t := bytes[0];
      bytes[0] := Plus(t, len);
      if bytes[0] < t {
        bytes[1] := Plus(bytes[1], 1);
      }
    }

    /** MD5Update, after the counter; `space` is the space available in the input block. */
    method Append(data: seq<Byte>, space: nat)
      requires Buffered() && space == 64 - |msg| % 64
      modifies this, buf, input
      ensures Buffered() && msg == old(msg) + data
    {
      hide Rfc.Absorb, Wrap, WholeBlocks, Rfc.Compress;
      ghost var done, tail := msg[..WholeBlocks(|msg|)], msg[WholeBlocks(|msg|)..];
      assert |tail| == 64 - space && input[..64 - space] == tail;
      if space > |data| {
        UpdateFits(msg, data);
        msg := msg + data;
        MemCopy(input, 64 - space, data);
        assert |msg| - WholeBlocks(|msg|) == 64 - space + |data|;
      } else {
        UpdateSplit(msg, data);
        msg := msg + data;
        TransformNext(64 - space, data[..space], done);
        UpdateBlocks(data[space..], done + tail + data[..space]);
      }
    }

    /** MD5Update */
    method Update(data: seq<Byte>)
      requires Valid() && |data| < TWO32
      modifies this, buf, bytes, input
      ensures Valid() && msg == old(msg) + data
    {
      hide Rfc.Absorb, Wrap, WholeBlocks;
      LowBits(|msg|);
      var t := bytes[0];
      Count(|data|, |msg|);
      Append(data, 64 - t % 64);
    }

    /** MD5Final */
    method Final() returns (digest: seq<Byte>)
      requires Valid()
      modifies this, buf, bytes, input
      ensures digest == Rfc.Digest(old(msg))
      ensures forall i :: 0 <= i < 4 ==> buf[i] == 0
      ensures forall i :: 0 <= i < 2 ==> bytes[i] == 0
      ensures forall i :: 0 <= i < 64 ==> input[i] == 0
    {
      hide Rfc.Absorb, Wrap, WordToBytes, WholeBlocks, Rfc.Pad;
      ghost var done, tail := msg[..WholeBlocks(|msg|)], msg[WholeBlocks(|msg|)..];
      LowBits(|msg|);
      CounterBits(|msg|);
      FinalSplit(msg);
      var low := Wrap(8 * (bytes[0] as int));
      var high := Wrap(8 * (bytes[1] as int)) + bytes[0] / 0x2000_0000;
      var length := WordToBytes(low) + WordToBytes(high);
      assert length == Rfc.LengthBytes(|msg|);

      var count: int := bytes[0] % 64;
      var p := count;
      input[p] := 0x80;
      p := p + 1;
      var zeros: int := 56 - 1 - count;
      assert input[..p] == tail + [0x80];
      if zeros < 0 {
        TransformNext(p, Zeros(zeros + 8), done);
        done := done + (tail + [0x80]) + Zeros(zeros + 8);
        p := 0;
        zeros := 56;
      }
      ghost var before := input[..p];
      MemCopy(input, p, Zeros(zeros));
      assert done + (before + Zeros(zeros)) + length == Rfc.Pad(msg);
      TransformNext(56, length, done);
      digest := Rfc.Output(Rfc.State(buf[0], buf[1], buf[2], buf[3]));

      forall i | 0 <= i < 4 { buf[i] := 0; }
      forall i | 0 <= i < 2 { bytes[i] := 0; }
      forall i | 0 <= i < 64 { input[i] := 0; }
    }
  }

  function Joined(pieces: seq<seq<Byte>>): seq<Byte> {
    if pieces == [] then [] else Joined(pieces[..|pieces| - 1]) + pieces[|pieces| - 1]
  }

  /** However a message is cut into pieces, empty ones included, initialising, updating with
      each piece and finishing is the digest of the whole. */
  method DigestOfPieces(pieces: seq<seq<Byte>>) returns (digest: seq<Byte>)
    requires forall i :: 0 <= i < |pieces| ==> |pieces[i]| < TWO32
    ensures digest == Rfc.Digest(Joined(pieces))
  {
    hide Rfc.Digest, MD5Context.Valid;
    var ctx := new MD5Context();
    for i := 0 to |pieces|
      invariant ctx.Valid() && fresh(ctx) && fresh(ctx.buf) && fresh(ctx.bytes) && fresh(ctx.input)
      invariant ctx.msg == Joined(pieces[..i])
    {
      assert pieces[..i + 1][..i] == pieces[..i];
      ctx.Update(pieces[i]);
    }
    assert pieces[..|pieces|] == pieces;
    digest := ctx.Final();
  }
}
