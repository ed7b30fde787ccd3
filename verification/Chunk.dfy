/** TRANSFER_COMMAND_FILE_DATA: how a chunk of a file is disguised, checksummed,
    sent, checked and restored. */
module Chunk {
  import opened Words
  import opened Wrappers

  const MUNGE_MODE_NONE := 0
  const MUNGE_MODE_XOR := 1

  /** The fields of a data message; "mm" is absent when the data is sent as it is, and a
      peer may leave the checksum out. */
  datatype DataMessage = DataMessage(data: seq<Byte>, mm: Option<int>, chk: Option<Word>)

  // ---------- The position-weighted checksum ----------

  function PowerOfTwo(k: nat): (p: nat)
    requires k < 24
    ensures 0 < p <= 0x80_0000
  {
    match k
    case 0 => 0x1 case 1 => 0x2 case 2 => 0x4 case 3 => 0x8
    case 4 => 0x10 case 5 => 0x20 case 6 => 0x40 case 7 => 0x80
    case 8 => 0x100 case 9 => 0x200 case 10 => 0x400 case 11 => 0x800
    case 12 => 0x1000 case 13 => 0x2000 case 14 => 0x4000 case 15 => 0x8000
    case 16 => 0x10000 case 17 => 0x20000 case 18 => 0x40000 case 19 => 0x80000
    case 20 => 0x100000 case 21 => 0x200000 case 22 => 0x400000 case _ => 0x800000
  }

  /** The byte at position i, shifted left by i modulo 24. */
  function Shifted(b: Byte, i: nat): nat {
    b * PowerOfTwo(i % 24)
  }

  /** The sum before it wraps. */
  function WeightedSum(data: seq<Byte>): nat {
    if data == [] then 0
    else WeightedSum(data[..|data| - 1]) + Shifted(data[|data| - 1], |data| - 1)
  }

  function Checksum(data: seq<Byte>): Word {
    Wrap(WeightedSum(data))
  }

  /** Each weight is twice the one before it, and the first is one. */
  lemma WeightsDouble(k: nat)
    requires k < 23
    ensures PowerOfTwo(0) == 1 && PowerOfTwo(k + 1) == 2 * PowerOfTwo(k)
  {
  }

  lemma WrapAgain(s: int, x: int)
    ensures Wrap(Wrap(s) + x) == Wrap(s + x)
  {
  }

  method CalculateChecksum(data: seq<Byte>) returns (sum: Word)
    ensures sum == Checksum(data)
  {
    hide Shifted, Wrap;
    sum := 0;
    WrapZero();
    for i := 0 to |data|
      invariant sum == Checksum(data[..i])
    {
      assert data[..i + 1][..i] == data[..i];
      WrapAgain(WeightedSum(data[..i]), Shifted(data[i], i));
      sum := Wrap(sum + Shifted(data[i], i));
    }
    assert data[..|data|] == data;
  }

  lemma WrapZero()
    ensures Wrap(0) == 0
  {
  }

  lemma {:induction false} SumAfterChange(data: seq<Byte>, i: nat, b: Byte)
    requires i < |data|
    ensures WeightedSum(data[i := b]) == WeightedSum(data) + (b - data[i]) * PowerOfTwo(i % 24)
    decreases |data|
  {
    hide PowerOfTwo;
    var n := |data| - 1;
    if i == n {
      Distribute(data[i], b, PowerOfTwo(i % 24));
      assert data[i := b][..n] == data[..n];
    } else {
      assert data[i := b][..n] == data[..n][i := b];
      SumAfterChange(data[..n], i, b);
    }
  }

  lemma {:induction false} SumOfZeros(n: nat)
    ensures WeightedSum(Zeros(n)) == 0
  {
    if n > 0 {
      assert Zeros(n)[..n - 1] == Zeros(n - 1);
      SumOfZeros(n - 1);
    }
  }

  lemma SumOfOne(n: nat, i: nat, b: Byte)
    requires i < n
    ensures WeightedSum(Zeros(n)[i := b]) == b * PowerOfTwo(i % 24)
  {
    hide PowerOfTwo, WeightedSum;
    SumOfZeros(n);
    SumAfterChange(Zeros(n), i, b);
    Distribute(0, b, PowerOfTwo(i % 24));
  }

  lemma WeightBefore(i: nat)
    requires i % 24 != 0
    ensures i > 0 && (i - 1) % 24 == i % 24 - 1
  {
  }

  /** A byte among zeros is doubled once for each position before it, and the doubling
      starts anew at every 24th position. */
  lemma SumOfOneByte(n: nat, i: nat, b: Byte)
    requires i < n
    ensures var sum := WeightedSum(Zeros(n)[i := b]);
            && (i % 24 == 0 ==> sum == b)
            && (i % 24 != 0 ==> sum == 2 * WeightedSum(Zeros(n)[i - 1 := b]))
  {
    hide WeightedSum;
    SumOfOne(n, i, b);
    if i % 24 == 0 {
      WeightsDouble(0);
    } else {
      hide PowerOfTwo;
      WeightBefore(i);
      SumOfOne(n, i - 1, b);
      WeightsDouble(i % 24 - 1);
      TwiceAsMuch(b, PowerOfTwo(i % 24 - 1), PowerOfTwo(i % 24));
    }
  }

  lemma TwiceAsMuch(b: int, p: int, q: int)
    requires q == 2 * p
    ensures b * q == 2 * (b * p)
  {
  }

  lemma Distribute(x: int, y: int, p: int)
    ensures y * p == x * p + (y - x) * p
  {
  }

  /** A chunk with any single byte changed never keeps its checksum. */
  lemma ChangedByteIsDetected(data: seq<Byte>, i: nat, b: Byte)
    requires i < |data| && b != data[i]
    ensures Checksum(data[i := b]) != Checksum(data)
  {
    SumAfterChange(data, i, b);
    hide PowerOfTwo, WeightedSum, Wrap;
    var d, p := b as int - data[i] as int, PowerOfTwo(i % 24);
    BoundedProduct(d, p);
    CloseNumbersWrapApart(WeightedSum(data[i := b]), WeightedSum(data));
  }

  lemma CloseNumbersWrapApart(x: int, y: int)
    requires x != y && -TWO32 < x - y < TWO32
    ensures Wrap(x) != Wrap(y)
  {
  }

  lemma BoundedProduct(d: int, p: nat)
    requires -256 < d < 256 && d != 0 && 0 < p <= 0x80_0000
    ensures d * p != 0 && -0x8000_0000 < d * p < 0x8000_0000
  {
    if d > 0 {
      assert 0 < d * p <= 255 * p;
    } else {
      assert 0 < (-d) * p <= 255 * p;
    }
  }

  // ---------- Munging ----------

  function FlipBits(v: bv8): bv8 {
    v ^ 0xFF
  }

  function Flip(b: Byte): Byte {
    FlipBits(b as bv8) as Byte
  }

  function FlipAll(data: seq<Byte>): (r: seq<Byte>)
    ensures |r| == |data|
  {
    seq(|data|, i requires 0 <= i < |data| => Flip(data[i]))
  }

  /** Every byte is the value of some 8-bit vector. */
  lemma {:induction false} ByteAsBits(b: Byte) returns (v: bv8)
    ensures v as Byte == b
  {
    if b == 0 {
      v := 0;
    } else {
      v := ByteAsBits(b - 1);
      assert v as int != 255;
      assert v != 255;
      Successor(v);
      v := v + 1;
    }
  }

  lemma Successor(v: bv8)
    requires v != 0xFF
    ensures (v + 1) as int == v as int + 1
  {
  }

  lemma BitsOfByte(v: bv8)
    ensures (v as Byte) as bv8 == v
    ensures FlipBits(FlipBits(v)) == v
  {
  }

  lemma FlipDefinition(b: Byte)
    ensures Flip(b) == FlipBits(b as bv8) as Byte
  {
  }

  lemma FlipSuccessor(v: bv8)
    requires v != 0xFF
    ensures FlipBits(v) == FlipBits(v + 1) + 1 && FlipBits(v + 1) != 0xFF
  {
  }

  lemma {:induction false} FlipCountsDown(b: Byte) returns (v: bv8)
    ensures v as Byte == b && FlipBits(v) as int == 255 - b
  {
    if b == 0 {
      v := 0;
    } else {
      var w := FlipCountsDown(b - 1);
      assert w as int != 255;
      assert w != 0xFF;
      hide FlipBits;
      FlipSuccessor(w);
      Successor(w);
      Successor(FlipBits(w + 1));
      v := w + 1;
    }
  }

  /** The exclusive or with 0xFF is the complement. */
  lemma FlipIsComplement(b: Byte)
    ensures Flip(b) == 255 - b
  {
    hide Flip, FlipBits;
    var v := FlipCountsDown(b);
    BitsOfByte(v);
    FlipDefinition(b);
  }

  lemma FlipTwice(b: Byte)
    ensures Flip(Flip(b)) == b
  {
    hide Flip, FlipBits;
    var v := ByteAsBits(b);
    BitsOfByte(v);
    FlipDefinition(b);
    FlipDefinition(Flip(b));
    BitsOfByte(FlipBits(v));
  }

  lemma FlipAllTwice(data: seq<Byte>)
    ensures FlipAll(FlipAll(data)) == data
  {
    forall i | 0 <= i < |data| ensures FlipAll(FlipAll(data))[i] == data[i] {
      FlipTwice(data[i]);
    }
  }

  /** The XOR loop over a buffer, as both peers run it. */
  method XorBuffer(buffer: array<Byte>, numBytes: nat)
    requires numBytes <= buffer.Length
    modifies buffer
    ensures buffer[..numBytes] == FlipAll(old(buffer[..numBytes]))
  {
    hide Flip;
    for x := 0 to numBytes
      invariant buffer[..x] == FlipAll(old(buffer[..numBytes]))[..x]
      invariant buffer[x..] == old(buffer[x..])
    {
      buffer[x] := Flip(buffer[x]);
    }
  }

  // ---------- Sending and receiving ----------

  /** What goes on the wire: an unknown munge mode leaves the data as it is. */
  function Encode(data: seq<Byte>, mungeMode: int): DataMessage {
    if mungeMode == MUNGE_MODE_XOR then
      DataMessage(FlipAll(data), Some(MUNGE_MODE_XOR), Some(Checksum(FlipAll(data))))
    else
      DataMessage(data, None, Some(Checksum(data)))
  }

  /** What the receiver writes to its file, or None when it aborts the session. */
  function Decode(msg: DataMessage): Option<seq<Byte>> {
    if msg.chk.Some? && Checksum(msg.data) != msg.chk.value then None
    else
      match msg.mm
      case None => Some(msg.data)
      case Some(mode) =>
        if mode == MUNGE_MODE_NONE then Some(msg.data)
        else if mode == MUNGE_MODE_XOR then Some(FlipAll(msg.data))
        else None
  }

  method PackChunk(scratch: array<Byte>, numBytes: nat, mungeMode: int) returns (msg: DataMessage)
    requires numBytes <= scratch.Length
    modifies scratch
    ensures msg == Encode(old(scratch[..numBytes]), mungeMode)
  {
    hide Checksum;
    var mm := None;
    if mungeMode != MUNGE_MODE_NONE {
      var unknownMungeMode := false;
      match mungeMode {
        case 1 => XorBuffer(scratch, numBytes);
        case _ => unknownMungeMode := true;
      }
      if !unknownMungeMode {
        mm := Some(mungeMode);
      }
    }
    var chk := CalculateChecksum(scratch[..numBytes]);
    msg := DataMessage(scratch[..numBytes], mm, Some(chk));
  }

  method UnpackChunk(data: array<Byte>, mm: Option<int>, checksum: Option<Word>) returns (abort: bool)
    modifies data
    ensures var received := Decode(DataMessage(old(data[..]), mm, checksum));
            && abort == received.None?
            && (!abort ==> data[..] == received.value)
  {
    hide Checksum, FlipAll;
    abort := false;
    if checksum.Some? {
      var myChecksum := CalculateChecksum(data[..]);
      if myChecksum != checksum.value {
        abort := true;
      }
    }
    if mm.Some? {
      match mm.value {
        case 0 =>
        case 1 =>
          assert data[..data.Length] == data[..];
          XorBuffer(data, data.Length);
          assert data[..data.Length] == data[..];
        case _ => abort := true;
      }
    }
  }

  /** What is on the wire: in mode XOR the complement of every byte, in every other mode the
      bytes themselves, and always the checksum of what is sent. */
  lemma WhatIsSent(data: seq<Byte>, mungeMode: int)
    ensures var msg := Encode(data, mungeMode);
            && |msg.data| == |data|
            && (forall i :: 0 <= i < |data| ==> msg.data[i] == if mungeMode == 1 then 255 - data[i] else data[i])
            && msg.mm == (if mungeMode == 1 then Some(1) else None) && msg.chk == Some(Checksum(msg.data))
  {
    hide Flip, Checksum;
    forall i | 0 <= i < |data| ensures FlipAll(data)[i] == 255 - data[i] {
      FlipIsComplement(data[i]);
    }
  }

  /** A chunk is accepted if and only if its checksum, where it carries one, is that of its
      bytes, and its mode, where it carries one, is known. */
  lemma AcceptedIff(msg: DataMessage)
    ensures Decode(msg).Some? <==>
      (msg.chk.Some? ==> msg.chk.value == Checksum(msg.data))
      && (msg.mm.Some? ==> msg.mm.value == 0 || msg.mm.value == 1)
  {
    hide Checksum, FlipAll;
  }

  /** Whatever munge mode the peer asked for, the receiver accepts every chunk and
      restores it. */
  lemma ReceiveAfterSend(data: seq<Byte>, mungeMode: int)
    ensures Decode(Encode(data, mungeMode)) == Some(data)
  {
    FlipAllTwice(data);
  }

  /** One byte altered on the way, in either munge mode, aborts the session. */
  lemma AlteredChunkIsRejected(data: seq<Byte>, mungeMode: int, i: nat, b: Byte)
    requires i < |data|
    ensures var msg := Encode(data, mungeMode);
            b != msg.data[i] ==> Decode(msg.(data := msg.data[i := b])) == None
  {
    var sent := Encode(data, mungeMode).data;
    if b != sent[i] {
      ChangedByteIsDetected(sent, i, b);
    }
  }
}
