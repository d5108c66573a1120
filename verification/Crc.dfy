/** The CRC of application10/crc.c, proved against bit-by-bit long division by the generator
    0x104C11DB7 (section 8.1.1.6.2 of ITU-T V.42), most significant bit first. */
module Crc {
  import opened CrcWord
  import opened CrcTable

  const GENERATOR: bv64 := 0x1_04C1_1DB7

  // Long division

  /** Bring down one more bit of the dividend and, if the 33-bit partial dividend then has its
      top bit set, subtract the generator. */
  function DivideBit(r: bv32, bit: bool): bv32 {
    var partial: bv64 := ((r as bv64) << 1) | (if bit then 1 else 0);
    var reduced := if partial & 0x1_0000_0000 != 0 then partial ^ GENERATOR else partial;
    (reduced & 0xFFFF_FFFF) as bv32
  }

  /** The remainder of a dividend whose leading part left the remainder `r`. */
  function Divide(r: bv32, bits: seq<bool>): bv32
    decreases |bits|
  {
    if bits == [] then r else Divide(DivideBit(r, bits[0]), bits[1..])
  }

  function Bit(b: bool): bv32 {
    if b then 1 else 0
  }

  function ByteBits(b: bv8): (bits: seq<bool>)
    ensures |bits| == 8
  {
    [b & 0x80 != 0, b & 0x40 != 0, b & 0x20 != 0, b & 0x10 != 0]
    + [b & 0x08 != 0, b & 0x04 != 0, b & 0x02 != 0, b & 0x01 != 0]
  }

  function Bits(data: seq<bv8>): (bits: seq<bool>)
    ensures |bits| == 8 * |data|
  {
    if data == [] then [] else ByteBits(data[0]) + Bits(data[1..])
  }

  function Zeros(n: nat): seq<bool> {
    seq(n, _ => false)
  }

  function XorBits(a: seq<bool>, b: seq<bool>): seq<bool>
    requires |a| == |b|
  {
    seq(|a|, i requires 0 <= i < |a| => a[i] != b[i])
  }

  // The table-driven register

  function High(crc: bv32): bv8 {
    ((crc >> 24) & 0xFF) as bv8
  }

  function Low(crc: bv32): bv32 {
    crc & 0x00FFFFFF
  }

  function Shl8(crc: bv32): bv32 {
    crc << 8
  }

  function Shr8(y: bv32): bv32 {
    y >> 8
  }

  /** The top byte is clear. */
  predicate Small(y: bv32) {
    y & 0xFF000000 == 0
  }

  /** The table index of a step. */
  function Index(crc: bv32, b: bv8): bv8 {
    b ^ High(crc)
  }

  /** The loop body of digital_update_crc32. */
  function TableStep(crc: bv32, b: bv8): bv32 {
    Table(Index(crc, b)) ^ Shl8(crc)
  }

  function Update(crc: bv32, data: seq<bv8>): bv32
    decreases |data|
  {
    if data == [] then crc else Update(TableStep(crc, data[0]), data[1..])
  }

  /** digital_update_crc32. */
  method UpdateCrc32(crc: bv32, data: seq<bv8>) returns (r: bv32)
    ensures r == Update(crc, data)
    ensures r == Divide(0, Dividend(crc, data))
  {
    r := crc;
    var i := 0;
    while i < |data|
      invariant 0 <= i <= |data|
      invariant Update(r, data[i..]) == Update(crc, data)
    {
      assert data[i..][0] == data[i] && data[i..][1..] == data[i + 1..];
      r := TableStep(r, data[i]);
      i := i + 1;
    }
    UpdateIsDivision(crc, data);
  }

  /** digital_crc32. */
  method Crc32(data: seq<bv8>) returns (r: bv32)
    ensures r == Checksum(data)
    ensures r == Complement(Divide(0, Dividend(0xFFFFFFFF, data)))
  {
    hide Flipped, Complement, Divide, Dividend, Update;
    var last := UpdateCrc32(0xFFFFFFFF, data);
    ChecksumIsComplement(data);
    r := Flipped(last);
  }

  function Checksum(data: seq<bv8>): bv32 {
    Flipped(Update(0xFFFFFFFF, data))
  }

  function Flipped(w: bv32): bv32 {
    w ^ 0xFFFFFFFF
  }

  /** Every bit is the other one. */
  function Complement(w: bv32): bv32 {
    !w
  }

  // One step is a multiplication

  lemma DivideBitIsMulX(r: bv32, bit: bool)
    ensures DivideBit(r, bit) == Xor(MulX(r), Bit(bit))
  {
    if Top(r) {
      DivideBitTop(r, bit);
    } else {
      DivideBitSmall(r, bit);
    }
  }

  lemma DivideBitTop(r: bv32, bit: bool)
    requires Top(r)
    ensures DivideBit(r, bit) == (r << 1) ^ 0x04C11DB7 ^ Bit(bit)
  {
  }

  lemma DivideBitSmall(r: bv32, bit: bool)
    requires !Top(r)
    ensures DivideBit(r, bit) == (r << 1) ^ Bit(bit)
  {
  }

  /** Eight multiplications of a word whose top byte is clear are a shift. */
  lemma MulX8OfSmall(z: bv32)
    requires Small(z)
    ensures MulX8(z) == Shl8(z)
  {
    assert !Top(z) && !Top(z << 1) && !Top(z << 2) && !Top(z << 3);
    assert !Top(z << 4) && !Top(z << 5) && !Top(z << 6) && !Top(z << 7);
    assert Shl(z << 1) == z << 2 && Shl(z << 2) == z << 3 && Shl(z << 3) == z << 4;
    assert Shl(z << 4) == z << 5 && Shl(z << 5) == z << 6 && Shl(z << 6) == z << 7 && Shl(z << 7) == z << 8;
  }

  lemma HighAndLow(crc: bv32)
    ensures crc == Xor(TopByte(High(crc)), Low(crc))
  {
  }

  lemma TopByteOfIndex(crc: bv32, b: bv8)
    ensures TopByte(Index(crc, b)) == Xor(TopByte(b), TopByte(High(crc)))
  {
  }

  /** The two terms of a table step. */
  lemma TableStepParts(crc: bv32, b: bv8)
    ensures TableStep(crc, b) == Xor(MulX8(TopByte(Index(crc, b))), MulX8(Low(crc)))
  {
    MulX8OfLow(crc);
    TableIsDivision(Index(crc, b));
    hide MulX8, Table, Index, High, TopByte, Low, Shl8;
  }

  lemma MulX8OfLow(crc: bv32)
    ensures MulX8(Low(crc)) == Shl8(crc)
  {
    LowShifted(crc);
    MulX8OfSmall(Low(crc));
    hide MulX8;
  }

  lemma LowShifted(crc: bv32)
    ensures Small(Low(crc))
    ensures Shl8(Low(crc)) == Shl8(crc)
  {
  }

  /** One table step adds the byte to the top of the register and multiplies by x to the eighth. */
  lemma TableStepIsMulX8(crc: bv32, b: bv8)
    ensures TableStep(crc, b) == MulXN(8, Xor(crc, TopByte(b)))
  {
    hide Xor, MulX8, Table, TableStep, TopByte, Index, High, Low, Shl8;
    TableStepParts(crc, b);
    TopByteOfIndex(crc, b);
    HighAndLow(crc);
    MulX8IsMulXN(TopByte(Index(crc, b)));
    MulX8IsMulXN(Low(crc));
    XorCommutes(crc, TopByte(b));
    XorAssociative(TopByte(b), TopByte(High(crc)), Low(crc));
    MulXNLinear(8, TopByte(Index(crc, b)), Low(crc));
  }

  // Division is linear

  lemma {:induction false} DivideConcat(r: bv32, a: seq<bool>, b: seq<bool>)
    ensures Divide(r, a + b) == Divide(Divide(r, a), b)
    decreases |a|
  {
    hide DivideBit;
    if a == [] {
      assert a + b == b;
    } else {
      assert (a + b)[0] == a[0] && (a + b)[1..] == a[1..] + b;
      DivideConcat(DivideBit(r, a[0]), a[1..], b);
    }
  }

  lemma {:induction false} DivideZeros(r: bv32, n: nat)
    ensures Divide(r, Zeros(n)) == MulXN(n, r)
    decreases n
  {
    hide DivideBit, Xor, MulX;
    if n > 0 {
      assert Zeros(n)[1..] == Zeros(n - 1);
      DivideBitIsMulX(r, false);
      XorZero(MulX(r));
      DivideZeros(MulX(r), n - 1);
    }
  }

  /** The start of a division contributes its multiple by a power of x. */
  lemma {:induction false} DivideSplit(r: bv32, a: seq<bool>)
    ensures Divide(r, a) == Xor(MulXN(|a|, r), Divide(0, a))
    decreases |a|
  {
    hide DivideBit, Xor, MulX;
    if a == [] {
      XorZero(r);
    } else {
      var k, b := |a| - 1, Bit(a[0]);
      DivideBitIsMulX(r, a[0]);
      DivideBitIsMulX(0, a[0]);
      XorZero(b);
      assert MulX(0) == 0 by {
        MulXNZero(1);
        assert MulXN(1, 0) == MulXN(0, MulX(0));
      }
      var rest := a[1..];
      DivideSplit(Xor(MulX(r), b), rest);
      DivideSplit(b, rest);
      MulXNLinear(k, MulX(r), b);
      XorAssociative(MulXN(k, MulX(r)), MulXN(k, b), Divide(0, rest));
    }
  }

  /** Division of a sum is the sum of the divisions. */
  lemma {:induction false} DivideLinear(r: bv32, s: bv32, a: seq<bool>, b: seq<bool>)
    requires |a| == |b|
    ensures Divide(Xor(r, s), XorBits(a, b)) == Xor(Divide(r, a), Divide(s, b))
    decreases |a|
  {
    hide DivideBit, Xor, MulX;
    if a != [] {
      var c := XorBits(a, b);
      assert c[0] == (a[0] != b[0]) && c[1..] == XorBits(a[1..], b[1..]);
      DivideBitIsMulX(Xor(r, s), c[0]);
      DivideBitIsMulX(r, a[0]);
      DivideBitIsMulX(s, b[0]);
      MulXLinear(r, s);
      BitXor(a[0], b[0]);
      XorSwap(MulX(r), MulX(s), Bit(a[0]), Bit(b[0]));
      DivideLinear(DivideBit(r, a[0]), DivideBit(s, b[0]), a[1..], b[1..]);
    }
  }

  lemma BitXor(a: bool, b: bool)
    ensures Bit(a != b) == Xor(Bit(a), Bit(b))
  {
  }

  // Bytes

  lemma DivideByteSmall(r: bv32, b: bv8)
    requires Small(r)
    ensures Divide(r, ByteBits(b)) == Xor(Shl8(r), Byte(b))
  {
    hide Xor, MulX8, ByteBits, Divide, DivideBit, Small, Shl8, Byte;
    DivideSplit(r, ByteBits(b));
    MulX8OfSmall(r);
    MulX8IsMulXN(r);
    DivideByteOfZero(b);
  }

  lemma ByteStep0(b: bv8)
    ensures DivideBit(0, b & 0x80 != 0) == Byte(b >> 7)
  {
  }

  lemma ByteStep1(b: bv8)
    ensures DivideBit(Byte(b >> 7), b & 0x40 != 0) == Byte(b >> 6)
  {
  }

  lemma ByteStep2(b: bv8)
    ensures DivideBit(Byte(b >> 6), b & 0x20 != 0) == Byte(b >> 5)
  {
  }

  lemma ByteStep3(b: bv8)
    ensures DivideBit(Byte(b >> 5), b & 0x10 != 0) == Byte(b >> 4)
  {
  }

  lemma ByteStep4(b: bv8)
    ensures DivideBit(Byte(b >> 4), b & 0x08 != 0) == Byte(b >> 3)
  {
  }

  lemma ByteStep5(b: bv8)
    ensures DivideBit(Byte(b >> 3), b & 0x04 != 0) == Byte(b >> 2)
  {
  }

  lemma ByteStep6(b: bv8)
    ensures DivideBit(Byte(b >> 2), b & 0x02 != 0) == Byte(b >> 1)
  {
  }

  lemma ByteStep7(b: bv8)
    ensures DivideBit(Byte(b >> 1), b & 0x01 != 0) == Byte(b)
  {
  }

  lemma DivideCons(r: bv32, bit: bool, bits: seq<bool>)
    ensures Divide(r, [bit] + bits) == Divide(DivideBit(r, bit), bits)
  {
    assert ([bit] + bits)[1..] == bits;
  }

  lemma DivideNone(r: bv32)
    ensures Divide(r, []) == r
  {
  }

  lemma DivideFour(r: bv32, b0: bool, b1: bool, b2: bool, b3: bool, w1: bv32, w2: bv32, w3: bv32, w4: bv32)
    requires DivideBit(r, b0) == w1 && DivideBit(w1, b1) == w2 && DivideBit(w2, b2) == w3 && DivideBit(w3, b3) == w4
    ensures Divide(r, [b0, b1, b2, b3]) == w4
  {
    hide DivideBit, Divide;
    DivideCons(r, b0, [b1, b2, b3]);
    DivideCons(w1, b1, [b2, b3]);
    DivideCons(w2, b2, [b3]);
    DivideCons(w3, b3, []);
    DivideNone(w4);
    assert [b0] + [b1, b2, b3] == [b0, b1, b2, b3];
    assert [b1] + [b2, b3] == [b1, b2, b3];
    assert [b2] + [b3] == [b2, b3];
    assert [b3] + [] == [b3];
  }

  /** The eight bits of a byte are the byte: bringing them down one by one assembles it. */
  lemma DivideByteOfZero(b: bv8)
    ensures Divide(0, ByteBits(b)) == Byte(b)
  {
    ByteStep0(b);
    ByteStep1(b);
    ByteStep2(b);
    ByteStep3(b);
    ByteStep4(b);
    ByteStep5(b);
    ByteStep6(b);
    ByteStep7(b);
    hide DivideBit, Byte, Divide;
    DivideFour(0, b & 0x80 != 0, b & 0x40 != 0, b & 0x20 != 0, b & 0x10 != 0,
               Byte(b >> 7), Byte(b >> 6), Byte(b >> 5), Byte(b >> 4));
    DivideFour(Byte(b >> 4), b & 0x08 != 0, b & 0x04 != 0, b & 0x02 != 0, b & 0x01 != 0,
               Byte(b >> 3), Byte(b >> 2), Byte(b >> 1), Byte(b));
    DivideConcat(0, [b & 0x80 != 0, b & 0x40 != 0, b & 0x20 != 0, b & 0x10 != 0],
                 [b & 0x08 != 0, b & 0x04 != 0, b & 0x02 != 0, b & 0x01 != 0]);
  }

  /** A byte followed by four zero bytes leaves what a byte at the top of the register leaves
      after one more byte. */
  lemma ByteThenZeros(b: bv8)
    ensures MulXN(32, Byte(b)) == MulXN(8, TopByte(b))
  {
    var y := Byte(b);
    var y1 := Shl8(y);
    var y2 := Shl8(y1);
    ByteShifts(b);
    hide MulX8, MulX, Byte, TopByte, Small, Shl8;
    MulX8OfSmall(y);
    MulX8OfSmall(y1);
    MulX8OfSmall(y2);
    MulX8IsMulXN(y);
    MulX8IsMulXN(y1);
    MulX8IsMulXN(y2);
    MulXNAdd(8, 24, y);
    MulXNAdd(8, 16, y1);
    MulXNAdd(8, 8, y2);
  }

  lemma ByteShifts(b: bv8)
    ensures Small(Byte(b)) && Small(Shl8(Byte(b))) && Small(Shl8(Shl8(Byte(b))))
    ensures Shl8(Shl8(Shl8(Byte(b)))) == TopByte(b)
  {
  }

  // The theorem

  /** The dividend of a CRC: the start value times x to the number of data bits, plus the data
      times x to the 32nd. */
  function Dividend(crc: bv32, data: seq<bv8>): (bits: seq<bool>)
    ensures |bits| == 8 * |data| + 32
  {
    XorBits(WordBits(crc) + Zeros(8 * |data|), Bits(data) + Zeros(32))
  }

  function WordBits(w: bv32): (bits: seq<bool>)
    ensures |bits| == 32
  {
    Bits(WordBytes(w))
  }

  function WordBytes(w: bv32): seq<bv8> {
    [High(w), Second(w), Third(w), Lowest(w)]
  }

  function Second(w: bv32): bv8 {
    ((w >> 16) & 0xFF) as bv8
  }

  function Third(w: bv32): bv8 {
    ((w >> 8) & 0xFF) as bv8
  }

  function Lowest(w: bv32): bv8 {
    (w & 0xFF) as bv8
  }

  lemma WordOfFirstByte(w: bv32)
    ensures Byte(High(w)) == Shr8(Shr8(Shr8(w)))
  {
  }

  lemma SmallShr8(y: bv32)
    ensures Small(Shr8(y))
  {
  }

  lemma WordOfNextByte(y: bv32)
    ensures Xor(Shl8(Shr8(y)), Byte(Lowest(y))) == y
  {
  }

  lemma OtherBytes(w: bv32)
    ensures Second(w) == Lowest(Shr8(Shr8(w))) && Third(w) == Lowest(Shr8(w))
  {
  }

  lemma FourBytes(b0: bv8, b1: bv8, b2: bv8, b3: bv8, r2: bv32, r3: bv32, r4: bv32)
    requires Small(Byte(b0)) && Small(r2) && Small(r3)
    requires r2 == Xor(Shl8(Byte(b0)), Byte(b1)) && r3 == Xor(Shl8(r2), Byte(b2)) && r4 == Xor(Shl8(r3), Byte(b3))
    ensures Divide(0, Bits([b0, b1, b2, b3])) == r4
  {
    DivideByteOfZero(b0);
    DivideByteSmall(Byte(b0), b1);
    DivideByteSmall(r2, b2);
    DivideByteSmall(r3, b3);
    hide ByteBits, Divide, Byte, Xor, Small, Shl8;
    assert [b0, b1, b2, b3][1..] == [b1, b2, b3] && [b1, b2, b3][1..] == [b2, b3];
    assert [b2, b3][1..] == [b3] && [b3][1..] == [];
    DivideBytes(0, [b0, b1, b2, b3]);
    DivideBytes(Byte(b0), [b1, b2, b3]);
    DivideBytes(r2, [b2, b3]);
    DivideBytes(r3, [b3]);
    DivideNone(r4);
  }

  /** A word is the remainder of its own bits. */
  lemma DivideWordBits(w: bv32)
    ensures Divide(0, WordBits(w)) == w
  {
    hide Divide, Bits, High, Second, Third, Lowest, Byte, Xor, Small, Shl8, Shr8;
    var w1 := Shr8(w);
    var w2 := Shr8(w1);
    WordOfFirstByte(w);
    OtherBytes(w);
    SmallShr8(w);
    SmallShr8(w1);
    SmallShr8(w2);
    WordOfNextByte(w);
    WordOfNextByte(w1);
    WordOfNextByte(w2);
    FourBytes(High(w), Second(w), Third(w), Lowest(w), w2, w1, w);
  }

  lemma DivideBytes(r: bv32, data: seq<bv8>)
    requires data != []
    ensures Divide(r, Bits(data)) == Divide(Divide(r, ByteBits(data[0])), Bits(data[1..]))
  {
    hide ByteBits, Divide;
    DivideConcat(r, ByteBits(data[0]), Bits(data[1..]));
  }

  /** The register after some data: the start value's share, plus the data's. */
  lemma {:induction false} UpdateSplit(crc: bv32, data: seq<bv8>)
    ensures Update(crc, data) == Xor(MulXN(8 * |data|, crc), Divide(0, Bits(data) + Zeros(32)))
    decreases |data|
  {
    hide TableStep, Xor, MulX, DivideBit, TopByte, Byte, ByteBits, Divide;
    if data == [] {
      assert Bits(data) + Zeros(32) == Zeros(32);
      DivideZeros(0, 32);
      MulXNZero(32);
      XorZero(crc);
    } else {
      var b, rest := data[0], data[1..];
      var k, tail := 8 * |rest|, Bits(rest) + Zeros(32);
      UpdateSplit(TableStep(crc, b), rest);
      TableStepIsMulX8(crc, b);
      StepShare(crc, b, k);
      // the byte's share of the division
      assert Bits(data) + Zeros(32) == ByteBits(b) + tail;
      DivideConcat(0, ByteBits(b), tail);
      DivideByteOfZero(b);
      DivideSplit(Byte(b), tail);
      XorAssociative(MulXN(k + 8, crc), MulXN(k + 32, Byte(b)), Divide(0, tail));
    }
  }

  /** The shares of the register and of a byte after `k` more bits. */
  lemma StepShare(crc: bv32, b: bv8, k: nat)
    ensures MulXN(k, MulXN(8, Xor(crc, TopByte(b)))) == Xor(MulXN(k + 8, crc), MulXN(k + 32, Byte(b)))
  {
    hide Xor, MulX, TopByte, Byte;
    MulXNLinear(8, crc, TopByte(b));
    MulXNLinear(k, MulXN(8, crc), MulXN(8, TopByte(b)));
    MulXNAdd(8, k, crc);
    ByteThenZeros(b);
    MulXNAdd(32, k, Byte(b));
  }

  /** For every start value and every byte string, the table-driven register is the remainder of
      the long division of its dividend by the generator. */
  lemma UpdateIsDivision(crc: bv32, data: seq<bv8>)
    ensures Update(crc, data) == Divide(0, Dividend(crc, data))
  {
    var n := 8 * |data|;
    UpdateSplit(crc, data);
    DivideWordBits(crc);
    hide Divide, Xor, MulX, WordBits, Update;
    XorZero(0);
    DivideLinear(0, 0, WordBits(crc) + Zeros(n), Bits(data) + Zeros(32));
    DivideConcat(0, WordBits(crc), Zeros(n));
    DivideZeros(crc, n);
  }

  lemma ComplementIsXor(w: bv32)
    ensures Flipped(w) == Complement(w)
  {
  }

  /** The checksum is the complement of the remainder that is left when the division starts from a
      register of ones. */
  lemma ChecksumIsComplement(data: seq<bv8>)
    ensures Checksum(data) == Complement(Divide(0, Dividend(0xFFFFFFFF, data)))
  {
    hide Divide, Dividend, Update, Flipped, Complement;
    UpdateIsDivision(0xFFFFFFFF, data);
    ComplementIsXor(Update(0xFFFFFFFF, data));
  }

  /** The checksum of a zero byte, and the check value of this CRC: that of the digits 1 to 9. */
  lemma CheckValue()
    ensures Checksum([0]) == 0xB1F7404B
    ensures Checksum([0x31, 0x32, 0x33, 0x34, 0x35, 0x36, 0x37, 0x38, 0x39]) == 0xFC891918
  {
    hide TableStep;
    StepsOneToFive();
    StepsSixToNine();
    UpdateOne(0xFFFFFFFF, 0);
    var a, b := [0x31, 0x32, 0x33, 0x34, 0x35], [0x36, 0x37, 0x38, 0x39];
    assert a + b == [0x31, 0x32, 0x33, 0x34, 0x35, 0x36, 0x37, 0x38, 0x39];
    UpdateConcat(0xFFFFFFFF, a, b);
    UpdateFive(0xFFFFFFFF, 0x31, 0x32, 0x33, 0x34, 0x35);
    UpdateFour(0xBD9AB747, 0x36, 0x37, 0x38, 0x39);
  }

  lemma UpdateOne(crc: bv32, b: bv8)
    ensures Update(crc, [b]) == TableStep(crc, b)
  {
    hide TableStep;
    var s := [b];
    assert s[1..] == [];
  }

  lemma UpdateFour(crc: bv32, a: bv8, b: bv8, c: bv8, d: bv8)
    ensures Update(crc, [a, b, c, d]) == TableStep(TableStep(TableStep(TableStep(crc, a), b), c), d)
  {
    hide TableStep;
    assert [a, b, c, d] == [a] + ([b] + ([c] + [d]));
    UpdateConcat(crc, [a], [b] + ([c] + [d]));
    UpdateOne(crc, a);
    UpdateConcat(TableStep(crc, a), [b], [c] + [d]);
    UpdateOne(TableStep(crc, a), b);
    UpdateConcat(TableStep(TableStep(crc, a), b), [c], [d]);
    UpdateOne(TableStep(TableStep(crc, a), b), c);
    UpdateOne(TableStep(TableStep(TableStep(crc, a), b), c), d);
  }

  lemma UpdateFive(crc: bv32, a: bv8, b: bv8, c: bv8, d: bv8, e: bv8)
    ensures Update(crc, [a, b, c, d, e]) == TableStep(TableStep(TableStep(TableStep(TableStep(crc, a), b), c), d), e)
  {
    hide TableStep;
    assert [a, b, c, d, e] == [a, b, c, d] + [e];
    UpdateConcat(crc, [a, b, c, d], [e]);
    UpdateFour(crc, a, b, c, d);
    UpdateOne(TableStep(TableStep(TableStep(TableStep(crc, a), b), c), d), e);
  }

  lemma StepIs(crc: bv32, b: bv8, i: bv8, entry: bv32, r: bv32)
    requires Index(crc, b) == i && Table(i) == entry && Xor(entry, Shl8(crc)) == r
    ensures TableStep(crc, b) == r
  {
    hide Index, Table, Shl8;
  }

  lemma EntriesUsed()
    ensures Table(0xFF) == 0xB1F740B4
    ensures Table(0xCE) == 0x61043093
    ensures Table(0xAC) == 0xC423CD6A
    ensures Table(0x0C) == 0x350C9B64
    ensures Table(0xED) == 0xF464A0AA
    ensures Table(0x93) == 0x285E1D47
    ensures Table(0x8B) == 0x42472B8F
    ensures Table(0xEF) == 0xFDE69BC4
    ensures Table(0x35) == 0xC3F706FB
    ensures Table(0x70) == 0xE0B41DE7
  {
    hide Table;
    EntriesOne();
    EntriesTwo();
    EntriesThree();
    EntriesFour();
    EntriesFive();
  }

  lemma EntriesOne()
    ensures Table(0xFF) == 0xB1F740B4
    ensures Table(0xCE) == 0x61043093
  {
  }

  lemma EntriesTwo()
    ensures Table(0xAC) == 0xC423CD6A
    ensures Table(0x0C) == 0x350C9B64
  {
  }

  lemma EntriesThree()
    ensures Table(0xED) == 0xF464A0AA
    ensures Table(0x93) == 0x285E1D47
  {
  }

  lemma EntriesFour()
    ensures Table(0x8B) == 0x42472B8F
    ensures Table(0xEF) == 0xFDE69BC4
  {
  }

  lemma EntriesFive()
    ensures Table(0x35) == 0xC3F706FB
    ensures Table(0x70) == 0xE0B41DE7
  {
  }

  lemma StepsOneToFive()
    ensures TableStep(0xFFFFFFFF, 0x00) == 0x4E08BFB4
    ensures TableStep(0xFFFFFFFF, 0x31) == 0x9EFBCF93
    ensures TableStep(0x9EFBCF93, 0x32) == 0x3FEC5E6A
    ensures TableStep(0x3FEC5E6A, 0x33) == 0xD952F164
    ensures TableStep(0xD952F164, 0x34) == 0xA695C4AA
    ensures TableStep(0xA695C4AA, 0x35) == 0xBD9AB747
  {
    EntriesUsed();
    hide Table, TableStep;
    StepIs(0xFFFFFFFF, 0x00, 0xFF, 0xB1F740B4, 0x4E08BFB4);
    StepIs(0xFFFFFFFF, 0x31, 0xCE, 0x61043093, 0x9EFBCF93);
    StepIs(0x9EFBCF93, 0x32, 0xAC, 0xC423CD6A, 0x3FEC5E6A);
    StepIs(0x3FEC5E6A, 0x33, 0x0C, 0x350C9B64, 0xD952F164);
    StepIs(0xD952F164, 0x34, 0xED, 0xF464A0AA, 0xA695C4AA);
    StepIs(0xA695C4AA, 0x35, 0x93, 0x285E1D47, 0xBD9AB747);
  }

  lemma StepsSixToNine()
    ensures TableStep(0xBD9AB747, 0x36) == 0xD8F06C8F
    ensures TableStep(0xD8F06C8F, 0x37) == 0x0D8A14C4
    ensures TableStep(0x0D8A14C4, 0x38) == 0x49E3C2FB
    ensures TableStep(0x49E3C2FB, 0x39) == 0x0376E6E7
  {
    EntriesUsed();
    hide Table, TableStep;
    StepIs(0xBD9AB747, 0x36, 0x8B, 0x42472B8F, 0xD8F06C8F);
    StepIs(0xD8F06C8F, 0x37, 0xEF, 0xFDE69BC4, 0x0D8A14C4);
    StepIs(0x0D8A14C4, 0x38, 0x35, 0xC3F706FB, 0x49E3C2FB);
    StepIs(0x49E3C2FB, 0x39, 0x70, 0xE0B41DE7, 0x0376E6E7);
  }

  /** Updating over a concatenation is updating in turn. */
  lemma {:induction false} UpdateConcat(crc: bv32, a: seq<bv8>, b: seq<bv8>)
    ensures Update(crc, a + b) == Update(Update(crc, a), b)
    decreases |a|
  {
    hide TableStep;
    if a == [] {
      assert a + b == b;
    } else {
      assert (a + b)[1..] == a[1..] + b;
      UpdateConcat(TableStep(crc, a[0]), a[1..], b);
    }
  }

  // Burst errors

  /** A byte step is one-to-one in the register. */
  lemma {:induction false} UpdateInjective(r: bv32, s: bv32, data: seq<bv8>)
    requires Update(r, data) == Update(s, data)
    ensures r == s
    decreases |data|
  {
    hide TableStep, Xor, TopByte;
    if data != [] {
      var b := data[0];
      UpdateInjective(TableStep(r, b), TableStep(s, b), data[1..]);
      TableStepIsMulX8(r, b);
      TableStepIsMulX8(s, b);
      MulXNInjective(8, Xor(r, TopByte(b)), Xor(s, TopByte(b)));
      XorCancels(r, s, TopByte(b));
    }
  }

  /** Up to four bytes, the first at the top of the word. */
  function Packed(data: seq<bv8>): bv32
    requires |data| <= 4
  {
    if data == [] then 0 else Xor(TopByte(data[0]), Shr8(Packed(data[1..])))
  }

  predicate Clear8(y: bv32) {
    y & 0xFF == 0
  }

  predicate Clear16(y: bv32) {
    y & 0xFFFF == 0
  }

  predicate Clear24(y: bv32) {
    y & 0xFFFFFF == 0
  }

  lemma MulX8OfShifted(y: bv32)
    requires Clear8(y)
    ensures MulXN(8, Shr8(y)) == y
  {
    assert Shl8(Shr8(y)) == y;
    hide Shl8, Shr8, Small, MulX8, Clear8;
    SmallShr8(y);
    MulX8OfSmall(Shr8(y));
    MulX8IsMulXN(Shr8(y));
  }

  lemma {:induction false} PackedClear(data: seq<bv8>)
    requires |data| < 4
    ensures Clear8(Packed(data))
    ensures |data| < 3 ==> Clear16(Packed(data))
    ensures |data| < 2 ==> Clear24(Packed(data))
  {
    if data == [] {
    } else {
      hide Xor, TopByte, Shr8, Clear8, Clear16, Clear24;
      PackedClear(data[1..]);
      ShiftedClear(data[0], Packed(data[1..]));
    }
  }

  lemma ShiftedClear(b: bv8, y: bv32)
    ensures Clear16(y) ==> Clear8(Xor(TopByte(b), Shr8(y)))
    ensures Clear24(y) ==> Clear16(Xor(TopByte(b), Shr8(y)))
    ensures y == 0 ==> Clear24(Xor(TopByte(b), Shr8(y)))
  {
  }

  /** Up to four bytes act on the register all at once. */
  lemma {:induction false} UpdateShort(r: bv32, data: seq<bv8>)
    requires |data| <= 4
    ensures Update(r, data) == MulXN(8 * |data|, Xor(r, Packed(data)))
    decreases |data|
  {
    hide TableStep, Xor, TopByte, MulX, Shr8, Clear8;
    if data == [] {
      XorZero(r);
    } else {
      var b, rest := data[0], data[1..];
      var low := Shr8(Packed(rest));
      PackedClear(rest);
      MulX8OfShifted(Packed(rest));
      UpdateShort(TableStep(r, b), rest);
      TableStepIsMulX8(r, b);
      MulXNLinear(8, Xor(r, TopByte(b)), low);
      XorAssociative(r, TopByte(b), low);
      MulXNAdd(8, 8 * |rest|, Xor(r, Packed(data)));
    }
  }

  lemma TopByteShows(a: bv8, b: bv8, y: bv32, z: bv32)
    requires Xor(TopByte(a), Shr8(y)) == Xor(TopByte(b), Shr8(z)) && Clear8(y) && Clear8(z)
    ensures a == b && y == z
  {
  }

  lemma {:induction false} PackedInjective(a: seq<bv8>, b: seq<bv8>)
    requires |a| == |b| <= 4 && Packed(a) == Packed(b)
    ensures a == b
  {
    hide Xor, TopByte, Shr8, Clear8;
    if a != [] {
      PackedClear(a[1..]);
      PackedClear(b[1..]);
      TopByteShows(a[0], b[0], Packed(a[1..]), Packed(b[1..]));
      PackedInjective(a[1..], b[1..]);
      assert a == [a[0]] + a[1..] && b == [b[0]] + b[1..];
    }
  }

  /** Changing up to four consecutive bytes always changes the register. */
  lemma ShortChangeShows(r: bv32, before: seq<bv8>, a: seq<bv8>, b: seq<bv8>, after: seq<bv8>)
    requires |a| == |b| <= 4 && a != b
    ensures Update(r, before + a + after) != Update(r, before + b + after)
  {
    hide TableStep, Xor, MulX;
    UpdateConcat(r, before + a, after);
    UpdateConcat(r, before + b, after);
    UpdateConcat(r, before, a);
    UpdateConcat(r, before, b);
    var s := Update(r, before);
    if Update(Update(s, a), after) == Update(Update(s, b), after) {
      UpdateInjective(Update(s, a), Update(s, b), after);
      UpdateShort(s, a);
      UpdateShort(s, b);
      MulXNInjective(8 * |a|, Xor(s, Packed(a)), Xor(s, Packed(b)));
      XorCommutes(s, Packed(a));
      XorCommutes(s, Packed(b));
      XorCancels(Packed(a), Packed(b), s);
      PackedInjective(a, b);
    }
  }

  lemma ChecksumShows(r: bv32, s: bv32)
    requires r != s
    ensures r ^ 0xFFFFFFFF != s ^ 0xFFFFFFFF
  {
  }

  /** Two strings differ, but only in a run of four bytes that starts at `i`. */
  predicate DifferInBurst(x: seq<bv8>, y: seq<bv8>, i: nat) {
    |x| == |y| && x != y && forall j :: 0 <= j < |x| && x[j] != y[j] ==> i <= j < i + 4
  }

  /** Burst detection: strings of equal length that differ only within four consecutive bytes have
      different checksums. */
  lemma BurstIsDetected(x: seq<bv8>, y: seq<bv8>, i: nat)
    requires DifferInBurst(x, y, i)
    ensures Checksum(x) != Checksum(y)
  {
    var n := |x|;
    var lo := if i < n then i else n;
    var hi := if i + 4 < n then i + 4 else n;
    assert x[..lo] == y[..lo] && x[hi..] == y[hi..];
    assert x == x[..lo] + x[lo..hi] + x[hi..] && y == y[..lo] + y[lo..hi] + y[hi..];
    hide Update;
    ShortChangeShows(0xFFFFFFFF, x[..lo], x[lo..hi], y[lo..hi], x[hi..]);
    ChecksumShows(Update(0xFFFFFFFF, x), Update(0xFFFFFFFF, y));
  }
}
