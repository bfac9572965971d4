/** Fixed-width integers and their byte order. */
module Bytes {
  newtype u8 = x: int | 0 <= x < 0x100
  newtype u16 = x: int | 0 <= x < 0x1_0000
  newtype u32 = x: int | 0 <= x < 0x1_0000_0000

  type bytes = seq<u8>

  function BigEndian(v: u32): (b: bytes)
    ensures |b| == 4 && FromBigEndian(b) == v
  {
    var high, low := v / 0x1_0000, v % 0x1_0000;
    [(high / 0x100) as u8, (high % 0x100) as u8, (low / 0x100) as u8, (low % 0x100) as u8]
  }

  /** The most significant byte first, as bytes are sent over a network. */
  lemma ByteOrder(v: u32, short: u16)
    ensures var b := BigEndian(v);
            v as int == b[0] as int * 0x100_0000 + b[1] as int * 0x1_0000 + b[2] as int * 0x100 + b[3] as int
    ensures short as int == LittleEndian16(short)[0] as int + LittleEndian16(short)[1] as int * 0x100
    ensures BigEndian(0x0102_0304) == [1, 2, 3, 4] && LittleEndian16(0x0102) == [2, 1]
  {
    var high, low := v / 0x1_0000, v % 0x1_0000;
    assert high as int == (high / 0x100) as int * 0x100 + (high % 0x100) as int;
    assert low as int == (low / 0x100) as int * 0x100 + (low % 0x100) as int;
  }

  function FromBigEndian(b: bytes): u32
    requires |b| == 4
  {
    (b[0] as u32 * 0x100 + b[1] as u32) * 0x1_0000 + (b[2] as u32 * 0x100 + b[3] as u32)
  }

  function LittleEndian16(v: u16): (b: bytes)
    ensures |b| == 2 && FromLittleEndian16(b) == v
  {
    [(v % 0x100) as u8, (v / 0x100) as u8]
  }

  function FromLittleEndian16(b: bytes): u16
    requires |b| == 2
  {
    b[0] as u16 + b[1] as u16 * 0x100
  }
}

/** CRC-32 by a byte-indexed table, against the division it abbreviates. */
module Crc32 {
  import opened Bytes

  const POLYNOMIAL: bv32 := 0xEDB8_8320

  predicate LowBit(v: bv32) { v & 1 != 0 }
  function Half(v: bv32): bv32 { v >> 1 }
  function Xor(a: bv32, b: bv32): bv32 { a ^ b }
  function Word(b: u8): bv32 { b as int as bv32 }

  // ------------------------------------------------ the division, bit by bit

  /** One step of the reflected long division: a message bit enters, the
      lowest bit leaves, and the divisor is subtracted when what leaves is 1. */
  function DivideBit(remainder: bv32, bit: bool): bv32 {
    if LowBit(remainder) != bit then Xor(Half(remainder), POLYNOMIAL) else Half(remainder)
  }

  function DivideBits(remainder: bv32, bits: seq<bool>): bv32
    decreases |bits|
  {
    if bits == [] then remainder else DivideBits(DivideBit(remainder, bits[0]), bits[1..])
  }

  /** The lowest bits of a word in transmission order. */
  function BitsFrom(w: bv32, count: nat): (bits: seq<bool>)
    decreases count
  {
    if count == 0 then [] else [LowBit(w)] + BitsFrom(Half(w), count - 1)
  }

  function BitsOf(data: bytes): seq<bool>
    decreases |data|
  {
    if data == [] then [] else BitsFrom(Word(data[0]), 8) + BitsOf(data[1..])
  }

  /** CRC-32 of ISO 3309: the complemented remainder of all the message's bits
      under the generator, the register starting with all ones. */
  function Crc(data: bytes): u32 {
    (!DivideBits(0xFFFF_FFFF, BitsOf(data))) as int as u32
  }

  // ------------------------------------------------------------- the table

  function Shift(v: bv32): bv32 {
    if LowBit(v) then Xor(Half(v), POLYNOMIAL) else Half(v)
  }

  function ShiftTimes(v: bv32, n: nat): bv32
    decreases n
  {
    if n == 0 then v else ShiftTimes(Shift(v), n - 1)
  }

  function HalfTimes(v: bv32, n: nat): bv32
    decreases n
  {
    if n == 0 then v else HalfTimes(Half(v), n - 1)
  }

  method BuildTable() returns (table: array<bv32>)
    ensures fresh(table) && table.Length == 256
    ensures forall i :: 0 <= i < 256 ==> table[i] == ShiftTimes(i as bv32, 8)
  {
    hide LowBit, Half, Xor;
    table := new bv32[256];
    var i := 0;
    while i < 256
      invariant 0 <= i <= 256
      invariant forall k :: 0 <= k < i ==> table[k] == ShiftTimes(k as bv32, 8)
    {
      var crc := i as bv32;
      var bit := 0;
      while bit < 8
        invariant 0 <= bit <= 8
        invariant ShiftTimes(crc, 8 - bit) == ShiftTimes(i as bv32, 8)
      {
        crc := if LowBit(crc) then Xor(Half(crc), POLYNOMIAL) else Half(crc);
        bit := bit + 1;
      }
      table[i] := crc;
      i := i + 1;
    }
  }

  method ComputeCrc(data: bytes) returns (crc: u32)
    ensures crc == Crc(data)
  {
    hide LowBit, Half, Xor, Word, Shift, DivideBit;
    var table := BuildTable();
    var register: bv32 := 0xFFFF_FFFF;
    for k := 0 to |data|
      invariant forall i :: 0 <= i < 256 ==> table[i] == ShiftTimes(i as bv32, 8)
      invariant DivideBits(register, BitsOf(data[k..])) == DivideBits(0xFFFF_FFFF, BitsOf(data))
    {
      var index := LowByte(Xor(register, Word(data[k])));
      LowByteIndex(Xor(register, Word(data[k])));
      ByteStep(register, data[k]);
      assert data[k..][0] == data[k] && data[k..][1..] == data[k + 1..];
      assert BitsOf(data[k..]) == BitsFrom(Word(data[k]), 8) + BitsOf(data[k + 1..]);
      assert table[index as int] == ShiftTimes(index, 8);
      DivideConcat(register, BitsFrom(Word(data[k]), 8), BitsOf(data[k + 1..]));
      register := Xor(table[index as int], Shift8(register));
    }
    crc := (!register) as int as u32;
  }

  function LowByte(v: bv32): bv32 { v & 0xFF }
  function Shift8(v: bv32): bv32 { v >> 8 }

  lemma LowByteIndex(v: bv32)
    ensures LowByte(v) as int < 256 && (LowByte(v) as int) as bv32 == LowByte(v)
  {
    LowByteBound(v);
    hide LowByte;
    SmallWordIndex(LowByte(v));
  }

  lemma LowByteBound(v: bv32)
    ensures LowByte(v) <= 0xFF
  {
  }

  lemma SmallWordIndex(v: bv32)
    requires v <= 0xFF
    ensures v as int < 256 && (v as int) as bv32 == v
  {
  }

  // -------------------------------------------------- exclusive or and halving

  lemma XorAssociates(a: bv32, b: bv32, c: bv32)
    ensures Xor(a, Xor(b, c)) == Xor(Xor(a, b), c)
  {
  }

  lemma XorCommutes(a: bv32, b: bv32)
    ensures Xor(a, b) == Xor(b, a)
  {
  }

  lemma XorCancels(a: bv32, b: bv32)
    ensures Xor(Xor(a, b), b) == a
  {
  }

  lemma LowBitOfXor(a: bv32, b: bv32)
    ensures LowBit(Xor(a, b)) == (LowBit(a) != LowBit(b))
  {
    MaskOfXor(a, b);
    MaskIsBit(a);
    MaskIsBit(b);
    BitXor(a & 1, b & 1);
  }

  lemma MaskOfXor(a: bv32, b: bv32)
    ensures (a ^ b) & 1 == (a & 1) ^ (b & 1)
  {
  }

  lemma MaskIsBit(v: bv32)
    ensures v & 1 == 0 || v & 1 == 1
  {
  }

  lemma BitXor(x: bv32, y: bv32)
    requires (x == 0 || x == 1) && (y == 0 || y == 1)
    ensures x ^ y != 0 <==> (x != 0) != (y != 0)
  {
  }

  lemma HalfOfXor(a: bv32, b: bv32)
    ensures Half(Xor(a, b)) == Xor(Half(a), Half(b))
  {
  }

  lemma ShiftIsLinear(a: bv32, b: bv32)
    ensures Shift(Xor(a, b)) == Xor(Shift(a), Shift(b))
  {
    hide LowBit, Half, Xor;
    LowBitOfXor(a, b);
    HalfOfXor(a, b);
    var x, y, p := Half(a), Half(b), POLYNOMIAL;
    XorAssociates(x, y, p);
    XorCommutes(y, p);
    XorAssociates(x, p, y);
    XorCancels(Xor(x, y), p);
    XorAssociates(Xor(x, p), y, p);
  }

  lemma {:induction false} ShiftTimesIsLinear(a: bv32, b: bv32, n: nat)
    ensures ShiftTimes(Xor(a, b), n) == Xor(ShiftTimes(a, n), ShiftTimes(b, n))
    decreases n
  {
    hide Shift, Xor;
    if n > 0 {
      ShiftIsLinear(a, b);
      ShiftTimesIsLinear(Shift(a), Shift(b), n - 1);
    }
  }

  ghost predicate LowClear(v: bv32, n: nat)
    decreases n
  {
    n > 0 ==> !LowBit(v) && LowClear(Half(v), n - 1)
  }

  lemma {:induction false} ShiftOfClear(v: bv32, n: nat)
    requires LowClear(v, n)
    ensures ShiftTimes(v, n) == HalfTimes(v, n)
    decreases n
  {
    hide LowBit, Half, Xor;
    if n > 0 {
      ShiftOfClear(Half(v), n - 1);
    }
  }

  lemma {:induction false} HalfTimesIsShift8(v: bv32)
    ensures HalfTimes(v, 8) == Shift8(v)
  {
    hide Half;
    var h1 := Half(v);
    var h2 := Half(h1);
    var h3 := Half(h2);
    var h4 := Half(h3);
    var h5 := Half(h4);
    var h6 := Half(h5);
    var h7 := Half(h6);
    assert HalfTimes(v, 8) == HalfTimes(h1, 7) == HalfTimes(h2, 6) == HalfTimes(h3, 5) == HalfTimes(h4, 4);
    assert HalfTimes(h4, 4) == HalfTimes(h5, 3) == HalfTimes(h6, 2) == HalfTimes(h7, 1) == Half(h7);
    EightHalves(v);
  }

  lemma EightHalves(v: bv32)
    ensures Half(Half(Half(Half(Half(Half(Half(Half(v)))))))) == Shift8(v)
  {
  }

  function HighBytes(v: bv32): bv32 { v & 0xFFFF_FF00 }

  lemma HighBytesClear(v: bv32)
    ensures LowClear(HighBytes(v), 8)
  {
    var h := HighBytes(v);
    MaskedHalves(v);
    assert LowClear(h, 8) by {
      hide LowBit, Half;
      var h1 := Half(h);
      var h2 := Half(h1);
      var h3 := Half(h2);
      var h4 := Half(h3);
      var h5 := Half(h4);
      var h6 := Half(h5);
      var h7 := Half(h6);
      assert LowClear(h7, 1) && LowClear(h6, 2) && LowClear(h5, 3) && LowClear(h4, 4);
      assert LowClear(h3, 5) && LowClear(h2, 6) && LowClear(h1, 7);
    }
  }

  lemma MaskedHalves(v: bv32)
    ensures var h := HighBytes(v);
            && !LowBit(h) && !LowBit(Half(h)) && !LowBit(Half(Half(h))) && !LowBit(Half(Half(Half(h))))
            && !LowBit(Half(Half(Half(Half(h))))) && !LowBit(Half(Half(Half(Half(Half(h))))))
            && !LowBit(Half(Half(Half(Half(Half(Half(h)))))))
            && !LowBit(Half(Half(Half(Half(Half(Half(Half(h))))))))
  {
  }

  lemma SplitBytes(v: bv32)
    ensures Xor(LowByte(v), HighBytes(v)) == v && Shift8(HighBytes(v)) == Shift8(v)
  {
  }

  /** Eight shifts at once: look up the low byte, shift out the rest. */
  lemma TableStep(v: bv32)
    ensures ShiftTimes(v, 8) == Xor(ShiftTimes(LowByte(v), 8), Shift8(v))
  {
    hide LowByte, HighBytes, Shift8, Xor, Shift, Half, LowBit;
    SplitBytes(v);
    ShiftTimesIsLinear(LowByte(v), HighBytes(v), 8);
    HighBytesClear(v);
    ShiftOfClear(HighBytes(v), 8);
    HalfTimesIsShift8(HighBytes(v));
  }

  /** Feeding message bits one by one is shifting with the message xored in. */
  lemma {:induction false} BitsAreShifts(r: bv32, w: bv32, n: nat)
    ensures DivideBits(Xor(r, w), BitsFrom(w, n)) == Xor(ShiftTimes(r, n), HalfTimes(w, n))
    decreases n
  {
    hide LowBit, Half, Xor;
    if n > 0 {
      var bits := BitsFrom(w, n);
      assert bits[0] == LowBit(w) && bits[1..] == BitsFrom(Half(w), n - 1);
      LowBitOfXor(r, w);
      HalfOfXor(r, w);
      XorAssociates(Half(r), Half(w), POLYNOMIAL);
      XorCommutes(Half(w), POLYNOMIAL);
      XorAssociates(Half(r), POLYNOMIAL, Half(w));
      assert DivideBit(Xor(r, w), bits[0]) == Xor(Shift(r), Half(w));
      BitsAreShifts(Shift(r), Half(w), n - 1);
    }
  }

  lemma {:induction false} DivideConcat(r: bv32, a: seq<bool>, b: seq<bool>)
    ensures DivideBits(r, a + b) == DivideBits(DivideBits(r, a), b)
    decreases |a|
  {
    hide DivideBit;
    if a == [] {
      assert a + b == b;
    } else {
      assert (a + b)[0] == a[0] && (a + b)[1..] == a[1..] + b;
      DivideConcat(DivideBit(r, a[0]), a[1..], b);
    }
  }

  lemma WordIsByte(b: u8)
    ensures Word(b) <= 0xFF
  {
  }

  lemma ByteShiftsOut(w: bv32)
    requires w <= 0xFF
    ensures Shift8(w) == 0
  {
  }

  lemma Shift8OfXor(a: bv32, b: bv32)
    ensures Shift8(Xor(a, b)) == Xor(Shift8(a), Shift8(b))
  {
  }

  lemma XorZero(a: bv32)
    ensures Xor(a, 0) == a
  {
  }

  /** One table lookup divides the eight bits of a byte. */
  lemma ByteStep(register: bv32, b: u8)
    ensures DivideBits(register, BitsFrom(Word(b), 8)) ==
            Xor(ShiftTimes(LowByte(Xor(register, Word(b))), 8), Shift8(register))
  {
    hide LowByte, Shift8, Xor, Shift, Half, LowBit, Word;
    var w := Word(b);
    WordIsByte(b);
    ByteShiftsOut(w);
    XorCancels(register, w);
    BitsAreShifts(Xor(register, w), w, 8);
    HalfTimesIsShift8(w);
    TableStep(Xor(register, w));
    Shift8OfXor(register, w);
    XorZero(Shift8(register));
    XorZero(ShiftTimes(Xor(register, w), 8));
  }

  // ------------------------------------------------ the check value

  /** The division of the lowest n bits of a word, without the list of bits. */
  function Steps(r: bv32, w: bv32, n: nat): bv32
    decreases n
  {
    if n == 0 then r else Steps(DivideBit(r, LowBit(w)), Half(w), n - 1)
  }

  lemma {:induction false} StepsDivide(r: bv32, w: bv32, n: nat)
    ensures DivideBits(r, BitsFrom(w, n)) == Steps(r, w, n)
    decreases n
  {
    hide DivideBit, LowBit, Half;
    if n > 0 {
      assert BitsFrom(w, n)[1..] == BitsFrom(Half(w), n - 1);
      StepsDivide(DivideBit(r, LowBit(w)), Half(w), n - 1);
    }
  }

  lemma DivideByte(r: bv32, data: bytes, k: nat, w: bv32, after: bv32)
    requires k < |data| && w == Word(data[k]) && Steps(r, w, 8) == after
    ensures DivideBits(r, BitsOf(data[k..])) == DivideBits(after, BitsOf(data[k + 1..]))
  {
    hide DivideBit, LowBit, Half, Word, Steps;
    assert data[k..][0] == data[k] && data[k..][1..] == data[k + 1..];
    StepsDivide(r, w, 8);
    DivideConcat(r, BitsFrom(w, 8), BitsOf(data[k + 1..]));
  }

  /** The digits from 1 to 9 have the check value every CRC-32 has. */
  lemma CheckValue(data: bytes)
    requires data == [0x31, 0x32, 0x33, 0x34, 0x35, 0x36, 0x37, 0x38, 0x39]
    ensures Crc(data) == 0xCBF4_3926
  {
    assert Digits(data);
    CheckDigits(data);
    Complement();
    hide DivideBits, BitsOf;
  }

  predicate Digits(data: bytes) {
    && |data| == 9
    && data[0] == 0x31 && data[1] == 0x32 && data[2] == 0x33 && data[3] == 0x34 && data[4] == 0x35
    && data[5] == 0x36 && data[6] == 0x37 && data[7] == 0x38 && data[8] == 0x39
  }

  lemma CheckDigits(data: bytes)
    requires Digits(data)
    ensures DivideBits(0xFFFF_FFFF, BitsOf(data)) == 0x340B_C6D9
  {
    assert data[0..] == data && data[9..] == [];
    NoBits(0x340B_C6D9);
    hide *;
    DigitsTo1(data);
    DigitsTo3(data);
    DigitsTo6(data);
    DigitsTo9(data);
  }

  lemma DigitsTo1(data: bytes)
    requires Digits(data)
    ensures DivideBits(0xFFFF_FFFF, BitsOf(data[0..])) == DivideBits(0x7C23_1048, BitsOf(data[1..]))
  {
    assert data[0] == 0x31 && Word(0x31) == 0x31 && Steps(0xFFFF_FFFF, 0x31, 8) == 0x7C23_1048;
    hide *;
    DivideByte(0xFFFF_FFFF, data, 0, 0x31, 0x7C23_1048);
  }

  lemma DigitsTo3(data: bytes)
    requires Digits(data)
    ensures DivideBits(0x7C23_1048, BitsOf(data[1..])) == DivideBits(0x77B7_9C2D, BitsOf(data[3..]))
  {
    assert data[1] == 0x32 && Word(0x32) == 0x32 && Steps(0x7C23_1048, 0x32, 8) == 0xB0AC_BB32;
    assert data[2] == 0x33 && Word(0x33) == 0x33 && Steps(0xB0AC_BB32, 0x33, 8) == 0x77B7_9C2D;
    hide *;
    DivideByte(0x7C23_1048, data, 1, 0x32, 0xB0AC_BB32);
    DivideByte(0xB0AC_BB32, data, 2, 0x33, 0x77B7_9C2D);
  }

  lemma DigitsTo6(data: bytes)
    requires Digits(data)
    ensures DivideBits(0x77B7_9C2D, BitsOf(data[3..])) == DivideBits(0xF68D_2C9E, BitsOf(data[6..]))
  {
    assert data[3] == 0x34 && Word(0x34) == 0x34 && Steps(0x77B7_9C2D, 0x34, 8) == 0x641C_1F5C;
    assert data[4] == 0x35 && Word(0x35) == 0x35 && Steps(0x641C_1F5C, 0x35, 8) == 0x340A_C5E3;
    assert data[5] == 0x36 && Word(0x36) == 0x36 && Steps(0x340A_C5E3, 0x36, 8) == 0xF68D_2C9E;
    hide *;
    DivideByte(0x77B7_9C2D, data, 3, 0x34, 0x641C_1F5C);
    DivideByte(0x641C_1F5C, data, 4, 0x35, 0x340A_C5E3);
    DivideByte(0x340A_C5E3, data, 5, 0x36, 0xF68D_2C9E);
  }

  lemma DigitsTo9(data: bytes)
    requires Digits(data)
    ensures DivideBits(0xF68D_2C9E, BitsOf(data[6..])) == DivideBits(0x340B_C6D9, BitsOf(data[9..]))
  {
    assert data[6] == 0x37 && Word(0x37) == 0x37 && Steps(0xF68D_2C9E, 0x37, 8) == 0xAFFC_9660;
    assert data[7] == 0x38 && Word(0x38) == 0x38 && Steps(0xAFFC_9660, 0x38, 8) == 0x651F_2550;
    assert data[8] == 0x39 && Word(0x39) == 0x39 && Steps(0x651F_2550, 0x39, 8) == 0x340B_C6D9;
    hide *;
    DivideByte(0xF68D_2C9E, data, 6, 0x37, 0xAFFC_9660);
    DivideByte(0xAFFC_9660, data, 7, 0x38, 0x651F_2550);
    DivideByte(0x651F_2550, data, 8, 0x39, 0x340B_C6D9);
  }

  lemma NoBits(r: bv32)
    ensures DivideBits(r, BitsOf([])) == r
  {
  }

  lemma Complement()
    ensures (!(0x340B_C6D9 as bv32)) as int as u32 == 0xCBF4_3926
  {
  }
}

/** Adler-32 with the reduction deferred to every 5552nd byte. */
module Adler32 {
  import opened Bytes

  const MODULUS := 65521
  const DEFER := 5552

  datatype Sums = Sums(a: nat, b: nat)

  /** Section 2.2 of RFC 1950: both sums modulo 65521 after every byte. */
  function AddByte(s: Sums, x: u8): Sums {
    var a := (s.a + x as nat) % MODULUS;
    Sums(a, (s.b + a) % MODULUS)
  }

  function SumsOf(data: bytes): (s: Sums)
    ensures s.a < MODULUS && s.b < MODULUS
    decreases |data|
  {
    if data == [] then Sums(1, 0)
    else AddByte(SumsOf(data[..|data| - 1]), data[|data| - 1])
  }

  function Adler(data: bytes): u32 {
    var s := SumsOf(data);
    (s.b * 0x1_0000 + s.a) as u32
  }

  /** The check value of the letters of Wikipedia. */
  lemma CheckValue(data: bytes)
    requires data == [0x57, 0x69, 0x6B, 0x69, 0x70, 0x65, 0x64, 0x69, 0x61]
    ensures Adler(data) == 0x11E6_0398
  {
    assert data[0] == 0x57 && data[1] == 0x69 && data[2] == 0x6B && data[3] == 0x69 && data[4] == 0x70;
    assert data[5] == 0x65 && data[6] == 0x64 && data[7] == 0x69 && data[8] == 0x61;
    CheckLetters(data);
    hide SumsOf;
  }

  lemma CheckLetters(data: bytes)
    requires |data| == 9
    requires data[0] == 0x57 && data[1] == 0x69 && data[2] == 0x6B && data[3] == 0x69 && data[4] == 0x70
    requires data[5] == 0x65 && data[6] == 0x64 && data[7] == 0x69 && data[8] == 0x61
    ensures SumsOf(data) == Sums(0x398, 0x11E6)
  {
    assert data[..0] == [] && data[..9] == data;
    FirstLetters(data);
    hide SumsOf;
    SumUpTo(data, 5, 618, 2121);
    SumUpTo(data, 6, 718, 2839);
    SumUpTo(data, 7, 823, 3662);
    SumUpTo(data, 8, 920, 4582);
  }

  lemma FirstLetters(data: bytes)
    requires |data| == 9
    requires data[0] == 0x57 && data[1] == 0x69 && data[2] == 0x6B && data[3] == 0x69 && data[4] == 0x70
    ensures SumsOf(data[..5]) == Sums(517, 1503)
  {
    assert data[..0] == [];
    assert SumsOf([]) == Sums(1, 0);
    hide SumsOf;
    SumUpTo(data, 0, 88, 88);
    SumUpTo(data, 1, 193, 281);
    SumUpTo(data, 2, 300, 581);
    SumUpTo(data, 3, 405, 986);
    SumUpTo(data, 4, 517, 1503);
  }

  lemma SumUpTo(data: bytes, k: nat, a: nat, b: nat)
    requires k < |data| && AddByte(SumsOf(data[..k]), data[k]) == Sums(a, b)
    ensures SumsOf(data[..k + 1]) == Sums(a, b)
  {
    SumsOfNext(data, k);
  }

  /** The largest second sum n bytes after a reduction. */
  function Worst(n: nat): nat {
    if n == 0 then MODULUS - 1 else Worst(n - 1) + MODULUS - 1 + 255 * n
  }

  lemma {:induction false} WorstClosed(n: nat)
    ensures 2 * Worst(n) == 2 * (MODULUS - 1) * (n + 1) + 255 * n * (n + 1)
  {
    if n > 0 {
      WorstClosed(n - 1);
    }
  }

  lemma {:induction false} WorstGrows(m: nat, n: nat)
    requires m <= n
    ensures Worst(m) <= Worst(n)
    decreases n
  {
    if m < n {
      WorstGrows(m, n - 1);
    }
  }

  /** 5552 bytes of any data fit 32 bits; one more might not. */
  lemma DeferralIsMaximal()
    ensures Worst(DEFER) < 0x1_0000_0000 <= Worst(DEFER + 1)
  {
    WorstClosed(DEFER);
    WorstClosed(DEFER + 1);
  }

  lemma ReduceLater(a: nat, b: nat, x: u8)
    ensures AddByte(Sums(a % MODULUS, b % MODULUS), x) ==
            Sums((a + x as nat) % MODULUS, (b + (a + x as nat)) % MODULUS)
  {
    ModOfSum(a, x as nat);
    ModOfSum(b, (a + x as nat) % MODULUS);
    ModOfSum(a + x as nat, b);
  }

  lemma ModOfSum(a: nat, b: nat)
    ensures (a % MODULUS + b) % MODULUS == (a + b) % MODULUS
  {
    var q := a / MODULUS;
    assert a % MODULUS + b == a + b - q * MODULUS;
    ModShift(a % MODULUS + b, q);
  }

  lemma {:induction false} ModShift(a: nat, q: nat)
    ensures (a + q * MODULUS) % MODULUS == a % MODULUS
  {
    if q > 0 {
      ModShift(a, q - 1);
      assert a + q * MODULUS == a + (q - 1) * MODULUS + MODULUS;
    }
  }

  /** One block of unreduced additions. Every addition happens in 32 bits: that
      none of them wraps is part of what is verified. */
  method SumBlock(data: bytes, start: nat, end: nat, a0: u32, b0: u32) returns (a: u32, b: u32)
    requires start <= end <= |data| && end - start <= DEFER
    requires a0 as nat < MODULUS && b0 as nat < MODULUS
    requires SumsOf(data[..start]) == Sums(a0 as nat, b0 as nat)
    ensures SumsOf(data[..end]) == Sums(a as nat % MODULUS, b as nat % MODULUS)
  {
    a, b := a0, b0;
    DeferralIsMaximal();
    for k := start to end
      invariant a as nat <= MODULUS - 1 + 255 * (k - start) && b as nat <= Worst(k - start)
      invariant SumsOf(data[..k]) == Sums(a as nat % MODULUS, b as nat % MODULUS)
    {
      WorstGrows(k - start + 1, DEFER);
      SumsOfNext(data, k);
      ReduceLater(a as nat, b as nat, data[k]);
      a := a + data[k] as u32;
      b := b + a;
    }
  }

  lemma SumsOfNext(data: bytes, k: nat)
    requires k < |data|
    ensures SumsOf(data[..k + 1]) == AddByte(SumsOf(data[..k]), data[k])
  {
    assert data[..k + 1][..k] == data[..k];
  }

  method ComputeAdler(data: bytes) returns (adler: u32)
    ensures adler == Adler(data)
  {
    var a: u32, b: u32 := 1, 0;
    var start := 0;
    while start < |data|
      invariant 0 <= start <= |data|
      invariant a as nat < MODULUS && b as nat < MODULUS
      invariant SumsOf(data[..start]) == Sums(a as nat, b as nat)
    {
      var end := if start + DEFER < |data| then start + DEFER else |data|;
      a, b := SumBlock(data, start, end, a, b);
      a := a % MODULUS as u32;
      b := b % MODULUS as u32;
      start := end;
    }
    assert data[..|data|] == data;
    adler := b * 0x1_0000 + a;
  }
}
