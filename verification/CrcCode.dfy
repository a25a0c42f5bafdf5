/** The checksum routines themselves: registers of fixed width shifted in place. */
module CrcCode {
  import opened Crc

  function Mask(i: nat): bv32
    requires i < 16
  {
    if i == 0 then 0x8000 else if i == 1 then 0x4000 else if i == 2 then 0x2000 else if i == 3 then 0x1000
    else if i == 4 then 0x800 else if i == 5 then 0x400 else if i == 6 then 0x200 else if i == 7 then 0x100
    else if i == 8 then 0x80 else if i == 9 then 0x40 else if i == 10 then 0x20 else if i == 11 then 0x10
    else if i == 12 then 8 else if i == 13 then 4 else if i == 14 then 2 else 1
  }

  predicate BitAt(w: bv32, i: nat)
    requires i < 16
  {
    w & Mask(i) != 0
  }

  /** The low half of a 32-bit variable; what is above it is never read again. */
  function LowBits(w: bv32): Register {
    seq(16, i requires 0 <= i < 16 => BitAt(w, i))
  }

  function Wide(w: bv16): bv32 {
    w as bv32
  }

  function WordBits(w: bv16): Register {
    LowBits(Wide(w))
  }

  // ----- the sender's step --------------------------------------------------

  lemma IncrementEven(c: bv32)
    ensures (c << 1) + 1 == (c << 1) | 1
  {
  }

  lemma MaskIsOneBit(i: nat)
    requires i < 16
    ensures Mask(i) != 0 && Mask(i) & (Mask(i) - 1) == 0
  {
  }

  lemma XorOneBit(v: bv32, w: bv32, m: bv32)
    requires m != 0 && m & (m - 1) == 0
    ensures ((v ^ w) & m != 0) == ((v & m != 0) != (w & m != 0))
  {
  }

  lemma LowXor(v: bv32, w: bv32)
    ensures LowBits(v ^ w) == Xor(LowBits(v), LowBits(w))
  {
    hide Mask;
    forall i | 0 <= i < 16 ensures BitAt(v ^ w, i) == (BitAt(v, i) != BitAt(w, i)) {
      MaskIsOneBit(i);
      XorOneBit(v, w, Mask(i));
    }
    hide BitAt;
  }

  function GeneratorWord(): Register {
    seq(16, i => GeneratorBit(i))
  }

  lemma GeneratorIs1021()
    ensures LowBits(0x1021) == GeneratorWord()
  {
    forall i | 0 <= i < 16 ensures BitAt(0x1021, i) == GeneratorBit(i) {
    }
    hide BitAt, GeneratorBit;
  }

  lemma DoubledBit(c: bv32, b: bool, i: nat)
    requires i < 16
    ensures var d := if b then (c << 1) | 1 else c << 1;
      BitAt(d, i) == if i < 15 then BitAt(c, i + 1) else b
  {
  }

  lemma Doubled(c: bv32, b: bool)
    ensures var d := if b then (c << 1) | 1 else c << 1;
      LowBits(d) == LowBits(c)[1..] + [b]
  {
    var d := if b then (c << 1) | 1 else c << 1;
    forall i | 0 <= i < 16 ensures LowBits(d)[i] == (LowBits(c)[1..] + [b])[i] {
      DoubledBit(c, b, i);
      hide BitAt;
    }
  }

  lemma TopBit(c: bv32, b: bool)
    ensures var d := if b then (c << 1) | 1 else c << 1; (d & 0x10000 != 0) == BitAt(c, 0)
  {
  }

  lemma UpdateStep(c: bv32, b: bool)
    ensures var d := if b then (c << 1) + 1 else c << 1;
      LowBits(if d & 0x10000 != 0 then d ^ 0x1021 else d) == Step(LowBits(c), b)
  {
    var d := if b then (c << 1) | 1 else c << 1;
    IncrementEven(c);
    Doubled(c, b);
    TopBit(c, b);
    assert LowBits(c)[0] == BitAt(c, 0);
    LowXor(d, 0x1021);
    GeneratorIs1021();
    hide LowBits, BitAt;
    StepIsFeedback(LowBits(c), b);
  }

  lemma StepIsFeedback(s: Register, b: bool)
    ensures Step(s, b) == if s[0] then Xor(s[1..] + [b], GeneratorWord()) else s[1..] + [b]
  {
  }

  /** The input variable after `i` shifts, with its sentinel bit. */
  function Input(byte: bv8, i: nat): bv32
    requires i <= 8
  {
    var x := (byte as bv32) | 0x100;
    if i == 0 then x else if i == 1 then x << 1 else if i == 2 then x << 2 else if i == 3 then x << 3 else if i == 4 then x << 4
    else if i == 5 then x << 5 else if i == 6 then x << 6 else if i == 7 then x << 7 else x << 8
  }

  lemma InputShifts(byte: bv8, i: nat)
    requires i < 8
    ensures Input(byte, i + 1) == Input(byte, i) << 1
  {
  }

  lemma InputBit(byte: bv8, i: nat)
    requires i < 8
    ensures (Input(byte, i + 1) & 0x100 != 0) == ByteBits(byte)[i]
  {
  }

  lemma InputEnds(byte: bv8, i: nat)
    requires i <= 8
    ensures (Input(byte, i) & 0x10000 != 0) <==> i == 8
  {
  }

  function LowHalf(c: bv32): bv16 {
    (c & 0xFFFF) as bv16
  }

  lemma LowHalfBit(c: bv32, i: nat)
    requires i < 16
    ensures BitAt(LowHalf(c) as bv32, i) == BitAt(c, i)
  {
  }

  lemma LowHalfBits(c: bv32)
    ensures WordBits(LowHalf(c)) == LowBits(c)
  {
    forall i | 0 <= i < 16 ensures WordBits(LowHalf(c))[i] == LowBits(c)[i] {
      LowHalfBit(c, i);
      hide BitAt;
    }
  }

  method ShiftIn(crcIn: bv32, bit: bool) returns (crc: bv32)
    ensures LowBits(crc) == Step(LowBits(crcIn), bit)
  {
    UpdateStep(crcIn, bit);
    crc := if bit then (crcIn << 1) + 1 else crcIn << 1;
    crc := if crc & 0x10000 != 0 then crc ^ 0x1021 else crc;
  }

  method UpdateCrc16(crcIn: bv16, byte: bv8) returns (r: bv16)
    ensures WordBits(r) == Shift(WordBits(crcIn), ByteBits(byte))
  {
    var crc := crcIn as bv32;
    assert LowBits(crc) == WordBits(crcIn);
    var in_ := (byte as bv32) | 0x100;
    ghost var i := 0;
    hide WordBits, LowBits, Step, ByteBits;
    while true
      invariant i < 8 && in_ == Input(byte, i)
      invariant LowBits(crc) == Shift(WordBits(crcIn), ByteBits(byte)[..i])
      decreases 8 - i
    {
      InputShifts(byte, i);
      InputBit(byte, i);
      InputEnds(byte, i + 1);
      ShiftNext(WordBits(crcIn), ByteBits(byte), i);
      hide Input;
      in_ := in_ << 1;
      crc := ShiftIn(crc, in_ & 0x100 != 0);
      i := i + 1;
      if in_ & 0x10000 != 0 {
        assert ByteBits(byte)[..8] == ByteBits(byte);
        break;
      }
    }
    r := LowHalf(crc);
    LowHalfBits(crc);
  }

  lemma ShiftNext(s: Register, bits: seq<bool>, i: nat)
    requires i < |bits|
    ensures Shift(s, bits[..i + 1]) == Step(Shift(s, bits[..i]), bits[i])
  {
    hide Step;
    assert bits[..i + 1][..i] == bits[..i];
  }

  lemma {:induction false} ZeroByte()
    ensures ByteBits(0) == Zeros(8)
  {
    forall i | 0 <= i < 8 ensures !ByteBits(0)[i] {
    }
  }

  class Crc16Context {
    var crc: bv16

    method Init()
      modifies this
      ensures WordBits(crc) == Zeros(16)
    {
      crc := 0;
      ZeroWord();
    }

    method Update(src: array<bv8>, from: nat, len: nat)
      requires from + len <= src.Length
      modifies this
      ensures WordBits(crc) == Shift(old(WordBits(crc)), Bits(src[from..from + len]))
    {
      hide WordBits, ByteBits;
      ghost var data := src[from..from + len];
      var p := from;
      assert data[..0] == [];
      while p < from + len
        invariant from <= p <= from + len
        invariant WordBits(crc) == Shift(old(WordBits(crc)), Bits(data[..p - from]))
      {
        NextByte(data, p - from);
        ShiftConcat(old(WordBits(crc)), Bits(data[..p - from]), ByteBits(src[p]));
        crc := UpdateCrc16(crc, src[p]);
        p := p + 1;
      }
      assert data[..len] == data;
    }

    method Final() returns (result: bv16)
      modifies this
      ensures WordBits(result) == Shift(old(WordBits(crc)), Zeros(16))
    {
      hide WordBits, ByteBits;
      ZeroByte();
      assert Zeros(16) == Zeros(8) + Zeros(8);
      ShiftConcat(WordBits(crc), Zeros(8), Zeros(8));
      crc := UpdateCrc16(crc, 0);
      crc := UpdateCrc16(crc, 0);
      result := crc;
    }
  }

  lemma ZeroWord()
    ensures WordBits(0) == Zeros(16)
  {
    forall i | 0 <= i < 16 ensures !WordBits(0)[i] {
    }
  }

  lemma NextByte(m: seq<bv8>, i: nat)
    requires i < |m|
    ensures Bits(m[..i + 1]) == Bits(m[..i]) + ByteBits(m[i])
  {
    hide ByteBits;
    assert m[..i + 1][..i] == m[..i];
  }

  /** The sender's checksum: the message and two zero bytes go through the register. */
  method CalCrc16(data: array<bv8>, from: nat, size: nat) returns (r: bv16)
    requires from + size <= data.Length
    ensures WordBits(r) == Checksum(data[from..from + size])
  {
    hide WordBits, Bits;
    var context := new Crc16Context;
    context.Init();
    context.Update(data, from, size);
    r := context.Final();
    TopIsShiftAndZeros(Bits(data[from..from + size]));
  }

  // ----- the receiver's loop ------------------------------------------------

  lemma WordShiftBit(w: bv16, i: nat)
    requires i < 16
    ensures BitAt((w << 1) as bv32, i) == if i < 15 then BitAt(w as bv32, i + 1) else false
  {
  }

  function HighWord(b: bv8): bv16 {
    (b as bv16) << 8
  }

  lemma HighByteBit(b: bv8, i: nat)
    requires i < 16
    ensures BitAt(Wide(HighWord(b)), i) == (i < 8 && ByteBits(b)[i])
  {
  }

  lemma HighByteBits(b: bv8)
    ensures WordBits(HighWord(b)) == ByteBits(b) + Zeros(8)
  {
    forall i | 0 <= i < 16 ensures WordBits(HighWord(b))[i] == (ByteBits(b) + Zeros(8))[i] {
      HighByteBit(b, i);
      hide BitAt, ByteBits;
    }
  }

  function XorWord(v: bv16, w: bv16): bv16 {
    v ^ w
  }

  lemma XorWidens(v: bv16, w: bv16)
    ensures Wide(XorWord(v, w)) == Wide(v) ^ Wide(w)
  {
  }

  lemma WordXor(v: bv16, w: bv16)
    ensures WordBits(XorWord(v, w)) == Xor(WordBits(v), WordBits(w))
  {
    XorWidens(v, w);
    hide LowBits, Wide, Xor, XorWord;
    LowXor(Wide(v), Wide(w));
  }

  lemma WordShift(w: bv16)
    ensures WordBits(w << 1) == WordBits(w)[1..] + [false]
  {
    forall i | 0 <= i < 16 ensures WordBits(w << 1)[i] == (WordBits(w)[1..] + [false])[i] {
      WordShiftBit(w, i);
      hide BitAt;
    }
  }

  lemma WordTop(w: bv16)
    ensures (w & 0x8000 != 0) == WordBits(w)[0]
  {
  }

  lemma WordGenerator()
    ensures WordBits(0x1021) == GeneratorWord()
  {
    GeneratorIs1021();
    assert 0x1021 as bv16 as bv32 == 0x1021;
  }

  lemma WordStep(w: bv16)
    ensures WordBits(if w & 0x8000 != 0 then (w << 1) ^ 0x1021 else w << 1) == Step(WordBits(w), false)
  {
    hide WordBits;
    WordTop(w);
    WordShift(w);
    WordXor(w << 1, 0x1021);
    WordGenerator();
    StepIsFeedback(WordBits(w), false);
    hide Step, GeneratorWord;
  }

  /** Bits added to the top all at once leave the register like bits added one by one. */
  lemma TopByteStep(t: Register, rest: seq<bool>)
    requires 0 < |rest| <= 16
    ensures Step(Xor(t, rest + Zeros(16 - |rest|)), false)
      == Xor(Step(t[0 := t[0] != rest[0]], false), rest[1..] + Zeros(17 - |rest|))
  {
  }

  method AddByte(crcIn: bv16, byte: bv8) returns (crc: bv16)
    ensures WordBits(crc) == Top(WordBits(crcIn), ByteBits(byte))
  {
    hide WordBits, ByteBits;
    ghost var s, bits := WordBits(crcIn), ByteBits(byte);
    crc := crcIn ^ HighWord(byte);
    WordXor(crcIn, HighWord(byte));
    HighByteBits(byte);
    assert bits[..0] == [] && bits[0..] == bits;
    for i := 0 to 8
      invariant WordBits(crc) == Xor(Top(s, bits[..i]), bits[i..] + Zeros(8 + i))
    {
      WordStep(crc);
      TopByteStep(Top(s, bits[..i]), bits[i..]);
      TopNext(s, bits, i);
      if crc & 0x8000 != 0 {
        crc := (crc << 1) ^ 0x1021;
      } else {
        crc := crc << 1;
      }
    }
    assert bits[..8] == bits && bits[8..] + Zeros(16) == Zeros(16);
    XorZeros(Top(s, bits));
  }

  lemma TopNext(s: Register, bits: seq<bool>, i: nat)
    requires i < |bits|
    ensures Top(s, bits[..i + 1]) == var t := Top(s, bits[..i]); Step(t[0 := t[0] != bits[i]], false)
    ensures bits[i..][1..] == bits[i + 1..]
  {
    hide Step;
    assert bits[..i + 1][..i] == bits[..i];
  }

  method Crc16(buf: array<bv8>, from: nat, count: nat) returns (crc: bv16)
    requires from + count <= buf.Length
    ensures WordBits(crc) == Checksum(buf[from..from + count])
  {
    hide WordBits, ByteBits, Step;
    crc := 0;
    ZeroWord();
    ghost var m := buf[from..from + count];
    assert m[..0] == [] && m[..count] == m;
    for i := 0 to count
      invariant WordBits(crc) == Top(Zeros(16), Bits(m[..i]))
    {
      NextByte(m, i);
      TopConcat(Zeros(16), Bits(m[..i]), ByteBits(m[i]));
      crc := AddByte(crc, buf[from + i]);
    }
  }
}
