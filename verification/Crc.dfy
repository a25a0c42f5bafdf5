/** The two CRC-16 algorithms of the YMODEM code (common/CheckSumUtils.c, common/ymodem.c):
    the sender shifts the message through the register and then two zero bytes, the
    receiver adds each byte at the top of the register. Both give the remainder of the
    division by x^16 + x^12 + x^5 + 1. Registers and messages are bits, the most
    significant bit first. */
module Crc {

  // ----- bits ---------------------------------------------------------------

  function ByteBits(b: bv8): (s: seq<bool>)
    ensures |s| == 8
  {
    [b & 0x80 != 0, b & 0x40 != 0, b & 0x20 != 0, b & 0x10 != 0, b & 8 != 0, b & 4 != 0, b & 2 != 0, b & 1 != 0]
  }

  /** The bits of a message. */
  function Bits(m: seq<bv8>): (s: seq<bool>)
    ensures |s| == 8 * |m|
  {
    if m == [] then [] else Bits(m[..|m| - 1]) + ByteBits(m[|m| - 1])
  }

  function Zeros(n: nat): (s: seq<bool>)
    ensures |s| == n
  {
    seq(n, _ => false)
  }

  function Xor(a: seq<bool>, b: seq<bool>): (d: seq<bool>)
    requires |a| == |b|
    ensures |d| == |a|
  {
    seq(|a|, i requires 0 <= i < |a| => a[i] != b[i])
  }

  type Register = s: seq<bool> | |s| == 16 witness Zeros(16)

  // ----- division of polynomials over GF(2) ---------------------------------

  /** The generator below its leading bit, 0x1021. */
  predicate GeneratorBit(i: int) {
    i == 3 || i == 10 || i == 15
  }

  /** Subtracts the generator's tail from the leading sixteen bits. */
  function SubtractTail(bits: seq<bool>): (r: seq<bool>)
    requires |bits| >= 16
    ensures |r| == |bits|
  {
    seq(|bits|, i requires 0 <= i < |bits| => bits[i] != GeneratorBit(i))
  }

  /** Long division: cancel the leading bit until sixteen bits are left. */
  ghost function Remainder(bits: seq<bool>): Register
    requires |bits| >= 16
    decreases |bits|
  {
    if |bits| == 16 then bits
    else Remainder(if bits[0] then SubtractTail(bits[1..]) else bits[1..])
  }

  // ----- the shift registers ------------------------------------------------

  /** One bit is shifted in at the low end; a bit leaving at the top feeds back. */
  function Step(s: Register, bit: bool): Register {
    seq(16, i requires 0 <= i < 16 => (if i < 15 then s[i + 1] else bit) != (s[0] && GeneratorBit(i)))
  }

  /** The sender's register after shifting in `bits`. */
  function Shift(s: Register, bits: seq<bool>): Register {
    if bits == [] then s else Step(Shift(s, bits[..|bits| - 1]), bits[|bits| - 1])
  }

  /** The receiver's register: each bit is added at the top, then a zero is shifted in. */
  function Top(s: Register, bits: seq<bool>): Register {
    if bits == [] then s
    else var t := Top(s, bits[..|bits| - 1]); Step(t[0 := t[0] != bits[|bits| - 1]], false)
  }

  /** The checksum of a message, as the receiver computes it. */
  function Checksum(m: seq<bv8>): Register {
    Top(Zeros(16), Bits(m))
  }

  // ----- laws of the shift register -----------------------------------------

  lemma {:induction false} ShiftConcat(s: Register, a: seq<bool>, b: seq<bool>)
    ensures Shift(s, a + b) == Shift(Shift(s, a), b)
  {
    hide Step;
    if b == [] {
      assert a + b == a;
    } else {
      assert (a + b)[..|a + b| - 1] == a + b[..|b| - 1];
      ShiftConcat(s, a, b[..|b| - 1]);
    }
  }

  lemma {:induction false} TopConcat(s: Register, a: seq<bool>, b: seq<bool>)
    ensures Top(s, a + b) == Top(Top(s, a), b)
  {
    hide Step;
    if b == [] {
      assert a + b == a;
    } else {
      assert (a + b)[..|a + b| - 1] == a + b[..|b| - 1];
      TopConcat(s, a, b[..|b| - 1]);
    }
  }

  lemma {:induction false} BitsConcat(m: seq<bv8>, n: seq<bv8>)
    ensures Bits(m + n) == Bits(m) + Bits(n)
  {
    hide ByteBits;
    if n == [] {
      assert m + n == m;
    } else {
      assert (m + n)[..|m + n| - 1] == m + n[..|n| - 1];
      BitsConcat(m, n[..|n| - 1]);
    }
  }

  lemma StepLinear(s: Register, t: Register, a: bool, b: bool)
    ensures Step(Xor(s, t), a != b) == Xor(Step(s, a), Step(t, b))
  {
  }

  lemma {:induction false} ShiftLinear(s: Register, t: Register, a: seq<bool>, b: seq<bool>)
    requires |a| == |b|
    ensures Shift(Xor(s, t), Xor(a, b)) == Xor(Shift(s, a), Shift(t, b))
  {
    hide Step;
    var d := Xor(a, b);
    if a != [] {
      var n := |a| - 1;
      assert d[..n] == Xor(a[..n], b[..n]);
      ShiftLinear(s, t, a[..n], b[..n]);
      StepLinear(Shift(s, a[..n]), Shift(t, b[..n]), a[n], b[n]);
    }
  }

  lemma StepKeepsNonZero(s: Register)
    ensures Step(s, false) == Zeros(16) <==> s == Zeros(16)
  {
    var r := Step(s, false);
    if r == Zeros(16) {
      assert !r[15];
      forall i | 0 <= i < 16 ensures !s[i] {
        if i > 0 { assert !r[i - 1]; }
      }
    }
  }

  /** Shifting in zeros never loses a difference. */
  lemma {:induction false} ZerosKeepNonZero(s: Register, n: nat)
    ensures Shift(s, Zeros(n)) == Zeros(16) <==> s == Zeros(16)
  {
    hide Step;
    if n > 0 {
      assert Zeros(n)[..n - 1] == Zeros(n - 1);
      ZerosKeepNonZero(s, n - 1);
      StepKeepsNonZero(Shift(s, Zeros(n - 1)));
    }
  }

  lemma ShiftOne(s: Register, b: bool)
    ensures Shift(s, [b]) == Step(s, b)
  {
    hide Step;
    assert [b][..0] == [];
  }

  /** One more zero may come before the others or after them. */
  lemma ZerosCommute(s: Register, n: nat)
    ensures Shift(Step(s, false), Zeros(n)) == Step(Shift(s, Zeros(n)), false)
  {
    hide Step;
    assert [false] + Zeros(n) == Zeros(n) + [false];
    ShiftConcat(s, [false], Zeros(n));
    ShiftConcat(s, Zeros(n), [false]);
    ShiftOne(s, false);
    ShiftOne(Shift(s, Zeros(n)), false);
  }

  lemma ZerosXor(s: Register, t: Register, n: nat)
    ensures Shift(Xor(s, t), Zeros(n)) == Xor(Shift(s, Zeros(n)), Shift(t, Zeros(n)))
  {
    hide Step, Shift;
    assert Xor(Zeros(n), Zeros(n)) == Zeros(n);
    ShiftLinear(s, t, Zeros(n), Zeros(n));
  }

  /** Up to sixteen bits are only loaded: they do not reach the feedback. */
  lemma {:induction false} ShiftLoads(s: Register, bits: seq<bool>)
    requires |bits| <= 16
    ensures Shift(s, bits) == Xor(Shift(s, Zeros(|bits|)), Zeros(16 - |bits|) + bits)
  {
    if bits == [] {
      assert Xor(s, Zeros(16) + []) == s;
    } else {
      var n := |bits| - 1;
      var loaded := Zeros(16 - n) + bits[..n];
      assert Zeros(n + 1)[..n] == Zeros(n);
      ShiftLoads(s, bits[..n]);
      StepLinear(Shift(s, Zeros(n)), loaded, false, bits[n]);
      assert Step(loaded, bits[n]) == Zeros(15 - n) + bits;
    }
  }

  lemma XorZeros(s: seq<bool>)
    ensures Xor(s, Zeros(|s|)) == s && Xor(Zeros(|s|), s) == s
  {
  }

  function One(): Register {
    Zeros(15) + [true]
  }

  /** The remainder of x^16 is the generator's tail. */
  lemma OneAfterZeros()
    ensures Shift(One(), Zeros(16)) == seq(16, i => GeneratorBit(i))
  {
    var unit := [true] + Zeros(15);
    assert [true] == [true];
    ShiftOne(Zeros(16), true);
    assert Step(Zeros(16), true) == One();
    ShiftConcat(Zeros(16), [true], Zeros(15));
    ShiftLoads(Zeros(16), unit);
    ZerosKeepNonZero(Zeros(16), 16);
    assert Zeros(0) + unit == unit;
    XorZeros(unit);
    assert Shift(One(), Zeros(15)) == unit;
    assert Zeros(16) == Zeros(15) + [false];
    ShiftConcat(One(), Zeros(15), [false]);
    ShiftOne(unit, false);
  }

  /** The receiver's checksum is the sender's: the message and then two zero bytes. */
  lemma {:induction false} TopIsShiftAndZeros(bits: seq<bool>)
    ensures Top(Zeros(16), bits) == Shift(Shift(Zeros(16), bits), Zeros(16))
  {
    hide Step;
    if bits == [] {
      ZerosKeepNonZero(Zeros(16), 16);
    } else {
      var n := |bits| - 1;
      TopIsShiftAndZeros(bits[..n]);
      TopStep(Shift(Zeros(16), bits[..n]), bits[n]);
    }
  }

  lemma TopStep(t: Register, b: bool)
    ensures var z := Shift(t, Zeros(16)); Shift(Step(t, b), Zeros(16)) == Step(z[0 := z[0] != b], false)
  {
    var z := Shift(t, Zeros(16));
    ZerosCommute(t, 16);
    if b {
      assert Step(t, true) == Xor(Step(t, false), One());
      ZerosXor(Step(t, false), One(), 16);
      OneAfterZeros();
      assert Step(z[0 := !z[0]], false) == Xor(Step(z, false), seq(16, i => GeneratorBit(i)));
    } else {
      assert z[0 := z[0]] == z;
    }
  }

  // ----- the checksum is the remainder --------------------------------------

  lemma {:induction false} RemainderIsShift(s: Register, rest: seq<bool>)
    ensures Remainder(s + rest) == Shift(s, rest)
    decreases |rest|
  {
    if rest == [] {
      assert s + rest == s;
    } else {
      var b := rest[0];
      assert rest == [b] + rest[1..];
      ShiftConcat(s, [b], rest[1..]);
      ShiftOne(s, b);
      DivisionStep(s, rest);
      RemainderIsShift(Step(s, b), rest[1..]);
    }
  }

  lemma DivisionStep(s: Register, rest: seq<bool>)
    requires rest != []
    ensures Remainder(s + rest) == Remainder(Step(s, rest[0]) + rest[1..])
  {
    var next := (s + rest)[1..];
    var bits := if s[0] then SubtractTail(next) else next;
    assert bits == Step(s, rest[0]) + rest[1..];
  }

  lemma {:induction false} LeadingZeros(n: nat, bits: seq<bool>)
    requires |bits| >= 16
    ensures Remainder(Zeros(n) + bits) == Remainder(bits)
  {
    if n == 0 {
      assert Zeros(0) + bits == bits;
    } else {
      assert (Zeros(n) + bits)[1..] == Zeros(n - 1) + bits;
      LeadingZeros(n - 1, bits);
    }
  }

  /** The checksum is the remainder of the message followed by sixteen zero bits. */
  lemma ChecksumIsRemainder(m: seq<bv8>)
    ensures Checksum(m) == Remainder(Bits(m) + Zeros(16))
  {
    hide Bits, Shift, Top, Remainder;
    var bits := Bits(m) + Zeros(16);
    TopIsShiftAndZeros(Bits(m));
    ShiftConcat(Zeros(16), Bits(m), Zeros(16));
    RemainderIsShift(Zeros(16), bits);
    LeadingZeros(16, bits);
  }

  // ----- what the receiver's check accepts ----------------------------------

  lemma BitsOfTwo(a: bv8, b: bv8)
    ensures Bits([a, b]) == ByteBits(a) + ByteBits(b)
  {
    hide ByteBits;
    assert [a, b][..1] == [a] && [a][..0] == [];
    assert Bits([a]) == [] + ByteBits(a) == ByteBits(a);
  }

  lemma XorIsZero(s: Register, t: Register)
    ensures Xor(s, t) == Zeros(16) <==> s == t
  {
    if Xor(s, t) == Zeros(16) {
      forall i | 0 <= i < 16 ensures s[i] == t[i] {
        assert !Xor(s, t)[i];
      }
    }
  }

  /** The check passes exactly when the trailer holds the checksum of the payload, high byte first. */
  lemma CheckAcceptsExactlyTheTrailer(m: seq<bv8>, a: bv8, b: bv8)
    ensures Checksum(m + [a, b]) == Zeros(16) <==> ByteBits(a) + ByteBits(b) == Checksum(m)
  {
    hide Step, Shift, Top, ByteBits, Bits;
    var w := ByteBits(a) + ByteBits(b);
    var s := Shift(Zeros(16), Bits(m));
    BitsConcat(m, [a, b]);
    BitsOfTwo(a, b);
    ShiftConcat(Zeros(16), Bits(m), w);
    ShiftLoads(s, w);
    assert Zeros(0) + w == w;
    TopIsShiftAndZeros(Bits(m));
    TopIsShiftAndZeros(Bits(m) + w);
    ZerosKeepNonZero(Shift(s, w), 16);
    XorIsZero(Checksum(m), w);
  }

  /** Two messages differ only inside the sixteen bits that start at bit `k`. */
  ghost predicate BurstAt(m: seq<bv8>, n: seq<bv8>, k: nat) {
    |m| == |n| && k + 16 <= 8 * |m| && forall j :: 0 <= j < 8 * |m| && !(k <= j < k + 16) ==> Bits(m)[j] == Bits(n)[j]
  }

  lemma {:induction false} BitsDistinguish(m: seq<bv8>, n: seq<bv8>)
    requires |m| == |n| && Bits(m) == Bits(n)
    ensures m == n
  {
    hide ByteBits;
    if m != [] {
      var i := |m| - 1;
      assert Bits(m)[..8 * i] == Bits(m[..i]) && Bits(n)[..8 * i] == Bits(n[..i]);
      assert Bits(m)[8 * i..] == ByteBits(m[i]) && Bits(n)[8 * i..] == ByteBits(n[i]);
      BitsDistinguish(m[..i], n[..i]);
      ByteBitsDistinguish(m[i], n[i]);
      assert m == m[..i] + [m[i]] && n == n[..i] + [n[i]];
    }
  }

  lemma ByteBitsDistinguish(a: bv8, b: bv8)
    requires ByteBits(a) == ByteBits(b)
    ensures a == b
  {
    assert (a & 0x80 != 0) == ByteBits(a)[0] && (a & 0x40 != 0) == ByteBits(a)[1] && (a & 0x20 != 0) == ByteBits(a)[2]
      && (a & 0x10 != 0) == ByteBits(a)[3] && (a & 8 != 0) == ByteBits(a)[4] && (a & 4 != 0) == ByteBits(a)[5]
      && (a & 2 != 0) == ByteBits(a)[6] && (a & 1 != 0) == ByteBits(a)[7];
  }

  /** A non-zero difference within sixteen bits leaves a non-zero register. */
  lemma BurstShifts(d: seq<bool>, k: nat, j: nat)
    requires k + 16 <= |d| && k <= j < k + 16 && d[j]
    requires forall i :: 0 <= i < |d| && !(k <= i < k + 16) ==> !d[i]
    ensures Shift(Zeros(16), d) != Zeros(16)
  {
    hide Step, Shift;
    var w := d[k..k + 16];
    var rest := |d| - k - 16;
    assert w[j - k] && w != Zeros(16);
    assert d == Zeros(k) + w + Zeros(rest);
    ShiftConcat(Zeros(16), Zeros(k) + w, Zeros(rest));
    ShiftConcat(Zeros(16), Zeros(k), w);
    ZerosKeepNonZero(Zeros(16), k);
    ZerosKeepNonZero(Zeros(16), 16);
    ShiftLoads(Zeros(16), w);
    assert Zeros(0) + w == w;
    XorZeros(w);
    ZerosKeepNonZero(w, rest);
  }

  /** Every corruption within sixteen consecutive bits changes the checksum. */
  lemma BurstIsDetected(m: seq<bv8>, n: seq<bv8>, k: nat)
    requires BurstAt(m, n, k) && m != n
    ensures Checksum(m) != Checksum(n)
  {
    hide Step, Shift, Top, Bits;
    var x, y := Bits(m), Bits(n);
    var s, t := Shift(Zeros(16), x), Shift(Zeros(16), y);
    TopIsShiftAndZeros(x);
    TopIsShiftAndZeros(y);
    XorZeros(Zeros(16));
    ShiftLinear(Zeros(16), Zeros(16), x, y);
    if x == y { BitsDistinguish(m, n); }
    var j :| 0 <= j < |x| && x[j] != y[j];
    BurstShifts(Xor(x, y), k, j);
    ZerosKeepNonZero(Xor(s, t), 16);
    ZerosXor(s, t, 16);
    XorIsZero(Checksum(m), Checksum(n));
  }
}
