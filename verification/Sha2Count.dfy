/** The bit counter of the SHA-2 context: one or two 64-bit words (Lua/sha2.c:92-131). */
module Sha2Count {
  import opened Sha2

  /** The counter holds the number of bits of `n` bytes, modulo 2^64 or 2^128. */
  predicate Counted(wide: bool, low: nat, high: nat, n: nat) {
    low == 8 * n % TWO64 && (wide ==> high == 8 * n / TWO64 % TWO64)
  }

  /** ADDINC128: the carry is seen in the sum that wrapped around. */
  method AddInc128(w0: nat, w1: nat, n: nat) returns (low: nat, high: nat)
    requires w0 < TWO64 && w1 < TWO64 && n < TWO64
    ensures low < TWO64 && high < TWO64
    ensures high * TWO64 + low == (w1 * TWO64 + w0 + n) % (TWO64 * TWO64)
  {
    low := (w0 + n) % TWO64;
    high := w1;
    if low < n {
      high := (high + 1) % TWO64;
    }
  }

  lemma Remainder(x: nat, q: nat, r: nat)
    requires x == q * TWO64 + r && r < TWO64
    ensures x / TWO64 == q && x % TWO64 == r
  {
  }

  /** The counter after `bytes` more bytes. */
  method AddCount(wide: bool, w0: nat, w1: nat, ghost n: nat, bytes: nat) returns (low: nat, high: nat)
    requires Counted(wide, w0, w1, n) && bytes < 0x1000
    ensures Counted(wide, low, high, n + bytes)
  {
    ghost var q := 8 * n / TWO64;
    if wide {
      low, high := AddInc128(w0, w1, bytes * 8);
      Carry(q, w0, w1, bytes * 8, low, high);
      assert 8 * (n + bytes) == q * TWO64 + w0 + bytes * 8;
    } else {
      low, high := (w0 + bytes * 8) % TWO64, w1;
      assert 8 * (n + bytes) == q * TWO64 + w0 + bytes * 8;
    }
  }

  lemma Carry(q: nat, w0: nat, w1: nat, n: nat, low: nat, high: nat)
    requires w0 < TWO64 && w1 == q % TWO64 && n < TWO64 && low < TWO64 && high < TWO64
    requires high * TWO64 + low == (w1 * TWO64 + w0 + n) % (TWO64 * TWO64)
    ensures var x := q * TWO64 + w0 + n; low == x % TWO64 && high == x / TWO64 % TWO64
  {
    var k := q / TWO64;
    assert q == k * TWO64 + w1;
    var x := q * TWO64 + w0 + n;
    var y := w1 * TWO64 + w0 + n;
    assert x == k * (TWO64 * TWO64) + y;
    var c := y / (TWO64 * TWO64);
    assert y == c * (TWO64 * TWO64) + high * TWO64 + low;
    Remainder(x, (k + c) * TWO64 + high, low);
    Remainder((k + c) * TWO64 + high, k + c, high);
  }

  /** The bytes that wait in the buffer can be read off the counter, even after it has wrapped around. */
  lemma UsedSpace(wide: bool, low: nat, high: nat, n: nat)
    requires Counted(wide, low, high, n)
    ensures low / 8 % 64 == n % 64 && low / 8 % 128 == n % 128
  {
    var q := 8 * n / TWO64;
    var x := n - q * (TWO64 / 8);
    assert low == 8 * x;
    assert low / 8 == x;
    Multiple(q * (TWO64 / 1024), x);
  }

  lemma Multiple(y: nat, x: nat)
    ensures (128 * y + x) % 128 == x % 128 && (128 * y + x) % 64 == x % 64
  {
    Rest128(128 * y + x, y + x / 128, x % 128);
    Rest64(128 * y + x, 2 * y + x / 64, x % 64);
  }

  lemma Rest128(x: nat, q: nat, r: nat)
    requires x == 128 * q + r && r < 128
    ensures x % 128 == r
  {
  }

  lemma Rest64(x: nat, q: nat, r: nat)
    requires x == 64 * q + r && r < 64
    ensures x % 64 == r
  {
  }

  // ----- byte order ---------------------------------------------------------

  /** REVERSE64. */
  function Reverse64(w: bv64): bv64 {
    var tmp := (w >> 32) | (w << 32);
    var tmp := ((tmp & 0xFF00FF00FF00FF00) >> 8) | ((tmp & 0x00FF00FF00FF00FF) << 8);
    ((tmp & 0xFFFF0000FFFF0000) >> 16) | ((tmp & 0x0000FFFF0000FFFF) << 16)
  }

  /** A 64-bit word as a little-endian host stores it. */
  function Native64(x: bv64): (s: seq<bv8>)
    ensures |s| == 8
  {
    [(x & 0xFF) as bv8, ((x >> 8) & 0xFF) as bv8, ((x >> 16) & 0xFF) as bv8, ((x >> 24) & 0xFF) as bv8,
     ((x >> 32) & 0xFF) as bv8, ((x >> 40) & 0xFF) as bv8, ((x >> 48) & 0xFF) as bv8, (x >> 56) as bv8]
  }

  /** The reversed word, stored by the host, is the big-endian form that section 5.1 of FIPS 180-4 asks for. */
  lemma ReversedIsBigEndian(x: bv64)
    ensures Native64(Reverse64(x)) == Bytes64(x)
  {
  }

  // ----- the length that is hashed ------------------------------------------

  function EightBytes(a: bv8, b: bv8, c: bv8, d: bv8, e: bv8, f: bv8, g: bv8, h: bv8): bv64 {
    (a as bv64 << 56) | (b as bv64 << 48) | (c as bv64 << 40) | (d as bv64 << 32)
    | (e as bv64 << 24) | (f as bv64 << 16) | (g as bv64 << 8) | h as bv64
  }

  /** The number of eight bytes, big end first. */
  function BigWord(b: seq<bv8>): bv64
    requires |b| == 8
  {
    EightBytes(b[0], b[1], b[2], b[3], b[4], b[5], b[6], b[7])
  }

  /** Little end first. */
  function LittleWord(b: seq<bv8>): bv64
    requires |b| == 8
  {
    EightBytes(b[7], b[6], b[5], b[4], b[3], b[2], b[1], b[0])
  }

  lemma EightBytesAre(x: bv64)
    ensures EightBytes((x >> 56) as bv8, ((x >> 48) & 0xFF) as bv8, ((x >> 40) & 0xFF) as bv8, ((x >> 32) & 0xFF) as bv8,
                   ((x >> 24) & 0xFF) as bv8, ((x >> 16) & 0xFF) as bv8, ((x >> 8) & 0xFF) as bv8, (x & 0xFF) as bv8) == x
  {
  }

  /** The bytes of a word are its number in either order. */
  lemma BytesOfWord(x: bv64)
    ensures BigWord(Bytes64(x)) == x && LittleWord(Native64(x)) == x
  {
    EightBytesAre(x);
    hide EightBytes;
  }

  /** The padding ends with the length of the message in bits, big end first: 8 bytes behind blocks of 64 bytes,
      16 behind blocks of 128. */
  lemma LengthField<W>(o: Ops<W>, length: nat)
    ensures var b := LengthBytes(o, length);
      |b| == (if o.wide then 16 else 8) && BigWord(b[|b| - 8..]) == (length * 8 % 0x1_0000_0000_0000_0000) as bv64
    ensures var b := LengthBytes(o, length);
      o.wide ==> BigWord(b[..8]) == (length * 8 / 0x1_0000_0000_0000_0000 % 0x1_0000_0000_0000_0000) as bv64
  {
    var high, low := Word64(length * 8 / TWO64), Word64(length * 8);
    BytesOfWord(high);
    BytesOfWord(low);
    hide BigWord, Bytes64;
    assert (Bytes64(high) + Bytes64(low))[8..] == Bytes64(low) && (Bytes64(high) + Bytes64(low))[..8] == Bytes64(high);
  }
}
