/** The hash of FIPS 180-4, sections 5 and 6, over any word size, and what the code relies on in
    its word operations. SHA-256 and SHA-512 are the two instances. */
module Sha2 {
  /** The parts in which the hashes of the family differ. `wide` tells 64-bit words from 32-bit words. */
  datatype Ops<!W> = Ops(
    wide: bool, rounds: nat, k: nat -> W, add: (W, W) -> W,
    bigSigma0: W -> W, bigSigma1: W -> W, sigma0: W -> W, sigma1: W -> W, ch: (W, W, W) -> W, maj: (W, W, W) -> W,
    loadBE: seq<bv8> -> W, storeBE: W -> seq<bv8>, loadNative: seq<bv8> -> W, storeNative: W -> seq<bv8>, reverse: W -> W)

  /** Bytes of `i` words. */
  function Off<W>(o: Ops<W>, i: nat): nat {
    if o.wide then 8 * i else 4 * i
  }

  function BlockLength<W>(o: Ops<W>): (n: nat)
    ensures n == 64 || n == 128
  {
    if o.wide then 128 else 64
  }

  ghost predicate IsCommutative<W(!new)>(o: Ops<W>) {
    forall x, y :: o.add(x, y) == o.add(y, x)
  }

  ghost predicate IsAssociative<W(!new)>(o: Ops<W>) {
    forall x, y, z :: o.add(o.add(x, y), z) == o.add(x, o.add(y, z))
  }

  ghost predicate AddLaws<W(!new)>(o: Ops<W>) {
    IsCommutative(o) && IsAssociative(o)
  }

  ghost predicate StoreLaws<W(!new)>(o: Ops<W>) {
    && (forall w :: |o.storeNative(w)| == Off(o, 1) && o.loadNative(o.storeNative(w)) == w)
    && (forall w :: o.storeNative(o.reverse(w)) == o.storeBE(w))
  }

  /** Addition is commutative and associative, a word that is stored is loaded again, and reversing
      the bytes of a word before a native store gives the big-endian form. */
  ghost predicate Lawful<W(!new)>(o: Ops<W>) {
    o.rounds >= 16 && o.rounds % 16 == 0 && AddLaws(o) && StoreLaws(o)
  }

  lemma Commutes<W(!new)>(o: Ops<W>, x: W, y: W)
    requires Lawful(o)
    ensures o.add(x, y) == o.add(y, x)
  {
  }

  lemma Associates<W(!new)>(o: Ops<W>, x: W, y: W, z: W)
    requires Lawful(o)
    ensures o.add(o.add(x, y), z) == o.add(x, o.add(y, z))
  {
  }

  // ----- sections 6.2.2 and 6.4.2: one block --------------------------------

  datatype Regs<W> = Regs(a: W, b: W, c: W, d: W, e: W, f: W, g: W, h: W)

  /** The message schedule. */
  function Schedule<W>(o: Ops<W>, block: seq<bv8>, t: nat): W
    requires |block| == BlockLength(o)
  {
    if t < 16 then o.loadBE(block[Off(o, t)..Off(o, t + 1)])
    else
      o.add(o.add(o.add(o.sigma1(Schedule(o, block, t - 2)), Schedule(o, block, t - 7)),
                  o.sigma0(Schedule(o, block, t - 15))), Schedule(o, block, t - 16))
  }

  function T1<W>(o: Ops<W>, r: Regs<W>, k: W, w: W): W {
    o.add(o.add(o.add(o.add(r.h, o.bigSigma1(r.e)), o.ch(r.e, r.f, r.g)), k), w)
  }

  function T2<W>(o: Ops<W>, r: Regs<W>): W {
    o.add(o.bigSigma0(r.a), o.maj(r.a, r.b, r.c))
  }

  function Round<W>(o: Ops<W>, r: Regs<W>, k: W, w: W): Regs<W> {
    var t1 := T1(o, r, k, w);
    Regs(o.add(t1, T2(o, r)), r.a, r.b, r.c, o.add(r.d, t1), r.e, r.f, r.g)
  }

  /** The working variables after `t` rounds. */
  function Rounds<W>(o: Ops<W>, h: Regs<W>, block: seq<bv8>, t: nat): Regs<W>
    requires |block| == BlockLength(o)
  {
    if t == 0 then h else Round(o, Rounds(o, h, block, t - 1), o.k(t - 1), Schedule(o, block, t - 1))
  }

  function AddRegs<W>(o: Ops<W>, h: Regs<W>, r: Regs<W>): Regs<W> {
    Regs(o.add(r.a, h.a), o.add(r.b, h.b), o.add(r.c, h.c), o.add(r.d, h.d),
         o.add(r.e, h.e), o.add(r.f, h.f), o.add(r.g, h.g), o.add(r.h, h.h))
  }

  function Compress<W>(o: Ops<W>, h: Regs<W>, block: seq<bv8>): Regs<W>
    requires |block| == BlockLength(o)
  {
    AddRegs(o, h, Rounds(o, h, block, o.rounds))
  }

  // ----- section 5.1: padding -----------------------------------------------

  const TWO64: nat := 0x1_0000_0000_0000_0000

  function Zeros(n: nat): (s: seq<bv8>)
    ensures |s| == n
  {
    seq(n, _ => 0)
  }

  /** A 64-bit number, big end first. */
  function Bytes64(x: bv64): (s: seq<bv8>)
    ensures |s| == 8
  {
    [(x >> 56) as bv8, ((x >> 48) & 0xFF) as bv8, ((x >> 40) & 0xFF) as bv8, ((x >> 32) & 0xFF) as bv8,
     ((x >> 24) & 0xFF) as bv8, ((x >> 16) & 0xFF) as bv8, ((x >> 8) & 0xFF) as bv8, (x & 0xFF) as bv8]
  }

  function Word64(n: nat): bv64 {
    (n % TWO64) as bv64
  }

  function ShortBlock<W>(o: Ops<W>): nat {
    if o.wide then 112 else 56
  }

  /** The length in bits: 64 bits of it behind 64-byte blocks, 128 bits behind 128-byte blocks. */
  function LengthBytes<W>(o: Ops<W>, length: nat): (s: seq<bv8>)
    ensures |s| == BlockLength(o) - ShortBlock(o)
  {
    if o.wide then Bytes64(Word64(length * 8 / TWO64)) + Bytes64(Word64(length * 8)) else Bytes64(Word64(length * 8))
  }

  lemma UsedAgain(length: nat, n: nat, more: nat)
    requires n == 64 || n == 128
    ensures (length + more) % n == (length % n + more) % n
  {
    var q, r := length / n, length % n;
    assert length == q * n + r;
    if n == 64 {
      assert (length + more) % 64 == (r + more) % 64;
    } else {
      assert (length + more) % 128 == (r + more) % 128;
    }
  }

  /** The least number of zero bytes that leaves just the room for the length. */
  function PadZeros<W>(o: Ops<W>, length: nat): (z: nat)
    ensures (length + 1 + z) % BlockLength(o) == ShortBlock(o) && z < BlockLength(o)
  {
    var used := length % BlockLength(o);
    UsedAgain(length, BlockLength(o), 1 + if used + 1 <= ShortBlock(o) then ShortBlock(o) - used - 1 else BlockLength(o) + ShortBlock(o) - used - 1);
    if used + 1 <= ShortBlock(o) then ShortBlock(o) - used - 1 else BlockLength(o) + ShortBlock(o) - used - 1
  }

  function Pad<W>(o: Ops<W>, m: seq<bv8>): seq<bv8> {
    m + [0x80] + Zeros(PadZeros(o, |m|)) + LengthBytes(o, |m|)
  }

  // ----- section 6: the hash of a message -----------------------------------

  /** All whole blocks of the data, one after the other. */
  function Absorb<W>(o: Ops<W>, h: Regs<W>, data: seq<bv8>): Regs<W>
    decreases |data|
  {
    var n := BlockLength(o);
    if |data| < n then h else Absorb(o, Compress(o, h, data[..n]), data[n..])
  }

  function Words<W>(r: Regs<W>): (s: seq<W>)
    ensures |s| == 8
  {
    [r.a, r.b, r.c, r.d, r.e, r.f, r.g, r.h]
  }

  /** Words in big-endian form. */
  function BigEndian<W>(o: Ops<W>, words: seq<W>): seq<bv8> {
    if words == [] then [] else o.storeBE(words[0]) + BigEndian(o, words[1..])
  }

  /** The hash: the first `n` words of the state after the padded message. */
  function Hash<W>(o: Ops<W>, initial: Regs<W>, n: nat, m: seq<bv8>): seq<bv8>
    requires n <= 8
  {
    BigEndian(o, Words(Absorb(o, initial, Pad(o, m)))[..n])
  }

  /** The padded message is a whole number of blocks. */
  lemma PadLength<W>(o: Ops<W>, m: seq<bv8>)
    ensures |Pad(o, m)| % BlockLength(o) == 0
  {
    hide LengthBytes;
    var z := PadZeros(o, |m|);
    assert |Pad(o, m)| == |m| + 1 + z + (BlockLength(o) - ShortBlock(o));
  }

  /** Whole blocks can be absorbed in any number of portions. */
  lemma {:induction false} AbsorbConcat<W>(o: Ops<W>, h: Regs<W>, x: seq<bv8>, y: seq<bv8>)
    requires |x| % BlockLength(o) == 0
    ensures Absorb(o, h, x + y) == Absorb(o, Absorb(o, h, x), y)
    decreases |x|
  {
    hide Compress;
    var n := BlockLength(o);
    if |x| == 0 {
      assert x + y == y;
    } else {
      assert |x| >= n && |x[n..]| % n == 0;
      assert (x + y)[..n] == x[..n] && (x + y)[n..] == x[n..] + y;
      AbsorbConcat(o, Compress(o, h, x[..n]), x[n..], y);
    }
  }

  lemma AbsorbBlock<W>(o: Ops<W>, h: Regs<W>, block: seq<bv8>)
    requires |block| == BlockLength(o)
    ensures Absorb(o, h, block) == Compress(o, h, block)
  {
    assert block[..BlockLength(o)] == block && block[BlockLength(o)..] == [];
    hide Compress;
  }
}
