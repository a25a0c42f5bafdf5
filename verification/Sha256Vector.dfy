/** The word functions of SHA-256 as rotations, its constants as roots of primes, and the digest of "abc"
    that FIPS 180-4 publishes with an example: word by word and round by round, in literals. */
module Sha256Vector {
  import opened Sha2
  import opened Sha2Count
  import opened Sha2Stream
  import opened Sha2Words

  // ----- the word functions -------------------------------------------------

  function Xor3(a: bv32, b: bv32, c: bv32): bv32 { a ^ b ^ c }

  lemma Rotations(x: bv32)
    ensures S32(2, x) == x.RotateRight(2) && S32(13, x) == x.RotateRight(13) && S32(22, x) == x.RotateRight(22)
    ensures S32(6, x) == x.RotateRight(6) && S32(11, x) == x.RotateRight(11) && S32(25, x) == x.RotateRight(25)
    ensures S32(7, x) == x.RotateRight(7) && S32(18, x) == x.RotateRight(18)
    ensures S32(17, x) == x.RotateRight(17) && S32(19, x) == x.RotateRight(19)
  {
  }

  lemma BigSigma0Is(x: bv32)
    ensures BigSigma0_256(x) == Xor3(S32(2, x), S32(13, x), S32(22, x))
  {
    hide S32;
  }

  lemma BigSigma1Is(x: bv32)
    ensures BigSigma1_256(x) == Xor3(S32(6, x), S32(11, x), S32(25, x))
  {
    hide S32;
  }

  lemma Sigma0Is(x: bv32)
    ensures Sigma0_256(x) == Xor3(S32(7, x), S32(18, x), (x >> 3))
  {
    hide S32;
  }

  lemma Sigma1Is(x: bv32)
    ensures Sigma1_256(x) == Xor3(S32(17, x), S32(19, x), (x >> 10))
  {
    hide S32;
  }

  lemma Rotated(x: bv32)
    ensures BigSigma0_256(x) == Xor3(x.RotateRight(2), x.RotateRight(13), x.RotateRight(22))
    ensures BigSigma1_256(x) == Xor3(x.RotateRight(6), x.RotateRight(11), x.RotateRight(25))
    ensures Sigma0_256(x) == Xor3(x.RotateRight(7), x.RotateRight(18), (x >> 3))
    ensures Sigma1_256(x) == Xor3(x.RotateRight(17), x.RotateRight(19), (x >> 10))
  {
    hide S32, Xor3, BigSigma0_256, BigSigma1_256, Sigma0_256, Sigma1_256;
    BigSigma0Is(x);
    BigSigma1Is(x);
    Sigma0Is(x);
    Sigma1Is(x);
    Rotations(x);
  }

  /** The four functions of section 4.1.2 of FIPS 180-4. */
  lemma SigmasAre(x: bv32)
    ensures BigSigma0_256(x) == x.RotateRight(2) ^ x.RotateRight(13) ^ x.RotateRight(22)
    ensures BigSigma1_256(x) == x.RotateRight(6) ^ x.RotateRight(11) ^ x.RotateRight(25)
    ensures Sigma0_256(x) == x.RotateRight(7) ^ x.RotateRight(18) ^ (x >> 3)
    ensures Sigma1_256(x) == x.RotateRight(17) ^ x.RotateRight(19) ^ (x >> 10)
  {
    hide S32, BigSigma0_256, BigSigma1_256, Sigma0_256, Sigma1_256;
    Rotated(x);
  }

  // ----- the constants ------------------------------------------------------

  /** The first 32 bits behind the point of the cube root of `p`, whose integer part is `q`. */
  predicate IsCubeRoot(k: bv32, p: nat, q: nat) {
    var n := q * 0x1_00000000 + k as nat;
    n * n * n <= p * 0x1_00000000_00000000_00000000 < (n + 1) * (n + 1) * (n + 1)
  }

  predicate IsSquareRoot(k: bv32, p: nat, q: nat) {
    var n := q * 0x1_00000000 + k as nat;
    n * n <= p * 0x1_00000000_00000000 < (n + 1) * (n + 1)
  }

  function PrimeRow0(t: nat): nat {
    match t case 0 => 2 case 1 => 3 case 2 => 5 case 3 => 7 case 4 => 11 case 5 => 13 case 6 => 17 case 7 => 19
    case 8 => 23 case 9 => 29 case 10 => 31 case 11 => 37 case 12 => 41 case 13 => 43 case 14 => 47 case _ => 53
  }

  function PrimeRow1(t: nat): nat {
    match t case 16 => 59 case 17 => 61 case 18 => 67 case 19 => 71 case 20 => 73 case 21 => 79 case 22 => 83 case 23 => 89
    case 24 => 97 case 25 => 101 case 26 => 103 case 27 => 107 case 28 => 109 case 29 => 113 case 30 => 127 case _ => 131
  }

  function PrimeRow2(t: nat): nat {
    match t case 32 => 137 case 33 => 139 case 34 => 149 case 35 => 151 case 36 => 157 case 37 => 163 case 38 => 167 case 39 => 173
    case 40 => 179 case 41 => 181 case 42 => 191 case 43 => 193 case 44 => 197 case 45 => 199 case 46 => 211 case _ => 223
  }

  function PrimeRow3(t: nat): nat {
    match t case 48 => 227 case 49 => 229 case 50 => 233 case 51 => 239 case 52 => 241 case 53 => 251 case 54 => 257 case 55 => 263
    case 56 => 269 case 57 => 271 case 58 => 277 case 59 => 281 case 60 => 283 case 61 => 293 case 62 => 307 case _ => 311
  }

  /** The first 64 primes. */
  function Prime(t: nat): nat {
    if t < 16 then PrimeRow0(t) else if t < 32 then PrimeRow1(t) else if t < 48 then PrimeRow2(t) else PrimeRow3(t)
  }

  ghost predicate HasCubeRoot(t: nat) {
    exists q: nat :: IsCubeRoot(K256At(t), Prime(t), q)
  }

  lemma Root(t: nat, p: nat, q: nat)
    requires IsCubeRoot(K256At(t), p, q) && Prime(t) == p
    ensures HasCubeRoot(t)
  {
    hide IsCubeRoot;
  }

  lemma CubeRoots0()
    ensures HasCubeRoot(0) && HasCubeRoot(1) && HasCubeRoot(2) && HasCubeRoot(3)
  {
    hide HasCubeRoot;
    Root(0, 2, 1);
    Root(1, 3, 1);
    Root(2, 5, 1);
    Root(3, 7, 1);
  }

  lemma CubeRoots4()
    ensures HasCubeRoot(4) && HasCubeRoot(5) && HasCubeRoot(6) && HasCubeRoot(7)
  {
    hide HasCubeRoot;
    Root(4, 11, 2);
    Root(5, 13, 2);
    Root(6, 17, 2);
    Root(7, 19, 2);
  }

  lemma CubeRoots8()
    ensures HasCubeRoot(8) && HasCubeRoot(9) && HasCubeRoot(10) && HasCubeRoot(11)
  {
    hide HasCubeRoot;
    Root(8, 23, 2);
    Root(9, 29, 3);
    Root(10, 31, 3);
    Root(11, 37, 3);
  }

  lemma CubeRoots12()
    ensures HasCubeRoot(12) && HasCubeRoot(13) && HasCubeRoot(14) && HasCubeRoot(15)
  {
    hide HasCubeRoot;
    Root(12, 41, 3);
    Root(13, 43, 3);
    Root(14, 47, 3);
    Root(15, 53, 3);
  }

  lemma CubeRoots16()
    ensures HasCubeRoot(16) && HasCubeRoot(17) && HasCubeRoot(18) && HasCubeRoot(19)
  {
    hide HasCubeRoot;
    Root(16, 59, 3);
    Root(17, 61, 3);
    Root(18, 67, 4);
    Root(19, 71, 4);
  }

  lemma CubeRoots20()
    ensures HasCubeRoot(20) && HasCubeRoot(21) && HasCubeRoot(22) && HasCubeRoot(23)
  {
    hide HasCubeRoot;
    Root(20, 73, 4);
    Root(21, 79, 4);
    Root(22, 83, 4);
    Root(23, 89, 4);
  }

  lemma CubeRoots24()
    ensures HasCubeRoot(24) && HasCubeRoot(25) && HasCubeRoot(26) && HasCubeRoot(27)
  {
    hide HasCubeRoot;
    Root(24, 97, 4);
    Root(25, 101, 4);
    Root(26, 103, 4);
    Root(27, 107, 4);
  }

  lemma CubeRoots28()
    ensures HasCubeRoot(28) && HasCubeRoot(29) && HasCubeRoot(30) && HasCubeRoot(31)
  {
    hide HasCubeRoot;
    Root(28, 109, 4);
    Root(29, 113, 4);
    Root(30, 127, 5);
    Root(31, 131, 5);
  }

  lemma CubeRoots32()
    ensures HasCubeRoot(32) && HasCubeRoot(33) && HasCubeRoot(34) && HasCubeRoot(35)
  {
    hide HasCubeRoot;
    Root(32, 137, 5);
    Root(33, 139, 5);
    Root(34, 149, 5);
    Root(35, 151, 5);
  }

  lemma CubeRoots36()
    ensures HasCubeRoot(36) && HasCubeRoot(37) && HasCubeRoot(38) && HasCubeRoot(39)
  {
    hide HasCubeRoot;
    Root(36, 157, 5);
    Root(37, 163, 5);
    Root(38, 167, 5);
    Root(39, 173, 5);
  }

  lemma CubeRoots40()
    ensures HasCubeRoot(40) && HasCubeRoot(41) && HasCubeRoot(42) && HasCubeRoot(43)
  {
    hide HasCubeRoot;
    Root(40, 179, 5);
    Root(41, 181, 5);
    Root(42, 191, 5);
    Root(43, 193, 5);
  }

  lemma CubeRoots44()
    ensures HasCubeRoot(44) && HasCubeRoot(45) && HasCubeRoot(46) && HasCubeRoot(47)
  {
    hide HasCubeRoot;
    Root(44, 197, 5);
    Root(45, 199, 5);
    Root(46, 211, 5);
    Root(47, 223, 6);
  }

  lemma CubeRoots48()
    ensures HasCubeRoot(48) && HasCubeRoot(49) && HasCubeRoot(50) && HasCubeRoot(51)
  {
    hide HasCubeRoot;
    Root(48, 227, 6);
    Root(49, 229, 6);
    Root(50, 233, 6);
    Root(51, 239, 6);
  }

  lemma CubeRoots52()
    ensures HasCubeRoot(52) && HasCubeRoot(53) && HasCubeRoot(54) && HasCubeRoot(55)
  {
    hide HasCubeRoot;
    Root(52, 241, 6);
    Root(53, 251, 6);
    Root(54, 257, 6);
    Root(55, 263, 6);
  }

  lemma CubeRoots56()
    ensures HasCubeRoot(56) && HasCubeRoot(57) && HasCubeRoot(58) && HasCubeRoot(59)
  {
    hide HasCubeRoot;
    Root(56, 269, 6);
    Root(57, 271, 6);
    Root(58, 277, 6);
    Root(59, 281, 6);
  }

  lemma CubeRoots60()
    ensures HasCubeRoot(60) && HasCubeRoot(61) && HasCubeRoot(62) && HasCubeRoot(63)
  {
    hide HasCubeRoot;
    Root(60, 283, 6);
    Root(61, 293, 6);
    Root(62, 307, 6);
    Root(63, 311, 6);
  }

  lemma CubeRootsFrom0(t: nat)
    requires 0 <= t < 16
    ensures HasCubeRoot(t)
  {
    hide HasCubeRoot;
    CubeRoots0();
    CubeRoots4();
    CubeRoots8();
    CubeRoots12();
  }

  lemma CubeRootsFrom16(t: nat)
    requires 16 <= t < 32
    ensures HasCubeRoot(t)
  {
    hide HasCubeRoot;
    CubeRoots16();
    CubeRoots20();
    CubeRoots24();
    CubeRoots28();
  }

  lemma CubeRootsFrom32(t: nat)
    requires 32 <= t < 48
    ensures HasCubeRoot(t)
  {
    hide HasCubeRoot;
    CubeRoots32();
    CubeRoots36();
    CubeRoots40();
    CubeRoots44();
  }

  lemma CubeRootsFrom48(t: nat)
    requires 48 <= t < 64
    ensures HasCubeRoot(t)
  {
    hide HasCubeRoot;
    CubeRoots48();
    CubeRoots52();
    CubeRoots56();
    CubeRoots60();
  }

  /** The round constants are the first bits of the cube roots of the first 64 primes. */
  lemma ConstantsAreCubeRoots(t: nat)
    requires t < 64
    ensures HasCubeRoot(t)
  {
    hide HasCubeRoot;
    if t < 16 { CubeRootsFrom0(t); } else if t < 32 { CubeRootsFrom16(t); } else if t < 48 { CubeRootsFrom32(t); } else { CubeRootsFrom48(t); }
  }

  lemma SquareRoots0()
    ensures IsSquareRoot(INITIAL_256[0], 2, 1) && IsSquareRoot(INITIAL_256[1], 3, 1)
  {
  }

  lemma SquareRoots1()
    ensures IsSquareRoot(INITIAL_256[2], 5, 2) && IsSquareRoot(INITIAL_256[3], 7, 2)
  {
  }

  lemma SquareRoots2()
    ensures IsSquareRoot(INITIAL_256[4], 11, 3) && IsSquareRoot(INITIAL_256[5], 13, 3)
  {
  }

  lemma SquareRoots3()
    ensures IsSquareRoot(INITIAL_256[6], 17, 4) && IsSquareRoot(INITIAL_256[7], 19, 4)
  {
  }

  /** The initial values are those of the square roots of the first eight primes. */
  lemma InitialsAreSquareRoots()
    ensures IsSquareRoot(INITIAL_256[0], 2, 1) && IsSquareRoot(INITIAL_256[1], 3, 1) && IsSquareRoot(INITIAL_256[2], 5, 2) && IsSquareRoot(INITIAL_256[3], 7, 2)
    ensures IsSquareRoot(INITIAL_256[4], 11, 3) && IsSquareRoot(INITIAL_256[5], 13, 3) && IsSquareRoot(INITIAL_256[6], 17, 4) && IsSquareRoot(INITIAL_256[7], 19, 4)
  {
    hide IsSquareRoot;
    SquareRoots0();
    SquareRoots1();
    SquareRoots2();
    SquareRoots3();
  }

  // ----- "abc" --------------------------------------------------------------

  /** The one block of the padded message. */
  predicate IsBlock(b: seq<bv8>) {
    && |b| == 64 && b[0] == 0x61 && b[1] == 0x62 && b[2] == 0x63 && b[3] == 0x80 && b[63] == 0x18
    && forall i :: 4 <= i < 63 ==> b[i] == 0
  }

  lemma AbcIsPadded()
    ensures IsBlock(Pad(Ops256, [0x61, 0x62, 0x63]))
  {
    var m: seq<bv8> := [0x61, 0x62, 0x63];
    LengthOfAbc();
    assert PadZeros(Ops256, 3) == 52;
    hide LengthBytes, PadZeros;
  }

  lemma LengthOfAbc()
    ensures |LengthBytes(Ops256, 3)| == 8 && LengthBytes(Ops256, 3)[7] == 0x18 && forall i :: 0 <= i < 7 ==> LengthBytes(Ops256, 3)[i] == 0
  {
    assert Word64(24) == 24 && Word64(0) == 0;
    assert Bytes64(24) == [0, 0, 0, 0, 0, 0, 0, 0x18] && Bytes64(0) == [0, 0, 0, 0, 0, 0, 0, 0];
    hide Bytes64, Word64;
  }

  lemma WordOfBlock(b: seq<bv8>, t: nat)
    requires IsBlock(b) && t < 16
    ensures Schedule(Ops256, b, t) == if t == 0 then 0x61626380 else if t == 15 then 0x00000018 else 0
  {
    var s := b[4 * t..4 * t + 4];
    assert forall i :: 0 <= i < 4 ==> s[i] == b[4 * t + i];
    LoadsAre();
    hide LoadBE32;
    if 0 < t < 15 { assert s == [0, 0, 0, 0]; }
    if t == 0 { assert s == [0x61, 0x62, 0x63, 0x80]; }
    if t == 15 { assert s == [0, 0, 0, 0x18]; }
  }

  lemma LoadsAre()
    ensures LoadBE32([0, 0, 0, 0]) == 0
    ensures LoadBE32([0x61, 0x62, 0x63, 0x80]) == 0x61626380 && LoadBE32([0, 0, 0, 0x18]) == 0x00000018
  {
  }

  // The same with rotations, for literals.

  function RotBig0(x: bv32): bv32 { x.RotateRight(2) ^ x.RotateRight(13) ^ x.RotateRight(22) }

  function RotBig1(x: bv32): bv32 { x.RotateRight(6) ^ x.RotateRight(11) ^ x.RotateRight(25) }

  function Rot0(x: bv32): bv32 { x.RotateRight(7) ^ x.RotateRight(18) ^ (x >> 3) }

  function Rot1(x: bv32): bv32 { x.RotateRight(17) ^ x.RotateRight(19) ^ (x >> 10) }

  function NextRegs(r: Regs<bv32>, k: bv32, w: bv32): Regs<bv32> {
    var t1 := Add32(Add32(Add32(Add32(r.h, RotBig1(r.e)), Ch32(r.e, r.f, r.g)), k), w);
    Regs(Add32(t1, Add32(RotBig0(r.a), Maj32(r.a, r.b, r.c))), r.a, r.b, r.c, Add32(r.d, t1), r.e, r.f, r.g)
  }

  function NextWord(w2: bv32, w7: bv32, w15: bv32, w16: bv32): bv32 {
    Add32(Add32(Add32(Rot1(w2), w7), Rot0(w15)), w16)
  }

  lemma RotsAre(x: bv32)
    ensures BigSigma0_256(x) == RotBig0(x) && BigSigma1_256(x) == RotBig1(x) && Sigma0_256(x) == Rot0(x) && Sigma1_256(x) == Rot1(x)
  {
    hide BigSigma0_256, BigSigma1_256, Sigma0_256, Sigma1_256;
    SigmasAre(x);
  }

  lemma RoundIs(r: Regs<bv32>, k: bv32, w: bv32)
    ensures Round(Ops256, r, k, w) == NextRegs(r, k, w)
  {
    hide BigSigma0_256, BigSigma1_256, RotBig0, RotBig1, Add32, Ch32, Maj32;
    RotsAre(r.a);
    RotsAre(r.e);
  }

  lemma Word(b: seq<bv8>, t: nat, w2: bv32, w7: bv32, w15: bv32, w16: bv32, w: bv32)
    requires IsBlock(b) && t >= 16 && Schedule(Ops256, b, t - 2) == w2 && Schedule(Ops256, b, t - 7) == w7
    requires Schedule(Ops256, b, t - 15) == w15 && Schedule(Ops256, b, t - 16) == w16 && NextWord(w2, w7, w15, w16) == w
    ensures Schedule(Ops256, b, t) == w
  {
    hide Sigma0_256, Sigma1_256, Rot0, Rot1, LoadBE32, Add32;
    RotsAre(w2);
    RotsAre(w15);
  }

  lemma WordsFrom0(b: seq<bv8>)
    requires IsBlock(b)
    ensures Schedule(Ops256, b, 0) == 0x61626380 && Schedule(Ops256, b, 1) == 0x00000000 && Schedule(Ops256, b, 2) == 0x00000000 && Schedule(Ops256, b, 3) == 0x00000000
    ensures Schedule(Ops256, b, 4) == 0x00000000 && Schedule(Ops256, b, 5) == 0x00000000 && Schedule(Ops256, b, 6) == 0x00000000 && Schedule(Ops256, b, 7) == 0x00000000
  {
    hide Schedule, IsBlock;
    WordOfBlock(b, 0);
    WordOfBlock(b, 1);
    WordOfBlock(b, 2);
    WordOfBlock(b, 3);
    WordOfBlock(b, 4);
    WordOfBlock(b, 5);
    WordOfBlock(b, 6);
    WordOfBlock(b, 7);
  }

  lemma WordsFrom8(b: seq<bv8>)
    requires IsBlock(b)
    ensures Schedule(Ops256, b, 8) == 0x00000000 && Schedule(Ops256, b, 9) == 0x00000000 && Schedule(Ops256, b, 10) == 0x00000000 && Schedule(Ops256, b, 11) == 0x00000000
    ensures Schedule(Ops256, b, 12) == 0x00000000 && Schedule(Ops256, b, 13) == 0x00000000 && Schedule(Ops256, b, 14) == 0x00000000 && Schedule(Ops256, b, 15) == 0x00000018
  {
    hide Schedule, IsBlock;
    WordOfBlock(b, 8);
    WordOfBlock(b, 9);
    WordOfBlock(b, 10);
    WordOfBlock(b, 11);
    WordOfBlock(b, 12);
    WordOfBlock(b, 13);
    WordOfBlock(b, 14);
    WordOfBlock(b, 15);
  }

  lemma WordsFrom16(b: seq<bv8>)
    requires IsBlock(b)
    ensures Schedule(Ops256, b, 16) == 0x61626380 && Schedule(Ops256, b, 17) == 0x000f0000 && Schedule(Ops256, b, 18) == 0x7da86405 && Schedule(Ops256, b, 19) == 0x600003c6
    ensures Schedule(Ops256, b, 20) == 0x3e9d7b78 && Schedule(Ops256, b, 21) == 0x0183fc00 && Schedule(Ops256, b, 22) == 0x12dcbfdb && Schedule(Ops256, b, 23) == 0xe2e2c38e
  {
    hide Schedule, IsBlock;
    WordsFrom0(b);
    WordsFrom8(b);
    Word(b, 16, 0x00000000, 0x00000000, 0x00000000, 0x61626380, 0x61626380);
    Word(b, 17, 0x00000018, 0x00000000, 0x00000000, 0x00000000, 0x000f0000);
    Word(b, 18, 0x61626380, 0x00000000, 0x00000000, 0x00000000, 0x7da86405);
    Word(b, 19, 0x000f0000, 0x00000000, 0x00000000, 0x00000000, 0x600003c6);
    Word(b, 20, 0x7da86405, 0x00000000, 0x00000000, 0x00000000, 0x3e9d7b78);
    Word(b, 21, 0x600003c6, 0x00000000, 0x00000000, 0x00000000, 0x0183fc00);
    Word(b, 22, 0x3e9d7b78, 0x00000018, 0x00000000, 0x00000000, 0x12dcbfdb);
    Word(b, 23, 0x0183fc00, 0x61626380, 0x00000000, 0x00000000, 0xe2e2c38e);
  }

  lemma WordsFrom24(b: seq<bv8>)
    requires IsBlock(b)
    ensures Schedule(Ops256, b, 24) == 0xc8215c1a && Schedule(Ops256, b, 25) == 0xb73679a2 && Schedule(Ops256, b, 26) == 0xe5bc3909 && Schedule(Ops256, b, 27) == 0x32663c5b
    ensures Schedule(Ops256, b, 28) == 0x9d209d67 && Schedule(Ops256, b, 29) == 0xec8726cb && Schedule(Ops256, b, 30) == 0x702138a4 && Schedule(Ops256, b, 31) == 0xd3b7973b
  {
    hide Schedule, IsBlock;
    WordsFrom8(b);
    WordsFrom16(b);
    Word(b, 24, 0x12dcbfdb, 0x000f0000, 0x00000000, 0x00000000, 0xc8215c1a);
    Word(b, 25, 0xe2e2c38e, 0x7da86405, 0x00000000, 0x00000000, 0xb73679a2);
    Word(b, 26, 0xc8215c1a, 0x600003c6, 0x00000000, 0x00000000, 0xe5bc3909);
    Word(b, 27, 0xb73679a2, 0x3e9d7b78, 0x00000000, 0x00000000, 0x32663c5b);
    Word(b, 28, 0xe5bc3909, 0x0183fc00, 0x00000000, 0x00000000, 0x9d209d67);
    Word(b, 29, 0x32663c5b, 0x12dcbfdb, 0x00000000, 0x00000000, 0xec8726cb);
    Word(b, 30, 0x9d209d67, 0xe2e2c38e, 0x00000018, 0x00000000, 0x702138a4);
    Word(b, 31, 0xec8726cb, 0xc8215c1a, 0x61626380, 0x00000018, 0xd3b7973b);
  }

  lemma WordsFrom32(b: seq<bv8>)
    requires IsBlock(b)
    ensures Schedule(Ops256, b, 32) == 0x93f5997f && Schedule(Ops256, b, 33) == 0x3b68ba73 && Schedule(Ops256, b, 34) == 0xaff4ffc1 && Schedule(Ops256, b, 35) == 0xf10a5c62
    ensures Schedule(Ops256, b, 36) == 0x0a8b3996 && Schedule(Ops256, b, 37) == 0x72af830a && Schedule(Ops256, b, 38) == 0x9409e33e && Schedule(Ops256, b, 39) == 0x24641522
  {
    hide Schedule, IsBlock;
    WordsFrom16(b);
    WordsFrom24(b);
    Word(b, 32, 0x702138a4, 0xb73679a2, 0x000f0000, 0x61626380, 0x93f5997f);
    Word(b, 33, 0xd3b7973b, 0xe5bc3909, 0x7da86405, 0x000f0000, 0x3b68ba73);
    Word(b, 34, 0x93f5997f, 0x32663c5b, 0x600003c6, 0x7da86405, 0xaff4ffc1);
    Word(b, 35, 0x3b68ba73, 0x9d209d67, 0x3e9d7b78, 0x600003c6, 0xf10a5c62);
    Word(b, 36, 0xaff4ffc1, 0xec8726cb, 0x0183fc00, 0x3e9d7b78, 0x0a8b3996);
    Word(b, 37, 0xf10a5c62, 0x702138a4, 0x12dcbfdb, 0x0183fc00, 0x72af830a);
    Word(b, 38, 0x0a8b3996, 0xd3b7973b, 0xe2e2c38e, 0x12dcbfdb, 0x9409e33e);
    Word(b, 39, 0x72af830a, 0x93f5997f, 0xc8215c1a, 0xe2e2c38e, 0x24641522);
  }

  lemma WordsFrom40(b: seq<bv8>)
    requires IsBlock(b)
    ensures Schedule(Ops256, b, 40) == 0x9f47bf94 && Schedule(Ops256, b, 41) == 0xf0a64f5a && Schedule(Ops256, b, 42) == 0x3e246a79 && Schedule(Ops256, b, 43) == 0x27333ba3
    ensures Schedule(Ops256, b, 44) == 0x0c4763f2 && Schedule(Ops256, b, 45) == 0x840abf27 && Schedule(Ops256, b, 46) == 0x7a290d5d && Schedule(Ops256, b, 47) == 0x065c43da
  {
    hide Schedule, IsBlock;
    WordsFrom24(b);
    WordsFrom32(b);
    Word(b, 40, 0x9409e33e, 0x3b68ba73, 0xb73679a2, 0xc8215c1a, 0x9f47bf94);
    Word(b, 41, 0x24641522, 0xaff4ffc1, 0xe5bc3909, 0xb73679a2, 0xf0a64f5a);
    Word(b, 42, 0x9f47bf94, 0xf10a5c62, 0x32663c5b, 0xe5bc3909, 0x3e246a79);
    Word(b, 43, 0xf0a64f5a, 0x0a8b3996, 0x9d209d67, 0x32663c5b, 0x27333ba3);
    Word(b, 44, 0x3e246a79, 0x72af830a, 0xec8726cb, 0x9d209d67, 0x0c4763f2);
    Word(b, 45, 0x27333ba3, 0x9409e33e, 0x702138a4, 0xec8726cb, 0x840abf27);
    Word(b, 46, 0x0c4763f2, 0x24641522, 0xd3b7973b, 0x702138a4, 0x7a290d5d);
    Word(b, 47, 0x840abf27, 0x9f47bf94, 0x93f5997f, 0xd3b7973b, 0x065c43da);
  }

  lemma WordsFrom48(b: seq<bv8>)
    requires IsBlock(b)
    ensures Schedule(Ops256, b, 48) == 0xfb3e89cb && Schedule(Ops256, b, 49) == 0xcc7617db && Schedule(Ops256, b, 50) == 0xb9e66c34 && Schedule(Ops256, b, 51) == 0xa9993667
    ensures Schedule(Ops256, b, 52) == 0x84badedd && Schedule(Ops256, b, 53) == 0xc21462bc && Schedule(Ops256, b, 54) == 0x1487472c && Schedule(Ops256, b, 55) == 0xb20f7a99
  {
    hide Schedule, IsBlock;
    WordsFrom32(b);
    WordsFrom40(b);
    Word(b, 48, 0x7a290d5d, 0xf0a64f5a, 0x3b68ba73, 0x93f5997f, 0xfb3e89cb);
    Word(b, 49, 0x065c43da, 0x3e246a79, 0xaff4ffc1, 0x3b68ba73, 0xcc7617db);
    Word(b, 50, 0xfb3e89cb, 0x27333ba3, 0xf10a5c62, 0xaff4ffc1, 0xb9e66c34);
    Word(b, 51, 0xcc7617db, 0x0c4763f2, 0x0a8b3996, 0xf10a5c62, 0xa9993667);
    Word(b, 52, 0xb9e66c34, 0x840abf27, 0x72af830a, 0x0a8b3996, 0x84badedd);
    Word(b, 53, 0xa9993667, 0x7a290d5d, 0x9409e33e, 0x72af830a, 0xc21462bc);
    Word(b, 54, 0x84badedd, 0x065c43da, 0x24641522, 0x9409e33e, 0x1487472c);
    Word(b, 55, 0xc21462bc, 0xfb3e89cb, 0x9f47bf94, 0x24641522, 0xb20f7a99);
  }

  lemma WordsFrom56(b: seq<bv8>)
    requires IsBlock(b)
    ensures Schedule(Ops256, b, 56) == 0xef57b9cd && Schedule(Ops256, b, 57) == 0xebe6b238 && Schedule(Ops256, b, 58) == 0x9fe3095e && Schedule(Ops256, b, 59) == 0x78bc8d4b
    ensures Schedule(Ops256, b, 60) == 0xa43fcf15 && Schedule(Ops256, b, 61) == 0x668b2ff8 && Schedule(Ops256, b, 62) == 0xeeaba2cc && Schedule(Ops256, b, 63) == 0x12b1edeb
  {
    hide Schedule, IsBlock;
    WordsFrom40(b);
    WordsFrom48(b);
    Word(b, 56, 0x1487472c, 0xcc7617db, 0xf0a64f5a, 0x9f47bf94, 0xef57b9cd);
    Word(b, 57, 0xb20f7a99, 0xb9e66c34, 0x3e246a79, 0xf0a64f5a, 0xebe6b238);
    Word(b, 58, 0xef57b9cd, 0xa9993667, 0x27333ba3, 0x3e246a79, 0x9fe3095e);
    Word(b, 59, 0xebe6b238, 0x84badedd, 0x0c4763f2, 0x27333ba3, 0x78bc8d4b);
    Word(b, 60, 0x9fe3095e, 0xc21462bc, 0x840abf27, 0x0c4763f2, 0xa43fcf15);
    Word(b, 61, 0x78bc8d4b, 0x1487472c, 0x7a290d5d, 0x840abf27, 0x668b2ff8);
    Word(b, 62, 0xa43fcf15, 0xb20f7a99, 0x065c43da, 0x7a290d5d, 0xeeaba2cc);
    Word(b, 63, 0x668b2ff8, 0xef57b9cd, 0xfb3e89cb, 0x065c43da, 0x12b1edeb);
  }

  lemma Turn(h: Regs<bv32>, b: seq<bv8>, t: nat, r: Regs<bv32>, k: bv32, w: bv32, next: Regs<bv32>)
    requires IsBlock(b) && Rounds(Ops256, h, b, t) == r && K256At(t) == k && Schedule(Ops256, b, t) == w
    requires NextRegs(r, k, w) == next
    ensures Rounds(Ops256, h, b, t + 1) == next
  {
    hide Round, NextRegs, Schedule, IsBlock, K256At;
    RoundIs(r, k, w);
  }

  lemma KeysFrom0()
    ensures K256At(0) == 0x428a2f98 && K256At(1) == 0x71374491 && K256At(2) == 0xb5c0fbcf && K256At(3) == 0xe9b5dba5
    ensures K256At(4) == 0x3956c25b && K256At(5) == 0x59f111f1 && K256At(6) == 0x923f82a4 && K256At(7) == 0xab1c5ed5
  {
  }

  lemma KeysFrom8()
    ensures K256At(8) == 0xd807aa98 && K256At(9) == 0x12835b01 && K256At(10) == 0x243185be && K256At(11) == 0x550c7dc3
    ensures K256At(12) == 0x72be5d74 && K256At(13) == 0x80deb1fe && K256At(14) == 0x9bdc06a7 && K256At(15) == 0xc19bf174
  {
  }

  lemma KeysFrom16()
    ensures K256At(16) == 0xe49b69c1 && K256At(17) == 0xefbe4786 && K256At(18) == 0x0fc19dc6 && K256At(19) == 0x240ca1cc
    ensures K256At(20) == 0x2de92c6f && K256At(21) == 0x4a7484aa && K256At(22) == 0x5cb0a9dc && K256At(23) == 0x76f988da
  {
  }

  lemma KeysFrom24()
    ensures K256At(24) == 0x983e5152 && K256At(25) == 0xa831c66d && K256At(26) == 0xb00327c8 && K256At(27) == 0xbf597fc7
    ensures K256At(28) == 0xc6e00bf3 && K256At(29) == 0xd5a79147 && K256At(30) == 0x06ca6351 && K256At(31) == 0x14292967
  {
  }

  lemma KeysFrom32()
    ensures K256At(32) == 0x27b70a85 && K256At(33) == 0x2e1b2138 && K256At(34) == 0x4d2c6dfc && K256At(35) == 0x53380d13
    ensures K256At(36) == 0x650a7354 && K256At(37) == 0x766a0abb && K256At(38) == 0x81c2c92e && K256At(39) == 0x92722c85
  {
  }

  lemma KeysFrom40()
    ensures K256At(40) == 0xa2bfe8a1 && K256At(41) == 0xa81a664b && K256At(42) == 0xc24b8b70 && K256At(43) == 0xc76c51a3
    ensures K256At(44) == 0xd192e819 && K256At(45) == 0xd6990624 && K256At(46) == 0xf40e3585 && K256At(47) == 0x106aa070
  {
  }

  lemma KeysFrom48()
    ensures K256At(48) == 0x19a4c116 && K256At(49) == 0x1e376c08 && K256At(50) == 0x2748774c && K256At(51) == 0x34b0bcb5
    ensures K256At(52) == 0x391c0cb3 && K256At(53) == 0x4ed8aa4a && K256At(54) == 0x5b9cca4f && K256At(55) == 0x682e6ff3
  {
  }

  lemma KeysFrom56()
    ensures K256At(56) == 0x748f82ee && K256At(57) == 0x78a5636f && K256At(58) == 0x84c87814 && K256At(59) == 0x8cc70208
    ensures K256At(60) == 0x90befffa && K256At(61) == 0xa4506ceb && K256At(62) == 0xbef9a3f7 && K256At(63) == 0xc67178f2
  {
  }

  lemma FirstWords8(r: Regs<bv32>)
    ensures BigEndian(Ops256, Words(r)[..8]) ==
      StoreBE32(r.a) + StoreBE32(r.b) + StoreBE32(r.c) + StoreBE32(r.d) + StoreBE32(r.e) + StoreBE32(r.f) + StoreBE32(r.g) + StoreBE32(r.h)
  {
    hide StoreBE32, BigEndian;
    var w := Words(r)[..8];
    OneWord(w[0..]);
    OneWord(w[1..]);
    OneWord(w[2..]);
    OneWord(w[3..]);
    OneWord(w[4..]);
    OneWord(w[5..]);
    OneWord(w[6..]);
    OneWord(w[7..]);
    NoWord();
    assert w[0..] == w && w[8..] == [];
    assert w[0..][1..] == w[1..] && w[0..][0] == r.a;
    assert w[1..][1..] == w[2..] && w[1..][0] == r.b;
    assert w[2..][1..] == w[3..] && w[2..][0] == r.c;
    assert w[3..][1..] == w[4..] && w[3..][0] == r.d;
    assert w[4..][1..] == w[5..] && w[4..][0] == r.e;
    assert w[5..][1..] == w[6..] && w[5..][0] == r.f;
    assert w[6..][1..] == w[7..] && w[6..][0] == r.g;
    assert w[7..][1..] == w[8..] && w[7..][0] == r.h;
    Grouped8(StoreBE32(r.a), StoreBE32(r.b), StoreBE32(r.c), StoreBE32(r.d), StoreBE32(r.e), StoreBE32(r.f), StoreBE32(r.g), StoreBE32(r.h));
  }

  lemma Grouped8(a: seq<bv8>, b: seq<bv8>, c: seq<bv8>, d: seq<bv8>, e: seq<bv8>, f: seq<bv8>, g: seq<bv8>, h: seq<bv8>)
    ensures a + (b + (c + (d + (e + (f + (g + (h + []))))))) == a + b + c + d + e + f + g + h
  {
  }

  lemma NoWord()
    ensures BigEndian(Ops256, []) == []
  {
  }

  lemma BlockLengthOf(b: seq<bv8>)
    requires IsBlock(b)
    ensures |b| == BlockLength(Ops256)
  {
  }

  lemma OneWord(w: seq<bv32>)
    requires w != []
    ensures BigEndian(Ops256, w) == StoreBE32(w[0]) + BigEndian(Ops256, w[1..])
  {
    hide StoreBE32;
  }

  lemma Sha256After0(b: seq<bv8>)
    requires IsBlock(b)
    ensures Rounds(Ops256, FromWords(INITIAL_256), b, 0) ==
      Regs(0x6a09e667, 0xbb67ae85, 0x3c6ef372, 0xa54ff53a, 0x510e527f, 0x9b05688c, 0x1f83d9ab, 0x5be0cd19)
  {
  }

  lemma Sha256After8(b: seq<bv8>)
    requires IsBlock(b)
    ensures Rounds(Ops256, FromWords(INITIAL_256), b, 8) ==
      Regs(0x85a07b5f, 0xe5030380, 0x2b4209f5, 0x04409a6a, 0x0c657a79, 0x9b27a401, 0x714260ad, 0x43ada245)
  {
    hide Schedule, Rounds, IsBlock, K256At;
    KeysFrom0();
    Sha256After0(b);
    WordsFrom0(b);
    var r0 := Regs(0x6a09e667, 0xbb67ae85, 0x3c6ef372, 0xa54ff53a, 0x510e527f, 0x9b05688c, 0x1f83d9ab, 0x5be0cd19);
    var r1 := Regs(0x5d6aebcd, 0x6a09e667, 0xbb67ae85, 0x3c6ef372, 0xfa2a4622, 0x510e527f, 0x9b05688c, 0x1f83d9ab);
    Turn(FromWords(INITIAL_256), b, 0, r0, 0x428a2f98, 0x61626380, r1);
    var r2 := Regs(0x5a6ad9ad, 0x5d6aebcd, 0x6a09e667, 0xbb67ae85, 0x78ce7989, 0xfa2a4622, 0x510e527f, 0x9b05688c);
    Turn(FromWords(INITIAL_256), b, 1, r1, 0x71374491, 0x00000000, r2);
    var r3 := Regs(0xc8c347a7, 0x5a6ad9ad, 0x5d6aebcd, 0x6a09e667, 0xf92939eb, 0x78ce7989, 0xfa2a4622, 0x510e527f);
    Turn(FromWords(INITIAL_256), b, 2, r2, 0xb5c0fbcf, 0x00000000, r3);
    var r4 := Regs(0xd550f666, 0xc8c347a7, 0x5a6ad9ad, 0x5d6aebcd, 0x24e00850, 0xf92939eb, 0x78ce7989, 0xfa2a4622);
    Turn(FromWords(INITIAL_256), b, 3, r3, 0xe9b5dba5, 0x00000000, r4);
    var r5 := Regs(0x04409a6a, 0xd550f666, 0xc8c347a7, 0x5a6ad9ad, 0x43ada245, 0x24e00850, 0xf92939eb, 0x78ce7989);
    Turn(FromWords(INITIAL_256), b, 4, r4, 0x3956c25b, 0x00000000, r5);
    var r6 := Regs(0x2b4209f5, 0x04409a6a, 0xd550f666, 0xc8c347a7, 0x714260ad, 0x43ada245, 0x24e00850, 0xf92939eb);
    Turn(FromWords(INITIAL_256), b, 5, r5, 0x59f111f1, 0x00000000, r6);
    var r7 := Regs(0xe5030380, 0x2b4209f5, 0x04409a6a, 0xd550f666, 0x9b27a401, 0x714260ad, 0x43ada245, 0x24e00850);
    Turn(FromWords(INITIAL_256), b, 6, r6, 0x923f82a4, 0x00000000, r7);
    var r8 := Regs(0x85a07b5f, 0xe5030380, 0x2b4209f5, 0x04409a6a, 0x0c657a79, 0x9b27a401, 0x714260ad, 0x43ada245);
    Turn(FromWords(INITIAL_256), b, 7, r7, 0xab1c5ed5, 0x00000000, r8);
  }

  lemma Sha256After16(b: seq<bv8>)
    requires IsBlock(b)
    ensures Rounds(Ops256, FromWords(INITIAL_256), b, 16) ==
      Regs(0xb0fa238e, 0xc0645fde, 0xd932eb16, 0x87912990, 0x07590dcd, 0x0b92f20c, 0x745a48de, 0x1e578218)
  {
    hide Schedule, Rounds, IsBlock, K256At;
    KeysFrom8();
    Sha256After8(b);
    WordsFrom8(b);
    var r8 := Regs(0x85a07b5f, 0xe5030380, 0x2b4209f5, 0x04409a6a, 0x0c657a79, 0x9b27a401, 0x714260ad, 0x43ada245);
    var r9 := Regs(0x8e04ecb9, 0x85a07b5f, 0xe5030380, 0x2b4209f5, 0x32ca2d8c, 0x0c657a79, 0x9b27a401, 0x714260ad);
    Turn(FromWords(INITIAL_256), b, 8, r8, 0xd807aa98, 0x00000000, r9);
    var r10 := Regs(0x8c87346b, 0x8e04ecb9, 0x85a07b5f, 0xe5030380, 0x1cc92596, 0x32ca2d8c, 0x0c657a79, 0x9b27a401);
    Turn(FromWords(INITIAL_256), b, 9, r9, 0x12835b01, 0x00000000, r10);
    var r11 := Regs(0x4798a3f4, 0x8c87346b, 0x8e04ecb9, 0x85a07b5f, 0x436b23e8, 0x1cc92596, 0x32ca2d8c, 0x0c657a79);
    Turn(FromWords(INITIAL_256), b, 10, r10, 0x243185be, 0x00000000, r11);
    var r12 := Regs(0xf71fc5a9, 0x4798a3f4, 0x8c87346b, 0x8e04ecb9, 0x816fd6e9, 0x436b23e8, 0x1cc92596, 0x32ca2d8c);
    Turn(FromWords(INITIAL_256), b, 11, r11, 0x550c7dc3, 0x00000000, r12);
    var r13 := Regs(0x87912990, 0xf71fc5a9, 0x4798a3f4, 0x8c87346b, 0x1e578218, 0x816fd6e9, 0x436b23e8, 0x1cc92596);
    Turn(FromWords(INITIAL_256), b, 12, r12, 0x72be5d74, 0x00000000, r13);
    var r14 := Regs(0xd932eb16, 0x87912990, 0xf71fc5a9, 0x4798a3f4, 0x745a48de, 0x1e578218, 0x816fd6e9, 0x436b23e8);
    Turn(FromWords(INITIAL_256), b, 13, r13, 0x80deb1fe, 0x00000000, r14);
    var r15 := Regs(0xc0645fde, 0xd932eb16, 0x87912990, 0xf71fc5a9, 0x0b92f20c, 0x745a48de, 0x1e578218, 0x816fd6e9);
    Turn(FromWords(INITIAL_256), b, 14, r14, 0x9bdc06a7, 0x00000000, r15);
    var r16 := Regs(0xb0fa238e, 0xc0645fde, 0xd932eb16, 0x87912990, 0x07590dcd, 0x0b92f20c, 0x745a48de, 0x1e578218);
    Turn(FromWords(INITIAL_256), b, 15, r15, 0xc19bf174, 0x00000018, r16);
  }

  lemma Sha256After24(b: seq<bv8>)
    requires IsBlock(b)
    ensures Rounds(Ops256, FromWords(INITIAL_256), b, 24) ==
      Regs(0xc5d53d8d, 0xa7a3623f, 0xc2606d6d, 0x9dc68b63, 0xaa47c347, 0x49f5114a, 0xe1257970, 0x8ada8930)
  {
    hide Schedule, Rounds, IsBlock, K256At;
    KeysFrom16();
    Sha256After16(b);
    WordsFrom16(b);
    var r16 := Regs(0xb0fa238e, 0xc0645fde, 0xd932eb16, 0x87912990, 0x07590dcd, 0x0b92f20c, 0x745a48de, 0x1e578218);
    var r17 := Regs(0x21da9a9b, 0xb0fa238e, 0xc0645fde, 0xd932eb16, 0x8034229c, 0x07590dcd, 0x0b92f20c, 0x745a48de);
    Turn(FromWords(INITIAL_256), b, 16, r16, 0xe49b69c1, 0x61626380, r17);
    var r18 := Regs(0xc2fbd9d1, 0x21da9a9b, 0xb0fa238e, 0xc0645fde, 0x846ee454, 0x8034229c, 0x07590dcd, 0x0b92f20c);
    Turn(FromWords(INITIAL_256), b, 17, r17, 0xefbe4786, 0x000f0000, r18);
    var r19 := Regs(0xfe777bbf, 0xc2fbd9d1, 0x21da9a9b, 0xb0fa238e, 0xcc899961, 0x846ee454, 0x8034229c, 0x07590dcd);
    Turn(FromWords(INITIAL_256), b, 18, r18, 0x0fc19dc6, 0x7da86405, r19);
    var r20 := Regs(0xe1f20c33, 0xfe777bbf, 0xc2fbd9d1, 0x21da9a9b, 0xb0638179, 0xcc899961, 0x846ee454, 0x8034229c);
    Turn(FromWords(INITIAL_256), b, 19, r19, 0x240ca1cc, 0x600003c6, r20);
    var r21 := Regs(0x9dc68b63, 0xe1f20c33, 0xfe777bbf, 0xc2fbd9d1, 0x8ada8930, 0xb0638179, 0xcc899961, 0x846ee454);
    Turn(FromWords(INITIAL_256), b, 20, r20, 0x2de92c6f, 0x3e9d7b78, r21);
    var r22 := Regs(0xc2606d6d, 0x9dc68b63, 0xe1f20c33, 0xfe777bbf, 0xe1257970, 0x8ada8930, 0xb0638179, 0xcc899961);
    Turn(FromWords(INITIAL_256), b, 21, r21, 0x4a7484aa, 0x0183fc00, r22);
    var r23 := Regs(0xa7a3623f, 0xc2606d6d, 0x9dc68b63, 0xe1f20c33, 0x49f5114a, 0xe1257970, 0x8ada8930, 0xb0638179);
    Turn(FromWords(INITIAL_256), b, 22, r22, 0x5cb0a9dc, 0x12dcbfdb, r23);
    var r24 := Regs(0xc5d53d8d, 0xa7a3623f, 0xc2606d6d, 0x9dc68b63, 0xaa47c347, 0x49f5114a, 0xe1257970, 0x8ada8930);
    Turn(FromWords(INITIAL_256), b, 23, r23, 0x76f988da, 0xe2e2c38e, r24);
  }

  lemma Sha256After32(b: seq<bv8>)
    requires IsBlock(b)
    ensures Rounds(Ops256, FromWords(INITIAL_256), b, 32) ==
      Regs(0x73b33bf5, 0xea992a22, 0xa0060b30, 0x363482c9, 0xba591112, 0x0109ab3a, 0xade79437, 0x6112a3b7)
  {
    hide Schedule, Rounds, IsBlock, K256At;
    KeysFrom24();
    Sha256After24(b);
    WordsFrom24(b);
    var r24 := Regs(0xc5d53d8d, 0xa7a3623f, 0xc2606d6d, 0x9dc68b63, 0xaa47c347, 0x49f5114a, 0xe1257970, 0x8ada8930);
    var r25 := Regs(0x1c2c2838, 0xc5d53d8d, 0xa7a3623f, 0xc2606d6d, 0x2823ef91, 0xaa47c347, 0x49f5114a, 0xe1257970);
    Turn(FromWords(INITIAL_256), b, 24, r24, 0x983e5152, 0xc8215c1a, r25);
    var r26 := Regs(0xcde8037d, 0x1c2c2838, 0xc5d53d8d, 0xa7a3623f, 0x14383d8e, 0x2823ef91, 0xaa47c347, 0x49f5114a);
    Turn(FromWords(INITIAL_256), b, 25, r25, 0xa831c66d, 0xb73679a2, r26);
    var r27 := Regs(0xb62ec4bc, 0xcde8037d, 0x1c2c2838, 0xc5d53d8d, 0xc74c6516, 0x14383d8e, 0x2823ef91, 0xaa47c347);
    Turn(FromWords(INITIAL_256), b, 26, r26, 0xb00327c8, 0xe5bc3909, r27);
    var r28 := Regs(0x77d37528, 0xb62ec4bc, 0xcde8037d, 0x1c2c2838, 0xedffbff8, 0xc74c6516, 0x14383d8e, 0x2823ef91);
    Turn(FromWords(INITIAL_256), b, 27, r27, 0xbf597fc7, 0x32663c5b, r28);
    var r29 := Regs(0x363482c9, 0x77d37528, 0xb62ec4bc, 0xcde8037d, 0x6112a3b7, 0xedffbff8, 0xc74c6516, 0x14383d8e);
    Turn(FromWords(INITIAL_256), b, 28, r28, 0xc6e00bf3, 0x9d209d67, r29);
    var r30 := Regs(0xa0060b30, 0x363482c9, 0x77d37528, 0xb62ec4bc, 0xade79437, 0x6112a3b7, 0xedffbff8, 0xc74c6516);
    Turn(FromWords(INITIAL_256), b, 29, r29, 0xd5a79147, 0xec8726cb, r30);
    var r31 := Regs(0xea992a22, 0xa0060b30, 0x363482c9, 0x77d37528, 0x0109ab3a, 0xade79437, 0x6112a3b7, 0xedffbff8);
    Turn(FromWords(INITIAL_256), b, 30, r30, 0x06ca6351, 0x702138a4, r31);
    var r32 := Regs(0x73b33bf5, 0xea992a22, 0xa0060b30, 0x363482c9, 0xba591112, 0x0109ab3a, 0xade79437, 0x6112a3b7);
    Turn(FromWords(INITIAL_256), b, 31, r31, 0x14292967, 0xd3b7973b, r32);
  }

  lemma Sha256After40(b: seq<bv8>)
    requires IsBlock(b)
    ensures Rounds(Ops256, FromWords(INITIAL_256), b, 40) ==
      Regs(0x79ea687a, 0x6dc57a8a, 0x34df1604, 0x41a65cb1, 0x1efbc0a0, 0xf0781bc8, 0xa507a53d, 0x0772a26b)
  {
    hide Schedule, Rounds, IsBlock, K256At;
    KeysFrom32();
    Sha256After32(b);
    WordsFrom32(b);
    var r32 := Regs(0x73b33bf5, 0xea992a22, 0xa0060b30, 0x363482c9, 0xba591112, 0x0109ab3a, 0xade79437, 0x6112a3b7);
    var r33 := Regs(0x98e12507, 0x73b33bf5, 0xea992a22, 0xa0060b30, 0x9cd9f5f6, 0xba591112, 0x0109ab3a, 0xade79437);
    Turn(FromWords(INITIAL_256), b, 32, r32, 0x27b70a85, 0x93f5997f, r33);
    var r34 := Regs(0xfe604df5, 0x98e12507, 0x73b33bf5, 0xea992a22, 0x59249dd3, 0x9cd9f5f6, 0xba591112, 0x0109ab3a);
    Turn(FromWords(INITIAL_256), b, 33, r33, 0x2e1b2138, 0x3b68ba73, r34);
    var r35 := Regs(0xa9a7738c, 0xfe604df5, 0x98e12507, 0x73b33bf5, 0x085f3833, 0x59249dd3, 0x9cd9f5f6, 0xba591112);
    Turn(FromWords(INITIAL_256), b, 34, r34, 0x4d2c6dfc, 0xaff4ffc1, r35);
    var r36 := Regs(0x65a0cfe4, 0xa9a7738c, 0xfe604df5, 0x98e12507, 0xf4b002d6, 0x085f3833, 0x59249dd3, 0x9cd9f5f6);
    Turn(FromWords(INITIAL_256), b, 35, r35, 0x53380d13, 0xf10a5c62, r36);
    var r37 := Regs(0x41a65cb1, 0x65a0cfe4, 0xa9a7738c, 0xfe604df5, 0x0772a26b, 0xf4b002d6, 0x085f3833, 0x59249dd3);
    Turn(FromWords(INITIAL_256), b, 36, r36, 0x650a7354, 0x0a8b3996, r37);
    var r38 := Regs(0x34df1604, 0x41a65cb1, 0x65a0cfe4, 0xa9a7738c, 0xa507a53d, 0x0772a26b, 0xf4b002d6, 0x085f3833);
    Turn(FromWords(INITIAL_256), b, 37, r37, 0x766a0abb, 0x72af830a, r38);
    var r39 := Regs(0x6dc57a8a, 0x34df1604, 0x41a65cb1, 0x65a0cfe4, 0xf0781bc8, 0xa507a53d, 0x0772a26b, 0xf4b002d6);
    Turn(FromWords(INITIAL_256), b, 38, r38, 0x81c2c92e, 0x9409e33e, r39);
    var r40 := Regs(0x79ea687a, 0x6dc57a8a, 0x34df1604, 0x41a65cb1, 0x1efbc0a0, 0xf0781bc8, 0xa507a53d, 0x0772a26b);
    Turn(FromWords(INITIAL_256), b, 39, r39, 0x92722c85, 0x24641522, r40);
  }

  lemma Sha256After48(b: seq<bv8>)
    requires IsBlock(b)
    ensures Rounds(Ops256, FromWords(INITIAL_256), b, 48) ==
      Regs(0x4172328d, 0xa14c14b0, 0x72ab4b91, 0x26628815, 0xfecf0bc6, 0xd57b94a9, 0xb7755da1, 0xa80f11f0)
  {
    hide Schedule, Rounds, IsBlock, K256At;
    KeysFrom40();
    Sha256After40(b);
    WordsFrom40(b);
    var r40 := Regs(0x79ea687a, 0x6dc57a8a, 0x34df1604, 0x41a65cb1, 0x1efbc0a0, 0xf0781bc8, 0xa507a53d, 0x0772a26b);
    var r41 := Regs(0xd6670766, 0x79ea687a, 0x6dc57a8a, 0x34df1604, 0x26352d63, 0x1efbc0a0, 0xf0781bc8, 0xa507a53d);
    Turn(FromWords(INITIAL_256), b, 40, r40, 0xa2bfe8a1, 0x9f47bf94, r41);
    var r42 := Regs(0xdf46652f, 0xd6670766, 0x79ea687a, 0x6dc57a8a, 0x838b2711, 0x26352d63, 0x1efbc0a0, 0xf0781bc8);
    Turn(FromWords(INITIAL_256), b, 41, r41, 0xa81a664b, 0xf0a64f5a, r42);
    var r43 := Regs(0x17aa0dfe, 0xdf46652f, 0xd6670766, 0x79ea687a, 0xdecd4715, 0x838b2711, 0x26352d63, 0x1efbc0a0);
    Turn(FromWords(INITIAL_256), b, 42, r42, 0xc24b8b70, 0x3e246a79, r43);
    var r44 := Regs(0x9d4baf93, 0x17aa0dfe, 0xdf46652f, 0xd6670766, 0xfda24c2e, 0xdecd4715, 0x838b2711, 0x26352d63);
    Turn(FromWords(INITIAL_256), b, 43, r43, 0xc76c51a3, 0x27333ba3, r44);
    var r45 := Regs(0x26628815, 0x9d4baf93, 0x17aa0dfe, 0xdf46652f, 0xa80f11f0, 0xfda24c2e, 0xdecd4715, 0x838b2711);
    Turn(FromWords(INITIAL_256), b, 44, r44, 0xd192e819, 0x0c4763f2, r45);
    var r46 := Regs(0x72ab4b91, 0x26628815, 0x9d4baf93, 0x17aa0dfe, 0xb7755da1, 0xa80f11f0, 0xfda24c2e, 0xdecd4715);
    Turn(FromWords(INITIAL_256), b, 45, r45, 0xd6990624, 0x840abf27, r46);
    var r47 := Regs(0xa14c14b0, 0x72ab4b91, 0x26628815, 0x9d4baf93, 0xd57b94a9, 0xb7755da1, 0xa80f11f0, 0xfda24c2e);
    Turn(FromWords(INITIAL_256), b, 46, r46, 0xf40e3585, 0x7a290d5d, r47);
    var r48 := Regs(0x4172328d, 0xa14c14b0, 0x72ab4b91, 0x26628815, 0xfecf0bc6, 0xd57b94a9, 0xb7755da1, 0xa80f11f0);
    Turn(FromWords(INITIAL_256), b, 47, r47, 0x106aa070, 0x065c43da, r48);
  }

  lemma Sha256After56(b: seq<bv8>)
    requires IsBlock(b)
    ensures Rounds(Ops256, FromWords(INITIAL_256), b, 56) ==
      Regs(0x38cc9913, 0x3ec45cdb, 0xf5702fdb, 0x101fd28f, 0x54cb266b, 0xe50e1b4f, 0x9f4787c3, 0x529e7d00)
  {
    hide Schedule, Rounds, IsBlock, K256At;
    KeysFrom48();
    Sha256After48(b);
    WordsFrom48(b);
    var r48 := Regs(0x4172328d, 0xa14c14b0, 0x72ab4b91, 0x26628815, 0xfecf0bc6, 0xd57b94a9, 0xb7755da1, 0xa80f11f0);
    var r49 := Regs(0x05757ceb, 0x4172328d, 0xa14c14b0, 0x72ab4b91, 0xbd714038, 0xfecf0bc6, 0xd57b94a9, 0xb7755da1);
    Turn(FromWords(INITIAL_256), b, 48, r48, 0x19a4c116, 0xfb3e89cb, r49);
    var r50 := Regs(0xf11bfaa8, 0x05757ceb, 0x4172328d, 0xa14c14b0, 0x6e5c390c, 0xbd714038, 0xfecf0bc6, 0xd57b94a9);
    Turn(FromWords(INITIAL_256), b, 49, r49, 0x1e376c08, 0xcc7617db, r50);
    var r51 := Regs(0x7a0508a1, 0xf11bfaa8, 0x05757ceb, 0x4172328d, 0x52f1ccf7, 0x6e5c390c, 0xbd714038, 0xfecf0bc6);
    Turn(FromWords(INITIAL_256), b, 50, r50, 0x2748774c, 0xb9e66c34, r51);
    var r52 := Regs(0x886e7a22, 0x7a0508a1, 0xf11bfaa8, 0x05757ceb, 0x49231c1e, 0x52f1ccf7, 0x6e5c390c, 0xbd714038);
    Turn(FromWords(INITIAL_256), b, 51, r51, 0x34b0bcb5, 0xa9993667, r52);
    var r53 := Regs(0x101fd28f, 0x886e7a22, 0x7a0508a1, 0xf11bfaa8, 0x529e7d00, 0x49231c1e, 0x52f1ccf7, 0x6e5c390c);
    Turn(FromWords(INITIAL_256), b, 52, r52, 0x391c0cb3, 0x84badedd, r53);
    var r54 := Regs(0xf5702fdb, 0x101fd28f, 0x886e7a22, 0x7a0508a1, 0x9f4787c3, 0x529e7d00, 0x49231c1e, 0x52f1ccf7);
    Turn(FromWords(INITIAL_256), b, 53, r53, 0x4ed8aa4a, 0xc21462bc, r54);
    var r55 := Regs(0x3ec45cdb, 0xf5702fdb, 0x101fd28f, 0x886e7a22, 0xe50e1b4f, 0x9f4787c3, 0x529e7d00, 0x49231c1e);
    Turn(FromWords(INITIAL_256), b, 54, r54, 0x5b9cca4f, 0x1487472c, r55);
    var r56 := Regs(0x38cc9913, 0x3ec45cdb, 0xf5702fdb, 0x101fd28f, 0x54cb266b, 0xe50e1b4f, 0x9f4787c3, 0x529e7d00);
    Turn(FromWords(INITIAL_256), b, 55, r55, 0x682e6ff3, 0xb20f7a99, r56);
  }

  lemma Sha256After64(b: seq<bv8>)
    requires IsBlock(b)
    ensures Rounds(Ops256, FromWords(INITIAL_256), b, 64) ==
      Regs(0x506e3058, 0xd39a2165, 0x04d24d6c, 0xb85e2ce9, 0x5ef50f24, 0xfb121210, 0x948d25b6, 0x961f4894)
  {
    hide Schedule, Rounds, IsBlock, K256At;
    KeysFrom56();
    Sha256After56(b);
    WordsFrom56(b);
    var r56 := Regs(0x38cc9913, 0x3ec45cdb, 0xf5702fdb, 0x101fd28f, 0x54cb266b, 0xe50e1b4f, 0x9f4787c3, 0x529e7d00);
    var r57 := Regs(0xfcd1887b, 0x38cc9913, 0x3ec45cdb, 0xf5702fdb, 0x9b5e906c, 0x54cb266b, 0xe50e1b4f, 0x9f4787c3);
    Turn(FromWords(INITIAL_256), b, 56, r56, 0x748f82ee, 0xef57b9cd, r57);
    var r58 := Regs(0xc062d46f, 0xfcd1887b, 0x38cc9913, 0x3ec45cdb, 0x7e44008e, 0x9b5e906c, 0x54cb266b, 0xe50e1b4f);
    Turn(FromWords(INITIAL_256), b, 57, r57, 0x78a5636f, 0xebe6b238, r58);
    var r59 := Regs(0xffb70472, 0xc062d46f, 0xfcd1887b, 0x38cc9913, 0x6d83bfc6, 0x7e44008e, 0x9b5e906c, 0x54cb266b);
    Turn(FromWords(INITIAL_256), b, 58, r58, 0x84c87814, 0x9fe3095e, r59);
    var r60 := Regs(0xb6ae8fff, 0xffb70472, 0xc062d46f, 0xfcd1887b, 0xb21bad3d, 0x6d83bfc6, 0x7e44008e, 0x9b5e906c);
    Turn(FromWords(INITIAL_256), b, 59, r59, 0x8cc70208, 0x78bc8d4b, r60);
    var r61 := Regs(0xb85e2ce9, 0xb6ae8fff, 0xffb70472, 0xc062d46f, 0x961f4894, 0xb21bad3d, 0x6d83bfc6, 0x7e44008e);
    Turn(FromWords(INITIAL_256), b, 60, r60, 0x90befffa, 0xa43fcf15, r61);
    var r62 := Regs(0x04d24d6c, 0xb85e2ce9, 0xb6ae8fff, 0xffb70472, 0x948d25b6, 0x961f4894, 0xb21bad3d, 0x6d83bfc6);
    Turn(FromWords(INITIAL_256), b, 61, r61, 0xa4506ceb, 0x668b2ff8, r62);
    var r63 := Regs(0xd39a2165, 0x04d24d6c, 0xb85e2ce9, 0xb6ae8fff, 0xfb121210, 0x948d25b6, 0x961f4894, 0xb21bad3d);
    Turn(FromWords(INITIAL_256), b, 62, r62, 0xbef9a3f7, 0xeeaba2cc, r63);
    var r64 := Regs(0x506e3058, 0xd39a2165, 0x04d24d6c, 0xb85e2ce9, 0x5ef50f24, 0xfb121210, 0x948d25b6, 0x961f4894);
    Turn(FromWords(INITIAL_256), b, 63, r63, 0xc67178f2, 0x12b1edeb, r64);
  }

  lemma Sha256Compressed(b: seq<bv8>)
    requires IsBlock(b)
    ensures Compress(Ops256, FromWords(INITIAL_256), b) ==
      Regs(0xba7816bf, 0x8f01cfea, 0x414140de, 0x5dae2223, 0xb00361a3, 0x96177a9c, 0xb410ff61, 0xf20015ad)
  {
    hide Rounds, IsBlock;
    Sha256After64(b);
  }

  lemma Sha256Words()
    ensures StoreBE32(0xba7816bf) == [0xba, 0x78, 0x16, 0xbf]
    ensures StoreBE32(0x8f01cfea) == [0x8f, 0x01, 0xcf, 0xea]
    ensures StoreBE32(0x414140de) == [0x41, 0x41, 0x40, 0xde]
    ensures StoreBE32(0x5dae2223) == [0x5d, 0xae, 0x22, 0x23]
    ensures StoreBE32(0xb00361a3) == [0xb0, 0x03, 0x61, 0xa3]
    ensures StoreBE32(0x96177a9c) == [0x96, 0x17, 0x7a, 0x9c]
    ensures StoreBE32(0xb410ff61) == [0xb4, 0x10, 0xff, 0x61]
    ensures StoreBE32(0xf20015ad) == [0xf2, 0x00, 0x15, 0xad]
  {
  }

  lemma Sha256Bytes()
    ensures BigEndian(Ops256, Words(Regs(0xba7816bf, 0x8f01cfea, 0x414140de, 0x5dae2223, 0xb00361a3, 0x96177a9c, 0xb410ff61, 0xf20015ad))[..8]) ==
      [0xba, 0x78, 0x16, 0xbf] + [0x8f, 0x01, 0xcf, 0xea] +
      [0x41, 0x41, 0x40, 0xde] + [0x5d, 0xae, 0x22, 0x23] +
      [0xb0, 0x03, 0x61, 0xa3] + [0x96, 0x17, 0x7a, 0x9c] +
      [0xb4, 0x10, 0xff, 0x61] + [0xf2, 0x00, 0x15, 0xad]
  {
    hide StoreBE32, BigEndian;
    Sha256Words();
    FirstWords8(Regs(0xba7816bf, 0x8f01cfea, 0x414140de, 0x5dae2223, 0xb00361a3, 0x96177a9c, 0xb410ff61, 0xf20015ad));
  }

  /** SHA-256("abc"). */
  lemma Sha256OfAbc()
    ensures Hash(Ops256, FromWords(INITIAL_256), 8, [0x61, 0x62, 0x63]) ==
      [0xba, 0x78, 0x16, 0xbf] + [0x8f, 0x01, 0xcf, 0xea] +
      [0x41, 0x41, 0x40, 0xde] + [0x5d, 0xae, 0x22, 0x23] +
      [0xb0, 0x03, 0x61, 0xa3] + [0x96, 0x17, 0x7a, 0x9c] +
      [0xb4, 0x10, 0xff, 0x61] + [0xf2, 0x00, 0x15, 0xad]
  {
    hide Pad, Compress, BigEndian, IsBlock, Words;
    var b := Pad(Ops256, [0x61, 0x62, 0x63]);
    AbcIsPadded();
    BlockLengthOf(b);
    AbsorbBlock(Ops256, FromWords(INITIAL_256), b);
    Sha256Compressed(b);
    hide Absorb;
    Sha256Bytes();
  }

}
