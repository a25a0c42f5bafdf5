/** The word functions of SHA-512 as rotations, its constants as roots of primes, and the digest of "abc"
    that FIPS 180-4 publishes with an example: word by word and round by round, in literals. */
module Sha512Vector {
  import opened Sha2
  import opened Sha2Count
  import opened Sha2Stream
  import opened Sha2Words

  // ----- the word functions -------------------------------------------------

  function Xor3(a: bv64, b: bv64, c: bv64): bv64 { a ^ b ^ c }

  lemma Rotations(x: bv64)
    ensures S64(28, x) == x.RotateRight(28) && S64(34, x) == x.RotateRight(34) && S64(39, x) == x.RotateRight(39)
    ensures S64(14, x) == x.RotateRight(14) && S64(18, x) == x.RotateRight(18) && S64(41, x) == x.RotateRight(41)
    ensures S64(1, x) == x.RotateRight(1) && S64(8, x) == x.RotateRight(8)
    ensures S64(19, x) == x.RotateRight(19) && S64(61, x) == x.RotateRight(61)
  {
  }

  lemma BigSigma0Is(x: bv64)
    ensures BigSigma0_512(x) == Xor3(S64(28, x), S64(34, x), S64(39, x))
  {
    hide S64;
  }

  lemma BigSigma1Is(x: bv64)
    ensures BigSigma1_512(x) == Xor3(S64(14, x), S64(18, x), S64(41, x))
  {
    hide S64;
  }

  lemma Sigma0Is(x: bv64)
    ensures Sigma0_512(x) == Xor3(S64(1, x), S64(8, x), (x >> 7))
  {
    hide S64;
  }

  lemma Sigma1Is(x: bv64)
    ensures Sigma1_512(x) == Xor3(S64(19, x), S64(61, x), (x >> 6))
  {
    hide S64;
  }

  lemma Rotated(x: bv64)
    ensures BigSigma0_512(x) == Xor3(x.RotateRight(28), x.RotateRight(34), x.RotateRight(39))
    ensures BigSigma1_512(x) == Xor3(x.RotateRight(14), x.RotateRight(18), x.RotateRight(41))
    ensures Sigma0_512(x) == Xor3(x.RotateRight(1), x.RotateRight(8), (x >> 7))
    ensures Sigma1_512(x) == Xor3(x.RotateRight(19), x.RotateRight(61), (x >> 6))
  {
    hide S64, Xor3, BigSigma0_512, BigSigma1_512, Sigma0_512, Sigma1_512;
    BigSigma0Is(x);
    BigSigma1Is(x);
    Sigma0Is(x);
    Sigma1Is(x);
    Rotations(x);
  }

  /** The four functions of section 4.1.3 of FIPS 180-4. */
  lemma SigmasAre(x: bv64)
    ensures BigSigma0_512(x) == x.RotateRight(28) ^ x.RotateRight(34) ^ x.RotateRight(39)
    ensures BigSigma1_512(x) == x.RotateRight(14) ^ x.RotateRight(18) ^ x.RotateRight(41)
    ensures Sigma0_512(x) == x.RotateRight(1) ^ x.RotateRight(8) ^ (x >> 7)
    ensures Sigma1_512(x) == x.RotateRight(19) ^ x.RotateRight(61) ^ (x >> 6)
  {
    hide S64, BigSigma0_512, BigSigma1_512, Sigma0_512, Sigma1_512;
    Rotated(x);
  }

  // ----- the constants ------------------------------------------------------

  /** The first 64 bits behind the point of the cube root of `p`, whose integer part is `q`. */
  predicate IsCubeRoot(k: bv64, p: nat, q: nat) {
    var n := q * 0x1_00000000_00000000 + k as nat;
    n * n * n <= p * 0x1_00000000_00000000_00000000_00000000_00000000_00000000 < (n + 1) * (n + 1) * (n + 1)
  }

  predicate IsSquareRoot(k: bv64, p: nat, q: nat) {
    var n := q * 0x1_00000000_00000000 + k as nat;
    n * n <= p * 0x1_00000000_00000000_00000000_00000000 < (n + 1) * (n + 1)
  }

  function PrimeRow0(t: nat): nat {
    match t case 0 => 2 case 1 => 3 case 2 => 5 case 3 => 7 case 4 => 11 case 5 => 13 case 6 => 17 case 7 => 19
    case 8 => 23 case 9 => 29 case 10 => 31 case 11 => 37 case 12 => 41 case 13 => 43 case 14 => 47 case _ => 53
  }

  function PrimeRow1(t: nat): nat {
    match t case 16 => 59 case 17 => 61 case 18 => 67 case 19 => 71 case 20 => 73 case 21 => 79 case 22 => 83 case 23 => 89
    case 24 => 97 case 25 => 101 case 26 => 103 case 27 => 107 case 28 => 109 case 29 => 113 case 30 => 127 case _ => 131
  }

  function PrimeRow2(t: nat): nat {
    match t case 32 => 137 case 33 => 139 case 34 => 149 case 35 => 151 case 36 => 157 case 37 => 163 case 38 => 167 case 39 => 173
    case 40 => 179 case 41 => 181 case 42 => 191 case 43 => 193 case 44 => 197 case 45 => 199 case 46 => 211 case _ => 223
  }

  function PrimeRow3(t: nat): nat {
    match t case 48 => 227 case 49 => 229 case 50 => 233 case 51 => 239 case 52 => 241 case 53 => 251 case 54 => 257 case 55 => 263
    case 56 => 269 case 57 => 271 case 58 => 277 case 59 => 281 case 60 => 283 case 61 => 293 case 62 => 307 case _ => 311
  }

  function PrimeRow4(t: nat): nat {
    match t case 64 => 313 case 65 => 317 case 66 => 331 case 67 => 337 case 68 => 347 case 69 => 349 case 70 => 353 case 71 => 359
    case 72 => 367 case 73 => 373 case 74 => 379 case 75 => 383 case 76 => 389 case 77 => 397 case 78 => 401 case _ => 409
  }

  /** The first 80 primes. */
  function Prime(t: nat): nat {
    if t < 16 then PrimeRow0(t) else if t < 32 then PrimeRow1(t) else if t < 48 then PrimeRow2(t) else if t < 64 then PrimeRow3(t) else PrimeRow4(t)
  }

  ghost predicate HasCubeRoot(t: nat) {
    exists q: nat :: IsCubeRoot(K512At(t), Prime(t), q)
  }

  lemma Root(t: nat, p: nat, q: nat)
    requires IsCubeRoot(K512At(t), p, q) && Prime(t) == p
    ensures HasCubeRoot(t)
  {
    hide IsCubeRoot;
  }

  lemma CubeRoots0()
    ensures HasCubeRoot(0) && HasCubeRoot(1)
  {
    hide HasCubeRoot;
    Root(0, 2, 1);
    Root(1, 3, 1);
  }

  lemma CubeRoots2()
    ensures HasCubeRoot(2) && HasCubeRoot(3)
  {
    hide HasCubeRoot;
    Root(2, 5, 1);
    Root(3, 7, 1);
  }

  lemma CubeRoots4()
    ensures HasCubeRoot(4) && HasCubeRoot(5)
  {
    hide HasCubeRoot;
    Root(4, 11, 2);
    Root(5, 13, 2);
  }

  lemma CubeRoots6()
    ensures HasCubeRoot(6) && HasCubeRoot(7)
  {
    hide HasCubeRoot;
    Root(6, 17, 2);
    Root(7, 19, 2);
  }

  lemma CubeRoots8()
    ensures HasCubeRoot(8) && HasCubeRoot(9)
  {
    hide HasCubeRoot;
    Root(8, 23, 2);
    Root(9, 29, 3);
  }

  lemma CubeRoots10()
    ensures HasCubeRoot(10) && HasCubeRoot(11)
  {
    hide HasCubeRoot;
    Root(10, 31, 3);
    Root(11, 37, 3);
  }

  lemma CubeRoots12()
    ensures HasCubeRoot(12) && HasCubeRoot(13)
  {
    hide HasCubeRoot;
    Root(12, 41, 3);
    Root(13, 43, 3);
  }

  lemma CubeRoots14()
    ensures HasCubeRoot(14) && HasCubeRoot(15)
  {
    hide HasCubeRoot;
    Root(14, 47, 3);
    Root(15, 53, 3);
  }

  lemma CubeRoots16()
    ensures HasCubeRoot(16) && HasCubeRoot(17)
  {
    hide HasCubeRoot;
    Root(16, 59, 3);
    Root(17, 61, 3);
  }

  lemma CubeRoots18()
    ensures HasCubeRoot(18) && HasCubeRoot(19)
  {
    hide HasCubeRoot;
    Root(18, 67, 4);
    Root(19, 71, 4);
  }

  lemma CubeRoots20()
    ensures HasCubeRoot(20) && HasCubeRoot(21)
  {
    hide HasCubeRoot;
    Root(20, 73, 4);
    Root(21, 79, 4);
  }

  lemma CubeRoots22()
    ensures HasCubeRoot(22) && HasCubeRoot(23)
  {
    hide HasCubeRoot;
    Root(22, 83, 4);
    Root(23, 89, 4);
  }

  lemma CubeRoots24()
    ensures HasCubeRoot(24) && HasCubeRoot(25)
  {
    hide HasCubeRoot;
    Root(24, 97, 4);
    Root(25, 101, 4);
  }

  lemma CubeRoots26()
    ensures HasCubeRoot(26) && HasCubeRoot(27)
  {
    hide HasCubeRoot;
    Root(26, 103, 4);
    Root(27, 107, 4);
  }

  lemma CubeRoots28()
    ensures HasCubeRoot(28) && HasCubeRoot(29)
  {
    hide HasCubeRoot;
    Root(28, 109, 4);
    Root(29, 113, 4);
  }

  lemma CubeRoots30()
    ensures HasCubeRoot(30) && HasCubeRoot(31)
  {
    hide HasCubeRoot;
    Root(30, 127, 5);
    Root(31, 131, 5);
  }

  lemma CubeRoots32()
    ensures HasCubeRoot(32) && HasCubeRoot(33)
  {
    hide HasCubeRoot;
    Root(32, 137, 5);
    Root(33, 139, 5);
  }

  lemma CubeRoots34()
    ensures HasCubeRoot(34) && HasCubeRoot(35)
  {
    hide HasCubeRoot;
    Root(34, 149, 5);
    Root(35, 151, 5);
  }

  lemma CubeRoots36()
    ensures HasCubeRoot(36) && HasCubeRoot(37)
  {
    hide HasCubeRoot;
    Root(36, 157, 5);
    Root(37, 163, 5);
  }

  lemma CubeRoots38()
    ensures HasCubeRoot(38) && HasCubeRoot(39)
  {
    hide HasCubeRoot;
    Root(38, 167, 5);
    Root(39, 173, 5);
  }

  lemma CubeRoots40()
    ensures HasCubeRoot(40) && HasCubeRoot(41)
  {
    hide HasCubeRoot;
    Root(40, 179, 5);
    Root(41, 181, 5);
  }

  lemma CubeRoots42()
    ensures HasCubeRoot(42) && HasCubeRoot(43)
  {
    hide HasCubeRoot;
    Root(42, 191, 5);
    Root(43, 193, 5);
  }

  lemma CubeRoots44()
    ensures HasCubeRoot(44) && HasCubeRoot(45)
  {
    hide HasCubeRoot;
    Root(44, 197, 5);
    Root(45, 199, 5);
  }

  lemma CubeRoots46()
    ensures HasCubeRoot(46) && HasCubeRoot(47)
  {
    hide HasCubeRoot;
    Root(46, 211, 5);
    Root(47, 223, 6);
  }

  lemma CubeRoots48()
    ensures HasCubeRoot(48) && HasCubeRoot(49)
  {
    hide HasCubeRoot;
    Root(48, 227, 6);
    Root(49, 229, 6);
  }

  lemma CubeRoots50()
    ensures HasCubeRoot(50) && HasCubeRoot(51)
  {
    hide HasCubeRoot;
    Root(50, 233, 6);
    Root(51, 239, 6);
  }

  lemma CubeRoots52()
    ensures HasCubeRoot(52) && HasCubeRoot(53)
  {
    hide HasCubeRoot;
    Root(52, 241, 6);
    Root(53, 251, 6);
  }

  lemma CubeRoots54()
    ensures HasCubeRoot(54) && HasCubeRoot(55)
  {
    hide HasCubeRoot;
    Root(54, 257, 6);
    Root(55, 263, 6);
  }

  lemma CubeRoots56()
    ensures HasCubeRoot(56) && HasCubeRoot(57)
  {
    hide HasCubeRoot;
    Root(56, 269, 6);
    Root(57, 271, 6);
  }

  lemma CubeRoots58()
    ensures HasCubeRoot(58) && HasCubeRoot(59)
  {
    hide HasCubeRoot;
    Root(58, 277, 6);
    Root(59, 281, 6);
  }

  lemma CubeRoots60()
    ensures HasCubeRoot(60) && HasCubeRoot(61)
  {
    hide HasCubeRoot;
    Root(60, 283, 6);
    Root(61, 293, 6);
  }

  lemma CubeRoots62()
    ensures HasCubeRoot(62) && HasCubeRoot(63)
  {
    hide HasCubeRoot;
    Root(62, 307, 6);
    Root(63, 311, 6);
  }

  lemma CubeRoots64()
    ensures HasCubeRoot(64) && HasCubeRoot(65)
  {
    hide HasCubeRoot;
    Root(64, 313, 6);
    Root(65, 317, 6);
  }

  lemma CubeRoots66()
    ensures HasCubeRoot(66) && HasCubeRoot(67)
  {
    hide HasCubeRoot;
    Root(66, 331, 6);
    Root(67, 337, 6);
  }

  lemma CubeRoots68()
    ensures HasCubeRoot(68) && HasCubeRoot(69)
  {
    hide HasCubeRoot;
    Root(68, 347, 7);
    Root(69, 349, 7);
  }

  lemma CubeRoots70()
    ensures HasCubeRoot(70) && HasCubeRoot(71)
  {
    hide HasCubeRoot;
    Root(70, 353, 7);
    Root(71, 359, 7);
  }

  lemma CubeRoots72()
    ensures HasCubeRoot(72) && HasCubeRoot(73)
  {
    hide HasCubeRoot;
    Root(72, 367, 7);
    Root(73, 373, 7);
  }

  lemma CubeRoots74()
    ensures HasCubeRoot(74) && HasCubeRoot(75)
  {
    hide HasCubeRoot;
    Root(74, 379, 7);
    Root(75, 383, 7);
  }

  lemma CubeRoots76()
    ensures HasCubeRoot(76) && HasCubeRoot(77)
  {
    hide HasCubeRoot;
    Root(76, 389, 7);
    Root(77, 397, 7);
  }

  lemma CubeRoots78()
    ensures HasCubeRoot(78) && HasCubeRoot(79)
  {
    hide HasCubeRoot;
    Root(78, 401, 7);
    Root(79, 409, 7);
  }

  lemma CubeRootsFrom0(t: nat)
    requires 0 <= t < 16
    ensures HasCubeRoot(t)
  {
    hide HasCubeRoot;
    CubeRoots0();
    CubeRoots2();
    CubeRoots4();
    CubeRoots6();
    CubeRoots8();
    CubeRoots10();
    CubeRoots12();
    CubeRoots14();
  }

  lemma CubeRootsFrom16(t: nat)
    requires 16 <= t < 32
    ensures HasCubeRoot(t)
  {
    hide HasCubeRoot;
    CubeRoots16();
    CubeRoots18();
    CubeRoots20();
    CubeRoots22();
    CubeRoots24();
    CubeRoots26();
    CubeRoots28();
    CubeRoots30();
  }

  lemma CubeRootsFrom32(t: nat)
    requires 32 <= t < 48
    ensures HasCubeRoot(t)
  {
    hide HasCubeRoot;
    CubeRoots32();
    CubeRoots34();
    CubeRoots36();
    CubeRoots38();
    CubeRoots40();
    CubeRoots42();
    CubeRoots44();
    CubeRoots46();
  }

  lemma CubeRootsFrom48(t: nat)
    requires 48 <= t < 64
    ensures HasCubeRoot(t)
  {
    hide HasCubeRoot;
    CubeRoots48();
    CubeRoots50();
    CubeRoots52();
    CubeRoots54();
    CubeRoots56();
    CubeRoots58();
    CubeRoots60();
    CubeRoots62();
  }

  lemma CubeRootsFrom64(t: nat)
    requires 64 <= t < 80
    ensures HasCubeRoot(t)
  {
    hide HasCubeRoot;
    CubeRoots64();
    CubeRoots66();
    CubeRoots68();
    CubeRoots70();
    CubeRoots72();
    CubeRoots74();
    CubeRoots76();
    CubeRoots78();
  }

  /** The round constants are the first bits of the cube roots of the first 80 primes. */
  lemma ConstantsAreCubeRoots(t: nat)
    requires t < 80
    ensures HasCubeRoot(t)
  {
    hide HasCubeRoot;
    if t < 16 { CubeRootsFrom0(t); } else if t < 32 { CubeRootsFrom16(t); } else if t < 48 { CubeRootsFrom32(t); } else if t < 64 { CubeRootsFrom48(t); } else { CubeRootsFrom64(t); }
  }

  lemma SquareRoots0()
    ensures IsSquareRoot(INITIAL_512[0], 2, 1) && IsSquareRoot(INITIAL_512[1], 3, 1)
  {
  }

  lemma SquareRoots1()
    ensures IsSquareRoot(INITIAL_512[2], 5, 2) && IsSquareRoot(INITIAL_512[3], 7, 2)
  {
  }

  lemma SquareRoots2()
    ensures IsSquareRoot(INITIAL_512[4], 11, 3) && IsSquareRoot(INITIAL_512[5], 13, 3)
  {
  }

  lemma SquareRoots3()
    ensures IsSquareRoot(INITIAL_512[6], 17, 4) && IsSquareRoot(INITIAL_512[7], 19, 4)
  {
  }

  lemma SquareRoots4()
    ensures IsSquareRoot(INITIAL_384[0], 23, 4) && IsSquareRoot(INITIAL_384[1], 29, 5)
  {
  }

  lemma SquareRoots5()
    ensures IsSquareRoot(INITIAL_384[2], 31, 5) && IsSquareRoot(INITIAL_384[3], 37, 6)
  {
  }

  lemma SquareRoots6()
    ensures IsSquareRoot(INITIAL_384[4], 41, 6) && IsSquareRoot(INITIAL_384[5], 43, 6)
  {
  }

  lemma SquareRoots7()
    ensures IsSquareRoot(INITIAL_384[6], 47, 6) && IsSquareRoot(INITIAL_384[7], 53, 7)
  {
  }

  /** The initial values are those of the square roots of the first eight primes, for SHA-384 of the next eight. */
  lemma InitialsAreSquareRoots()
    ensures IsSquareRoot(INITIAL_512[0], 2, 1) && IsSquareRoot(INITIAL_512[1], 3, 1) && IsSquareRoot(INITIAL_512[2], 5, 2) && IsSquareRoot(INITIAL_512[3], 7, 2)
    ensures IsSquareRoot(INITIAL_512[4], 11, 3) && IsSquareRoot(INITIAL_512[5], 13, 3) && IsSquareRoot(INITIAL_512[6], 17, 4) && IsSquareRoot(INITIAL_512[7], 19, 4)
    ensures IsSquareRoot(INITIAL_384[0], 23, 4) && IsSquareRoot(INITIAL_384[1], 29, 5) && IsSquareRoot(INITIAL_384[2], 31, 5) && IsSquareRoot(INITIAL_384[3], 37, 6)
    ensures IsSquareRoot(INITIAL_384[4], 41, 6) && IsSquareRoot(INITIAL_384[5], 43, 6) && IsSquareRoot(INITIAL_384[6], 47, 6) && IsSquareRoot(INITIAL_384[7], 53, 7)
  {
    hide IsSquareRoot;
    SquareRoots0();
    SquareRoots1();
    SquareRoots2();
    SquareRoots3();
    SquareRoots4();
    SquareRoots5();
    SquareRoots6();
    SquareRoots7();
  }

  // ----- "abc" --------------------------------------------------------------

  /** The one block of the padded message. */
  predicate IsBlock(b: seq<bv8>) {
    && |b| == 128 && b[0] == 0x61 && b[1] == 0x62 && b[2] == 0x63 && b[3] == 0x80 && b[127] == 0x18
    && forall i :: 4 <= i < 127 ==> b[i] == 0
  }

  lemma AbcIsPadded()
    ensures IsBlock(Pad(Ops512, [0x61, 0x62, 0x63]))
  {
    var m: seq<bv8> := [0x61, 0x62, 0x63];
    LengthOfAbc();
    assert PadZeros(Ops512, 3) == 108;
    hide LengthBytes, PadZeros;
  }

  lemma LengthOfAbc()
    ensures |LengthBytes(Ops512, 3)| == 16 && LengthBytes(Ops512, 3)[15] == 0x18 && forall i :: 0 <= i < 15 ==> LengthBytes(Ops512, 3)[i] == 0
  {
    assert Word64(24) == 24 && Word64(0) == 0;
    assert Bytes64(24) == [0, 0, 0, 0, 0, 0, 0, 0x18] && Bytes64(0) == [0, 0, 0, 0, 0, 0, 0, 0];
    hide Bytes64, Word64;
  }

  lemma WordOfBlock(b: seq<bv8>, t: nat)
    requires IsBlock(b) && t < 16
    ensures Schedule(Ops512, b, t) == if t == 0 then 0x6162638000000000 else if t == 15 then 0x0000000000000018 else 0
  {
    var s := b[8 * t..8 * t + 8];
    assert forall i :: 0 <= i < 8 ==> s[i] == b[8 * t + i];
    LoadsAre();
    hide LoadBE64;
    if 0 < t < 15 { assert s == [0, 0, 0, 0, 0, 0, 0, 0]; }
    if t == 0 { assert s == [0x61, 0x62, 0x63, 0x80, 0x00, 0x00, 0x00, 0x00]; }
    if t == 15 { assert s == [0, 0, 0, 0, 0, 0, 0, 0x18]; }
  }

  lemma LoadsAre()
    ensures LoadBE64([0, 0, 0, 0, 0, 0, 0, 0]) == 0
    ensures LoadBE64([0x61, 0x62, 0x63, 0x80, 0, 0, 0, 0]) == 0x6162638000000000 && LoadBE64([0, 0, 0, 0, 0, 0, 0, 0x18]) == 0x0000000000000018
  {
  }

  // The same with rotations, for literals.

  function RotBig0(x: bv64): bv64 { x.RotateRight(28) ^ x.RotateRight(34) ^ x.RotateRight(39) }

  function RotBig1(x: bv64): bv64 { x.RotateRight(14) ^ x.RotateRight(18) ^ x.RotateRight(41) }

  function Rot0(x: bv64): bv64 { x.RotateRight(1) ^ x.RotateRight(8) ^ (x >> 7) }

  function Rot1(x: bv64): bv64 { x.RotateRight(19) ^ x.RotateRight(61) ^ (x >> 6) }

  function NextRegs(r: Regs<bv64>, k: bv64, w: bv64): Regs<bv64> {
    var t1 := Add64(Add64(Add64(Add64(r.h, RotBig1(r.e)), Ch64(r.e, r.f, r.g)), k), w);
    Regs(Add64(t1, Add64(RotBig0(r.a), Maj64(r.a, r.b, r.c))), r.a, r.b, r.c, Add64(r.d, t1), r.e, r.f, r.g)
  }

  function NextWord(w2: bv64, w7: bv64, w15: bv64, w16: bv64): bv64 {
    Add64(Add64(Add64(Rot1(w2), w7), Rot0(w15)), w16)
  }

  lemma RotsAre(x: bv64)
    ensures BigSigma0_512(x) == RotBig0(x) && BigSigma1_512(x) == RotBig1(x) && Sigma0_512(x) == Rot0(x) && Sigma1_512(x) == Rot1(x)
  {
    hide BigSigma0_512, BigSigma1_512, Sigma0_512, Sigma1_512;
    SigmasAre(x);
  }

  lemma RoundIs(r: Regs<bv64>, k: bv64, w: bv64)
    ensures Round(Ops512, r, k, w) == NextRegs(r, k, w)
  {
    hide BigSigma0_512, BigSigma1_512, RotBig0, RotBig1, Add64, Ch64, Maj64;
    RotsAre(r.a);
    RotsAre(r.e);
  }

  lemma Word(b: seq<bv8>, t: nat, w2: bv64, w7: bv64, w15: bv64, w16: bv64, w: bv64)
    requires IsBlock(b) && t >= 16 && Schedule(Ops512, b, t - 2) == w2 && Schedule(Ops512, b, t - 7) == w7
    requires Schedule(Ops512, b, t - 15) == w15 && Schedule(Ops512, b, t - 16) == w16 && NextWord(w2, w7, w15, w16) == w
    ensures Schedule(Ops512, b, t) == w
  {
    hide Sigma0_512, Sigma1_512, Rot0, Rot1, LoadBE64, Add64;
    RotsAre(w2);
    RotsAre(w15);
  }

  lemma WordsFrom0(b: seq<bv8>)
    requires IsBlock(b)
    ensures Schedule(Ops512, b, 0) == 0x6162638000000000 && Schedule(Ops512, b, 1) == 0x0000000000000000 && Schedule(Ops512, b, 2) == 0x0000000000000000 && Schedule(Ops512, b, 3) == 0x0000000000000000
    ensures Schedule(Ops512, b, 4) == 0x0000000000000000 && Schedule(Ops512, b, 5) == 0x0000000000000000 && Schedule(Ops512, b, 6) == 0x0000000000000000 && Schedule(Ops512, b, 7) == 0x0000000000000000
  {
    hide Schedule, IsBlock;
    WordOfBlock(b, 0);
    WordOfBlock(b, 1);
    WordOfBlock(b, 2);
    WordOfBlock(b, 3);
    WordOfBlock(b, 4);
    WordOfBlock(b, 5);
    WordOfBlock(b, 6);
    WordOfBlock(b, 7);
  }

  lemma WordsFrom8(b: seq<bv8>)
    requires IsBlock(b)
    ensures Schedule(Ops512, b, 8) == 0x0000000000000000 && Schedule(Ops512, b, 9) == 0x0000000000000000 && Schedule(Ops512, b, 10) == 0x0000000000000000 && Schedule(Ops512, b, 11) == 0x0000000000000000
    ensures Schedule(Ops512, b, 12) == 0x0000000000000000 && Schedule(Ops512, b, 13) == 0x0000000000000000 && Schedule(Ops512, b, 14) == 0x0000000000000000 && Schedule(Ops512, b, 15) == 0x0000000000000018
  {
    hide Schedule, IsBlock;
    WordOfBlock(b, 8);
    WordOfBlock(b, 9);
    WordOfBlock(b, 10);
    WordOfBlock(b, 11);
    WordOfBlock(b, 12);
    WordOfBlock(b, 13);
    WordOfBlock(b, 14);
    WordOfBlock(b, 15);
  }

  lemma WordsFrom16(b: seq<bv8>)
    requires IsBlock(b)
    ensures Schedule(Ops512, b, 16) == 0x6162638000000000 && Schedule(Ops512, b, 17) == 0x00030000000000c0 && Schedule(Ops512, b, 18) == 0x0a9699a24c700003 && Schedule(Ops512, b, 19) == 0x00000c0060000603
    ensures Schedule(Ops512, b, 20) == 0x549ef62639858996 && Schedule(Ops512, b, 21) == 0x00c0003300003c00 && Schedule(Ops512, b, 22) == 0x1497007a8a0e9dbc && Schedule(Ops512, b, 23) == 0x62e56500cc0780f0
  {
    hide Schedule, IsBlock;
    WordsFrom0(b);
    WordsFrom8(b);
    Word(b, 16, 0x0000000000000000, 0x0000000000000000, 0x0000000000000000, 0x6162638000000000, 0x6162638000000000);
    Word(b, 17, 0x0000000000000018, 0x0000000000000000, 0x0000000000000000, 0x0000000000000000, 0x00030000000000c0);
    Word(b, 18, 0x6162638000000000, 0x0000000000000000, 0x0000000000000000, 0x0000000000000000, 0x0a9699a24c700003);
    Word(b, 19, 0x00030000000000c0, 0x0000000000000000, 0x0000000000000000, 0x0000000000000000, 0x00000c0060000603);
    Word(b, 20, 0x0a9699a24c700003, 0x0000000000000000, 0x0000000000000000, 0x0000000000000000, 0x549ef62639858996);
    Word(b, 21, 0x00000c0060000603, 0x0000000000000000, 0x0000000000000000, 0x0000000000000000, 0x00c0003300003c00);
    Word(b, 22, 0x549ef62639858996, 0x0000000000000018, 0x0000000000000000, 0x0000000000000000, 0x1497007a8a0e9dbc);
    Word(b, 23, 0x00c0003300003c00, 0x6162638000000000, 0x0000000000000000, 0x0000000000000000, 0x62e56500cc0780f0);
  }

  lemma WordsFrom24(b: seq<bv8>)
    requires IsBlock(b)
    ensures Schedule(Ops512, b, 24) == 0x7760dd475a538797 && Schedule(Ops512, b, 25) == 0xf1554b711c1c0003 && Schedule(Ops512, b, 26) == 0xca2993a4345d9ff2 && Schedule(Ops512, b, 27) == 0x5e0e66b5c783dd32
    ensures Schedule(Ops512, b, 28) == 0xe25a625d00494b62 && Schedule(Ops512, b, 29) == 0x9f44486fb1e4fbd2 && Schedule(Ops512, b, 30) == 0xb31b8c2b06085f2f && Schedule(Ops512, b, 31) == 0x0e987660934142f6
  {
    hide Schedule, IsBlock;
    WordsFrom8(b);
    WordsFrom16(b);
    Word(b, 24, 0x1497007a8a0e9dbc, 0x00030000000000c0, 0x0000000000000000, 0x0000000000000000, 0x7760dd475a538797);
    Word(b, 25, 0x62e56500cc0780f0, 0x0a9699a24c700003, 0x0000000000000000, 0x0000000000000000, 0xf1554b711c1c0003);
    Word(b, 26, 0x7760dd475a538797, 0x00000c0060000603, 0x0000000000000000, 0x0000000000000000, 0xca2993a4345d9ff2);
    Word(b, 27, 0xf1554b711c1c0003, 0x549ef62639858996, 0x0000000000000000, 0x0000000000000000, 0x5e0e66b5c783dd32);
    Word(b, 28, 0xca2993a4345d9ff2, 0x00c0003300003c00, 0x0000000000000000, 0x0000000000000000, 0xe25a625d00494b62);
    Word(b, 29, 0x5e0e66b5c783dd32, 0x1497007a8a0e9dbc, 0x0000000000000000, 0x0000000000000000, 0x9f44486fb1e4fbd2);
    Word(b, 30, 0xe25a625d00494b62, 0x62e56500cc0780f0, 0x0000000000000018, 0x0000000000000000, 0xb31b8c2b06085f2f);
    Word(b, 31, 0x9f44486fb1e4fbd2, 0x7760dd475a538797, 0x6162638000000000, 0x0000000000000018, 0x0e987660934142f6);
  }

  lemma WordsFrom32(b: seq<bv8>)
    requires IsBlock(b)
    ensures Schedule(Ops512, b, 32) == 0xa4af2cfd09fbb924 && Schedule(Ops512, b, 33) == 0xad289e2e0bd53186 && Schedule(Ops512, b, 34) == 0x3c74563aa2f9673e && Schedule(Ops512, b, 35) == 0x6ccdcd14cc14b53f
    ensures Schedule(Ops512, b, 36) == 0xc3f925b337f22bde && Schedule(Ops512, b, 37) == 0x5bcc77a75ad95b54 && Schedule(Ops512, b, 38) == 0x3ec2257adca09a52 && Schedule(Ops512, b, 39) == 0x28246960001fc5eb
  {
    hide Schedule, IsBlock;
    WordsFrom16(b);
    WordsFrom24(b);
    Word(b, 32, 0xb31b8c2b06085f2f, 0xf1554b711c1c0003, 0x00030000000000c0, 0x6162638000000000, 0xa4af2cfd09fbb924);
    Word(b, 33, 0x0e987660934142f6, 0xca2993a4345d9ff2, 0x0a9699a24c700003, 0x00030000000000c0, 0xad289e2e0bd53186);
    Word(b, 34, 0xa4af2cfd09fbb924, 0x5e0e66b5c783dd32, 0x00000c0060000603, 0x0a9699a24c700003, 0x3c74563aa2f9673e);
    Word(b, 35, 0xad289e2e0bd53186, 0xe25a625d00494b62, 0x549ef62639858996, 0x00000c0060000603, 0x6ccdcd14cc14b53f);
    Word(b, 36, 0x3c74563aa2f9673e, 0x9f44486fb1e4fbd2, 0x00c0003300003c00, 0x549ef62639858996, 0xc3f925b337f22bde);
    Word(b, 37, 0x6ccdcd14cc14b53f, 0xb31b8c2b06085f2f, 0x1497007a8a0e9dbc, 0x00c0003300003c00, 0x5bcc77a75ad95b54);
    Word(b, 38, 0xc3f925b337f22bde, 0x0e987660934142f6, 0x62e56500cc0780f0, 0x1497007a8a0e9dbc, 0x3ec2257adca09a52);
    Word(b, 39, 0x5bcc77a75ad95b54, 0xa4af2cfd09fbb924, 0x7760dd475a538797, 0x62e56500cc0780f0, 0x28246960001fc5eb);
  }

  lemma WordsFrom40(b: seq<bv8>)
    requires IsBlock(b)
    ensures Schedule(Ops512, b, 40) == 0x04e33a75ce2be88a && Schedule(Ops512, b, 41) == 0x7d5314b3c359e0e7 && Schedule(Ops512, b, 42) == 0xaef7a285ff251266 && Schedule(Ops512, b, 43) == 0x0b8472581deea04f
    ensures Schedule(Ops512, b, 44) == 0xb174e26eddc7b033 && Schedule(Ops512, b, 45) == 0x5d63bae58ddd88de && Schedule(Ops512, b, 46) == 0x4c044007b744ccbb && Schedule(Ops512, b, 47) == 0xe6a9aa4d74dc7d43
  {
    hide Schedule, IsBlock;
    WordsFrom24(b);
    WordsFrom32(b);
    Word(b, 40, 0x3ec2257adca09a52, 0xad289e2e0bd53186, 0xf1554b711c1c0003, 0x7760dd475a538797, 0x04e33a75ce2be88a);
    Word(b, 41, 0x28246960001fc5eb, 0x3c74563aa2f9673e, 0xca2993a4345d9ff2, 0xf1554b711c1c0003, 0x7d5314b3c359e0e7);
    Word(b, 42, 0x04e33a75ce2be88a, 0x6ccdcd14cc14b53f, 0x5e0e66b5c783dd32, 0xca2993a4345d9ff2, 0xaef7a285ff251266);
    Word(b, 43, 0x7d5314b3c359e0e7, 0xc3f925b337f22bde, 0xe25a625d00494b62, 0x5e0e66b5c783dd32, 0x0b8472581deea04f);
    Word(b, 44, 0xaef7a285ff251266, 0x5bcc77a75ad95b54, 0x9f44486fb1e4fbd2, 0xe25a625d00494b62, 0xb174e26eddc7b033);
    Word(b, 45, 0x0b8472581deea04f, 0x3ec2257adca09a52, 0xb31b8c2b06085f2f, 0x9f44486fb1e4fbd2, 0x5d63bae58ddd88de);
    Word(b, 46, 0xb174e26eddc7b033, 0x28246960001fc5eb, 0x0e987660934142f6, 0xb31b8c2b06085f2f, 0x4c044007b744ccbb);
    Word(b, 47, 0x5d63bae58ddd88de, 0x04e33a75ce2be88a, 0xa4af2cfd09fbb924, 0x0e987660934142f6, 0xe6a9aa4d74dc7d43);
  }

  lemma WordsFrom48(b: seq<bv8>)
    requires IsBlock(b)
    ensures Schedule(Ops512, b, 48) == 0xebeaf1237248019c && Schedule(Ops512, b, 49) == 0x361e80b2d00f3193 && Schedule(Ops512, b, 50) == 0x2e9839125df3b175 && Schedule(Ops512, b, 51) == 0x3319629293ad5363
    ensures Schedule(Ops512, b, 52) == 0x9cbc5d89ac1b89d5 && Schedule(Ops512, b, 53) == 0x275e23ffeeca50b7 && Schedule(Ops512, b, 54) == 0x3b80d680bf69ef58 && Schedule(Ops512, b, 55) == 0x0d0696933945a125
  {
    hide Schedule, IsBlock;
    WordsFrom32(b);
    WordsFrom40(b);
    Word(b, 48, 0x4c044007b744ccbb, 0x7d5314b3c359e0e7, 0xad289e2e0bd53186, 0xa4af2cfd09fbb924, 0xebeaf1237248019c);
    Word(b, 49, 0xe6a9aa4d74dc7d43, 0xaef7a285ff251266, 0x3c74563aa2f9673e, 0xad289e2e0bd53186, 0x361e80b2d00f3193);
    Word(b, 50, 0xebeaf1237248019c, 0x0b8472581deea04f, 0x6ccdcd14cc14b53f, 0x3c74563aa2f9673e, 0x2e9839125df3b175);
    Word(b, 51, 0x361e80b2d00f3193, 0xb174e26eddc7b033, 0xc3f925b337f22bde, 0x6ccdcd14cc14b53f, 0x3319629293ad5363);
    Word(b, 52, 0x2e9839125df3b175, 0x5d63bae58ddd88de, 0x5bcc77a75ad95b54, 0xc3f925b337f22bde, 0x9cbc5d89ac1b89d5);
    Word(b, 53, 0x3319629293ad5363, 0x4c044007b744ccbb, 0x3ec2257adca09a52, 0x5bcc77a75ad95b54, 0x275e23ffeeca50b7);
    Word(b, 54, 0x9cbc5d89ac1b89d5, 0xe6a9aa4d74dc7d43, 0x28246960001fc5eb, 0x3ec2257adca09a52, 0x3b80d680bf69ef58);
    Word(b, 55, 0x275e23ffeeca50b7, 0xebeaf1237248019c, 0x04e33a75ce2be88a, 0x28246960001fc5eb, 0x0d0696933945a125);
  }

  lemma WordsFrom56(b: seq<bv8>)
    requires IsBlock(b)
    ensures Schedule(Ops512, b, 56) == 0x7533eabcb786ff00 && Schedule(Ops512, b, 57) == 0xb89826cee6fbf0e5 && Schedule(Ops512, b, 58) == 0x249b4fbcad623e9f && Schedule(Ops512, b, 59) == 0x4aea9df2b02d6f1e
    ensures Schedule(Ops512, b, 60) == 0x2cc57475a55e8d8f && Schedule(Ops512, b, 61) == 0xb2574ae938d8be89 && Schedule(Ops512, b, 62) == 0xc1b35a57b16d6aea && Schedule(Ops512, b, 63) == 0xcc4918b5949206bb
  {
    hide Schedule, IsBlock;
    WordsFrom40(b);
    WordsFrom48(b);
    Word(b, 56, 0x3b80d680bf69ef58, 0x361e80b2d00f3193, 0x7d5314b3c359e0e7, 0x04e33a75ce2be88a, 0x7533eabcb786ff00);
    Word(b, 57, 0x0d0696933945a125, 0x2e9839125df3b175, 0xaef7a285ff251266, 0x7d5314b3c359e0e7, 0xb89826cee6fbf0e5);
    Word(b, 58, 0x7533eabcb786ff00, 0x3319629293ad5363, 0x0b8472581deea04f, 0xaef7a285ff251266, 0x249b4fbcad623e9f);
    Word(b, 59, 0xb89826cee6fbf0e5, 0x9cbc5d89ac1b89d5, 0xb174e26eddc7b033, 0x0b8472581deea04f, 0x4aea9df2b02d6f1e);
    Word(b, 60, 0x249b4fbcad623e9f, 0x275e23ffeeca50b7, 0x5d63bae58ddd88de, 0xb174e26eddc7b033, 0x2cc57475a55e8d8f);
    Word(b, 61, 0x4aea9df2b02d6f1e, 0x3b80d680bf69ef58, 0x4c044007b744ccbb, 0x5d63bae58ddd88de, 0xb2574ae938d8be89);
    Word(b, 62, 0x2cc57475a55e8d8f, 0x0d0696933945a125, 0xe6a9aa4d74dc7d43, 0x4c044007b744ccbb, 0xc1b35a57b16d6aea);
    Word(b, 63, 0xb2574ae938d8be89, 0x7533eabcb786ff00, 0xebeaf1237248019c, 0xe6a9aa4d74dc7d43, 0xcc4918b5949206bb);
  }

  lemma WordsFrom64(b: seq<bv8>)
    requires IsBlock(b)
    ensures Schedule(Ops512, b, 64) == 0x5099c3add79f90ec && Schedule(Ops512, b, 65) == 0x5ea81d78e7660bf1 && Schedule(Ops512, b, 66) == 0xebee6267405ac2a9 && Schedule(Ops512, b, 67) == 0xb01f21926108a4ab
    ensures Schedule(Ops512, b, 68) == 0x786433dd2fe65556 && Schedule(Ops512, b, 69) == 0xc54a6eaa24a0552c && Schedule(Ops512, b, 70) == 0xb3c8f1530bdbaa9e && Schedule(Ops512, b, 71) == 0xbb8abfe56f469338
  {
    hide Schedule, IsBlock;
    WordsFrom48(b);
    WordsFrom56(b);
    Word(b, 64, 0xc1b35a57b16d6aea, 0xb89826cee6fbf0e5, 0x361e80b2d00f3193, 0xebeaf1237248019c, 0x5099c3add79f90ec);
    Word(b, 65, 0xcc4918b5949206bb, 0x249b4fbcad623e9f, 0x2e9839125df3b175, 0x361e80b2d00f3193, 0x5ea81d78e7660bf1);
    Word(b, 66, 0x5099c3add79f90ec, 0x4aea9df2b02d6f1e, 0x3319629293ad5363, 0x2e9839125df3b175, 0xebee6267405ac2a9);
    Word(b, 67, 0x5ea81d78e7660bf1, 0x2cc57475a55e8d8f, 0x9cbc5d89ac1b89d5, 0x3319629293ad5363, 0xb01f21926108a4ab);
    Word(b, 68, 0xebee6267405ac2a9, 0xb2574ae938d8be89, 0x275e23ffeeca50b7, 0x9cbc5d89ac1b89d5, 0x786433dd2fe65556);
    Word(b, 69, 0xb01f21926108a4ab, 0xc1b35a57b16d6aea, 0x3b80d680bf69ef58, 0x275e23ffeeca50b7, 0xc54a6eaa24a0552c);
    Word(b, 70, 0x786433dd2fe65556, 0xcc4918b5949206bb, 0x0d0696933945a125, 0x3b80d680bf69ef58, 0xb3c8f1530bdbaa9e);
    Word(b, 71, 0xc54a6eaa24a0552c, 0x5099c3add79f90ec, 0x7533eabcb786ff00, 0x0d0696933945a125, 0xbb8abfe56f469338);
  }

  lemma WordsFrom72(b: seq<bv8>)
    requires IsBlock(b)
    ensures Schedule(Ops512, b, 72) == 0xf63d4265cc1c5a78 && Schedule(Ops512, b, 73) == 0xbe8355ea73129afb && Schedule(Ops512, b, 74) == 0x49e2db8ebdcfbeb5 && Schedule(Ops512, b, 75) == 0x82269d4a883a3d99
    ensures Schedule(Ops512, b, 76) == 0xfdf53df3011f362b && Schedule(Ops512, b, 77) == 0x464af5671d71c12e && Schedule(Ops512, b, 78) == 0xe449b68198ec611c && Schedule(Ops512, b, 79) == 0x92aeeed1a7bcf7d2
  {
    hide Schedule, IsBlock;
    WordsFrom56(b);
    WordsFrom64(b);
    Word(b, 72, 0xb3c8f1530bdbaa9e, 0x5ea81d78e7660bf1, 0xb89826cee6fbf0e5, 0x7533eabcb786ff00, 0xf63d4265cc1c5a78);
    Word(b, 73, 0xbb8abfe56f469338, 0xebee6267405ac2a9, 0x249b4fbcad623e9f, 0xb89826cee6fbf0e5, 0xbe8355ea73129afb);
    Word(b, 74, 0xf63d4265cc1c5a78, 0xb01f21926108a4ab, 0x4aea9df2b02d6f1e, 0x249b4fbcad623e9f, 0x49e2db8ebdcfbeb5);
    Word(b, 75, 0xbe8355ea73129afb, 0x786433dd2fe65556, 0x2cc57475a55e8d8f, 0x4aea9df2b02d6f1e, 0x82269d4a883a3d99);
    Word(b, 76, 0x49e2db8ebdcfbeb5, 0xc54a6eaa24a0552c, 0xb2574ae938d8be89, 0x2cc57475a55e8d8f, 0xfdf53df3011f362b);
    Word(b, 77, 0x82269d4a883a3d99, 0xb3c8f1530bdbaa9e, 0xc1b35a57b16d6aea, 0xb2574ae938d8be89, 0x464af5671d71c12e);
    Word(b, 78, 0xfdf53df3011f362b, 0xbb8abfe56f469338, 0xcc4918b5949206bb, 0xc1b35a57b16d6aea, 0xe449b68198ec611c);
    Word(b, 79, 0x464af5671d71c12e, 0xf63d4265cc1c5a78, 0x5099c3add79f90ec, 0xcc4918b5949206bb, 0x92aeeed1a7bcf7d2);
  }

  lemma Turn(h: Regs<bv64>, b: seq<bv8>, t: nat, r: Regs<bv64>, k: bv64, w: bv64, next: Regs<bv64>)
    requires IsBlock(b) && Rounds(Ops512, h, b, t) == r && K512At(t) == k && Schedule(Ops512, b, t) == w
    requires NextRegs(r, k, w) == next
    ensures Rounds(Ops512, h, b, t + 1) == next
  {
    hide Round, NextRegs, Schedule, IsBlock, K512At;
    RoundIs(r, k, w);
  }

  lemma KeysFrom0()
    ensures K512At(0) == 0x428a2f98d728ae22 && K512At(1) == 0x7137449123ef65cd && K512At(2) == 0xb5c0fbcfec4d3b2f && K512At(3) == 0xe9b5dba58189dbbc
    ensures K512At(4) == 0x3956c25bf348b538 && K512At(5) == 0x59f111f1b605d019 && K512At(6) == 0x923f82a4af194f9b && K512At(7) == 0xab1c5ed5da6d8118
  {
  }

  lemma KeysFrom8()
    ensures K512At(8) == 0xd807aa98a3030242 && K512At(9) == 0x12835b0145706fbe && K512At(10) == 0x243185be4ee4b28c && K512At(11) == 0x550c7dc3d5ffb4e2
    ensures K512At(12) == 0x72be5d74f27b896f && K512At(13) == 0x80deb1fe3b1696b1 && K512At(14) == 0x9bdc06a725c71235 && K512At(15) == 0xc19bf174cf692694
  {
  }

  lemma KeysFrom16()
    ensures K512At(16) == 0xe49b69c19ef14ad2 && K512At(17) == 0xefbe4786384f25e3 && K512At(18) == 0x0fc19dc68b8cd5b5 && K512At(19) == 0x240ca1cc77ac9c65
    ensures K512At(20) == 0x2de92c6f592b0275 && K512At(21) == 0x4a7484aa6ea6e483 && K512At(22) == 0x5cb0a9dcbd41fbd4 && K512At(23) == 0x76f988da831153b5
  {
  }

  lemma KeysFrom24()
    ensures K512At(24) == 0x983e5152ee66dfab && K512At(25) == 0xa831c66d2db43210 && K512At(26) == 0xb00327c898fb213f && K512At(27) == 0xbf597fc7beef0ee4
    ensures K512At(28) == 0xc6e00bf33da88fc2 && K512At(29) == 0xd5a79147930aa725 && K512At(30) == 0x06ca6351e003826f && K512At(31) == 0x142929670a0e6e70
  {
  }

  lemma KeysFrom32()
    ensures K512At(32) == 0x27b70a8546d22ffc && K512At(33) == 0x2e1b21385c26c926 && K512At(34) == 0x4d2c6dfc5ac42aed && K512At(35) == 0x53380d139d95b3df
    ensures K512At(36) == 0x650a73548baf63de && K512At(37) == 0x766a0abb3c77b2a8 && K512At(38) == 0x81c2c92e47edaee6 && K512At(39) == 0x92722c851482353b
  {
  }

  lemma KeysFrom40()
    ensures K512At(40) == 0xa2bfe8a14cf10364 && K512At(41) == 0xa81a664bbc423001 && K512At(42) == 0xc24b8b70d0f89791 && K512At(43) == 0xc76c51a30654be30
    ensures K512At(44) == 0xd192e819d6ef5218 && K512At(45) == 0xd69906245565a910 && K512At(46) == 0xf40e35855771202a && K512At(47) == 0x106aa07032bbd1b8
  {
  }

  lemma KeysFrom48()
    ensures K512At(48) == 0x19a4c116b8d2d0c8 && K512At(49) == 0x1e376c085141ab53 && K512At(50) == 0x2748774cdf8eeb99 && K512At(51) == 0x34b0bcb5e19b48a8
    ensures K512At(52) == 0x391c0cb3c5c95a63 && K512At(53) == 0x4ed8aa4ae3418acb && K512At(54) == 0x5b9cca4f7763e373 && K512At(55) == 0x682e6ff3d6b2b8a3
  {
  }

  lemma KeysFrom56()
    ensures K512At(56) == 0x748f82ee5defb2fc && K512At(57) == 0x78a5636f43172f60 && K512At(58) == 0x84c87814a1f0ab72 && K512At(59) == 0x8cc702081a6439ec
    ensures K512At(60) == 0x90befffa23631e28 && K512At(61) == 0xa4506cebde82bde9 && K512At(62) == 0xbef9a3f7b2c67915 && K512At(63) == 0xc67178f2e372532b
  {
  }

  lemma KeysFrom64()
    ensures K512At(64) == 0xca273eceea26619c && K512At(65) == 0xd186b8c721c0c207 && K512At(66) == 0xeada7dd6cde0eb1e && K512At(67) == 0xf57d4f7fee6ed178
    ensures K512At(68) == 0x06f067aa72176fba && K512At(69) == 0x0a637dc5a2c898a6 && K512At(70) == 0x113f9804bef90dae && K512At(71) == 0x1b710b35131c471b
  {
  }

  lemma KeysFrom72()
    ensures K512At(72) == 0x28db77f523047d84 && K512At(73) == 0x32caab7b40c72493 && K512At(74) == 0x3c9ebe0a15c9bebc && K512At(75) == 0x431d67c49c100d4c
    ensures K512At(76) == 0x4cc5d4becb3e42b6 && K512At(77) == 0x597f299cfc657e2a && K512At(78) == 0x5fcb6fab3ad6faec && K512At(79) == 0x6c44198c4a475817
  {
  }

  lemma FirstWords8(r: Regs<bv64>)
    ensures BigEndian(Ops512, Words(r)[..8]) ==
      Bytes64(r.a) + Bytes64(r.b) + Bytes64(r.c) + Bytes64(r.d) + Bytes64(r.e) + Bytes64(r.f) + Bytes64(r.g) + Bytes64(r.h)
  {
    hide Bytes64, BigEndian;
    var w := Words(r)[..8];
    OneWord(w[0..]);
    OneWord(w[1..]);
    OneWord(w[2..]);
    OneWord(w[3..]);
    OneWord(w[4..]);
    OneWord(w[5..]);
    OneWord(w[6..]);
    OneWord(w[7..]);
    NoWord();
    assert w[0..] == w && w[8..] == [];
    assert w[0..][1..] == w[1..] && w[0..][0] == r.a;
    assert w[1..][1..] == w[2..] && w[1..][0] == r.b;
    assert w[2..][1..] == w[3..] && w[2..][0] == r.c;
    assert w[3..][1..] == w[4..] && w[3..][0] == r.d;
    assert w[4..][1..] == w[5..] && w[4..][0] == r.e;
    assert w[5..][1..] == w[6..] && w[5..][0] == r.f;
    assert w[6..][1..] == w[7..] && w[6..][0] == r.g;
    assert w[7..][1..] == w[8..] && w[7..][0] == r.h;
    Grouped8(Bytes64(r.a), Bytes64(r.b), Bytes64(r.c), Bytes64(r.d), Bytes64(r.e), Bytes64(r.f), Bytes64(r.g), Bytes64(r.h));
  }

  lemma Grouped8(a: seq<bv8>, b: seq<bv8>, c: seq<bv8>, d: seq<bv8>, e: seq<bv8>, f: seq<bv8>, g: seq<bv8>, h: seq<bv8>)
    ensures a + (b + (c + (d + (e + (f + (g + (h + []))))))) == a + b + c + d + e + f + g + h
  {
  }

  lemma FirstWords6(r: Regs<bv64>)
    ensures BigEndian(Ops512, Words(r)[..6]) ==
      Bytes64(r.a) + Bytes64(r.b) + Bytes64(r.c) + Bytes64(r.d) + Bytes64(r.e) + Bytes64(r.f)
  {
    hide Bytes64, BigEndian;
    var w := Words(r)[..6];
    OneWord(w[0..]);
    OneWord(w[1..]);
    OneWord(w[2..]);
    OneWord(w[3..]);
    OneWord(w[4..]);
    OneWord(w[5..]);
    NoWord();
    assert w[0..] == w && w[6..] == [];
    assert w[0..][1..] == w[1..] && w[0..][0] == r.a;
    assert w[1..][1..] == w[2..] && w[1..][0] == r.b;
    assert w[2..][1..] == w[3..] && w[2..][0] == r.c;
    assert w[3..][1..] == w[4..] && w[3..][0] == r.d;
    assert w[4..][1..] == w[5..] && w[4..][0] == r.e;
    assert w[5..][1..] == w[6..] && w[5..][0] == r.f;
    Grouped6(Bytes64(r.a), Bytes64(r.b), Bytes64(r.c), Bytes64(r.d), Bytes64(r.e), Bytes64(r.f));
  }

  lemma Grouped6(a: seq<bv8>, b: seq<bv8>, c: seq<bv8>, d: seq<bv8>, e: seq<bv8>, f: seq<bv8>)
    ensures a + (b + (c + (d + (e + (f + []))))) == a + b + c + d + e + f
  {
  }

  lemma NoWord()
    ensures BigEndian(Ops512, []) == []
  {
  }

  lemma BlockLengthOf(b: seq<bv8>)
    requires IsBlock(b)
    ensures |b| == BlockLength(Ops512)
  {
  }

  lemma OneWord(w: seq<bv64>)
    requires w != []
    ensures BigEndian(Ops512, w) == Bytes64(w[0]) + BigEndian(Ops512, w[1..])
  {
    hide Bytes64;
  }

  lemma Sha512After0(b: seq<bv8>)
    requires IsBlock(b)
    ensures Rounds(Ops512, FromWords(INITIAL_512), b, 0) ==
      Regs(0x6a09e667f3bcc908, 0xbb67ae8584caa73b, 0x3c6ef372fe94f82b, 0xa54ff53a5f1d36f1, 0x510e527fade682d1, 0x9b05688c2b3e6c1f, 0x1f83d9abfb41bd6b, 0x5be0cd19137e2179)
  {
  }

  lemma Sha512After8(b: seq<bv8>)
    requires IsBlock(b)
    ensures Rounds(Ops512, FromWords(INITIAL_512), b, 8) ==
      Regs(0x8093d195e0054fa3, 0xc4875b0c7abc076b, 0xaf573b02403e89cd, 0xb680953951604860, 0x86f67263a0f0ec0a, 0x5a6c781f54dcc00c, 0x96f60209b6dc35ba, 0x745aca4a342ed2e2)
  {
    hide Schedule, Rounds, IsBlock, K512At;
    KeysFrom0();
    Sha512After0(b);
    WordsFrom0(b);
    var r0 := Regs(0x6a09e667f3bcc908, 0xbb67ae8584caa73b, 0x3c6ef372fe94f82b, 0xa54ff53a5f1d36f1, 0x510e527fade682d1, 0x9b05688c2b3e6c1f, 0x1f83d9abfb41bd6b, 0x5be0cd19137e2179);
    var r1 := Regs(0xf6afceb8bcfcddf5, 0x6a09e667f3bcc908, 0xbb67ae8584caa73b, 0x3c6ef372fe94f82b, 0x58cb02347ab51f91, 0x510e527fade682d1, 0x9b05688c2b3e6c1f, 0x1f83d9abfb41bd6b);
    Turn(FromWords(INITIAL_512), b, 0, r0, 0x428a2f98d728ae22, 0x6162638000000000, r1);
    var r2 := Regs(0x1320f8c9fb872cc0, 0xf6afceb8bcfcddf5, 0x6a09e667f3bcc908, 0xbb67ae8584caa73b, 0xc3d4ebfd48650ffa, 0x58cb02347ab51f91, 0x510e527fade682d1, 0x9b05688c2b3e6c1f);
    Turn(FromWords(INITIAL_512), b, 1, r1, 0x7137449123ef65cd, 0x0000000000000000, r2);
    var r3 := Regs(0xebcffc07203d91f3, 0x1320f8c9fb872cc0, 0xf6afceb8bcfcddf5, 0x6a09e667f3bcc908, 0xdfa9b239f2697812, 0xc3d4ebfd48650ffa, 0x58cb02347ab51f91, 0x510e527fade682d1);
    Turn(FromWords(INITIAL_512), b, 2, r2, 0xb5c0fbcfec4d3b2f, 0x0000000000000000, r3);
    var r4 := Regs(0x5a83cb3e80050e82, 0xebcffc07203d91f3, 0x1320f8c9fb872cc0, 0xf6afceb8bcfcddf5, 0x0b47b4bb1928990e, 0xdfa9b239f2697812, 0xc3d4ebfd48650ffa, 0x58cb02347ab51f91);
    Turn(FromWords(INITIAL_512), b, 3, r3, 0xe9b5dba58189dbbc, 0x0000000000000000, r4);
    var r5 := Regs(0xb680953951604860, 0x5a83cb3e80050e82, 0xebcffc07203d91f3, 0x1320f8c9fb872cc0, 0x745aca4a342ed2e2, 0x0b47b4bb1928990e, 0xdfa9b239f2697812, 0xc3d4ebfd48650ffa);
    Turn(FromWords(INITIAL_512), b, 4, r4, 0x3956c25bf348b538, 0x0000000000000000, r5);
    var r6 := Regs(0xaf573b02403e89cd, 0xb680953951604860, 0x5a83cb3e80050e82, 0xebcffc07203d91f3, 0x96f60209b6dc35ba, 0x745aca4a342ed2e2, 0x0b47b4bb1928990e, 0xdfa9b239f2697812);
    Turn(FromWords(INITIAL_512), b, 5, r5, 0x59f111f1b605d019, 0x0000000000000000, r6);
    var r7 := Regs(0xc4875b0c7abc076b, 0xaf573b02403e89cd, 0xb680953951604860, 0x5a83cb3e80050e82, 0x5a6c781f54dcc00c, 0x96f60209b6dc35ba, 0x745aca4a342ed2e2, 0x0b47b4bb1928990e);
    Turn(FromWords(INITIAL_512), b, 6, r6, 0x923f82a4af194f9b, 0x0000000000000000, r7);
    var r8 := Regs(0x8093d195e0054fa3, 0xc4875b0c7abc076b, 0xaf573b02403e89cd, 0xb680953951604860, 0x86f67263a0f0ec0a, 0x5a6c781f54dcc00c, 0x96f60209b6dc35ba, 0x745aca4a342ed2e2);
    Turn(FromWords(INITIAL_512), b, 7, r7, 0xab1c5ed5da6d8118, 0x0000000000000000, r8);
  }

  lemma Sha512After16(b: seq<bv8>)
    requires IsBlock(b)
    ensures Rounds(Ops512, FromWords(INITIAL_512), b, 16) ==
      Regs(0x0ae07c86b1181c75, 0xfa967eed85a08028, 0x44249631255d2ca0, 0x5e41214388186c14, 0xa77b7c035dd4c161, 0x874bfe5f6aae9f2f, 0x860acf9effba6f61, 0xcdf3bff2883fc9d9)
  {
    hide Schedule, Rounds, IsBlock, K512At;
    KeysFrom8();
    Sha512After8(b);
    WordsFrom8(b);
    var r8 := Regs(0x8093d195e0054fa3, 0xc4875b0c7abc076b, 0xaf573b02403e89cd, 0xb680953951604860, 0x86f67263a0f0ec0a, 0x5a6c781f54dcc00c, 0x96f60209b6dc35ba, 0x745aca4a342ed2e2);
    var r9 := Regs(0xf1eca5544cb89225, 0x8093d195e0054fa3, 0xc4875b0c7abc076b, 0xaf573b02403e89cd, 0xd0403c398fc40002, 0x86f67263a0f0ec0a, 0x5a6c781f54dcc00c, 0x96f60209b6dc35ba);
    Turn(FromWords(INITIAL_512), b, 8, r8, 0xd807aa98a3030242, 0x0000000000000000, r9);
    var r10 := Regs(0x81782d4a5db48f03, 0xf1eca5544cb89225, 0x8093d195e0054fa3, 0xc4875b0c7abc076b, 0x00091f460be46c52, 0xd0403c398fc40002, 0x86f67263a0f0ec0a, 0x5a6c781f54dcc00c);
    Turn(FromWords(INITIAL_512), b, 9, r9, 0x12835b0145706fbe, 0x0000000000000000, r10);
    var r11 := Regs(0x69854c4aa0f25b59, 0x81782d4a5db48f03, 0xf1eca5544cb89225, 0x8093d195e0054fa3, 0xd375471bde1ba3f4, 0x00091f460be46c52, 0xd0403c398fc40002, 0x86f67263a0f0ec0a);
    Turn(FromWords(INITIAL_512), b, 10, r10, 0x243185be4ee4b28c, 0x0000000000000000, r11);
    var r12 := Regs(0xdb0a9963f80c2eaa, 0x69854c4aa0f25b59, 0x81782d4a5db48f03, 0xf1eca5544cb89225, 0x475975b91a7a462c, 0xd375471bde1ba3f4, 0x00091f460be46c52, 0xd0403c398fc40002);
    Turn(FromWords(INITIAL_512), b, 11, r11, 0x550c7dc3d5ffb4e2, 0x0000000000000000, r12);
    var r13 := Regs(0x5e41214388186c14, 0xdb0a9963f80c2eaa, 0x69854c4aa0f25b59, 0x81782d4a5db48f03, 0xcdf3bff2883fc9d9, 0x475975b91a7a462c, 0xd375471bde1ba3f4, 0x00091f460be46c52);
    Turn(FromWords(INITIAL_512), b, 12, r12, 0x72be5d74f27b896f, 0x0000000000000000, r13);
    var r14 := Regs(0x44249631255d2ca0, 0x5e41214388186c14, 0xdb0a9963f80c2eaa, 0x69854c4aa0f25b59, 0x860acf9effba6f61, 0xcdf3bff2883fc9d9, 0x475975b91a7a462c, 0xd375471bde1ba3f4);
    Turn(FromWords(INITIAL_512), b, 13, r13, 0x80deb1fe3b1696b1, 0x0000000000000000, r14);
    var r15 := Regs(0xfa967eed85a08028, 0x44249631255d2ca0, 0x5e41214388186c14, 0xdb0a9963f80c2eaa, 0x874bfe5f6aae9f2f, 0x860acf9effba6f61, 0xcdf3bff2883fc9d9, 0x475975b91a7a462c);
    Turn(FromWords(INITIAL_512), b, 14, r14, 0x9bdc06a725c71235, 0x0000000000000000, r15);
    var r16 := Regs(0x0ae07c86b1181c75, 0xfa967eed85a08028, 0x44249631255d2ca0, 0x5e41214388186c14, 0xa77b7c035dd4c161, 0x874bfe5f6aae9f2f, 0x860acf9effba6f61, 0xcdf3bff2883fc9d9);
    Turn(FromWords(INITIAL_512), b, 15, r15, 0xc19bf174cf692694, 0x0000000000000018, r16);
  }

  lemma Sha512After24(b: seq<bv8>)
    requires IsBlock(b)
    ensures Rounds(Ops512, FromWords(INITIAL_512), b, 24) ==
      Regs(0x4f6877b58fe55484, 0x3e2644567b709a78, 0xda34d6673d452dcf, 0x8dc5ae65569d3855, 0xc66005f87db55233, 0x0ac2b11da8f571c6, 0x8e30ff09ad488753, 0x4bb9e66d1145bfdc)
  {
    hide Schedule, Rounds, IsBlock, K512At;
    KeysFrom16();
    Sha512After16(b);
    WordsFrom16(b);
    var r16 := Regs(0x0ae07c86b1181c75, 0xfa967eed85a08028, 0x44249631255d2ca0, 0x5e41214388186c14, 0xa77b7c035dd4c161, 0x874bfe5f6aae9f2f, 0x860acf9effba6f61, 0xcdf3bff2883fc9d9);
    var r17 := Regs(0xcaf81a425d800537, 0x0ae07c86b1181c75, 0xfa967eed85a08028, 0x44249631255d2ca0, 0x2deecc6b39d64d78, 0xa77b7c035dd4c161, 0x874bfe5f6aae9f2f, 0x860acf9effba6f61);
    Turn(FromWords(INITIAL_512), b, 16, r16, 0xe49b69c19ef14ad2, 0x6162638000000000, r17);
    var r18 := Regs(0x4725be249ad19e6b, 0xcaf81a425d800537, 0x0ae07c86b1181c75, 0xfa967eed85a08028, 0xf47e8353f8047455, 0x2deecc6b39d64d78, 0xa77b7c035dd4c161, 0x874bfe5f6aae9f2f);
    Turn(FromWords(INITIAL_512), b, 17, r17, 0xefbe4786384f25e3, 0x00030000000000c0, r18);
    var r19 := Regs(0x3c4b4104168e3edb, 0x4725be249ad19e6b, 0xcaf81a425d800537, 0x0ae07c86b1181c75, 0x29695fd88d81dbd0, 0xf47e8353f8047455, 0x2deecc6b39d64d78, 0xa77b7c035dd4c161);
    Turn(FromWords(INITIAL_512), b, 18, r18, 0x0fc19dc68b8cd5b5, 0x0a9699a24c700003, r19);
    var r20 := Regs(0x9a3fb4d38ab6cf06, 0x3c4b4104168e3edb, 0x4725be249ad19e6b, 0xcaf81a425d800537, 0xf14998dd5f70767e, 0x29695fd88d81dbd0, 0xf47e8353f8047455, 0x2deecc6b39d64d78);
    Turn(FromWords(INITIAL_512), b, 19, r19, 0x240ca1cc77ac9c65, 0x00000c0060000603, r20);
    var r21 := Regs(0x8dc5ae65569d3855, 0x9a3fb4d38ab6cf06, 0x3c4b4104168e3edb, 0x4725be249ad19e6b, 0x4bb9e66d1145bfdc, 0xf14998dd5f70767e, 0x29695fd88d81dbd0, 0xf47e8353f8047455);
    Turn(FromWords(INITIAL_512), b, 20, r20, 0x2de92c6f592b0275, 0x549ef62639858996, r21);
    var r22 := Regs(0xda34d6673d452dcf, 0x8dc5ae65569d3855, 0x9a3fb4d38ab6cf06, 0x3c4b4104168e3edb, 0x8e30ff09ad488753, 0x4bb9e66d1145bfdc, 0xf14998dd5f70767e, 0x29695fd88d81dbd0);
    Turn(FromWords(INITIAL_512), b, 21, r21, 0x4a7484aa6ea6e483, 0x00c0003300003c00, r22);
    var r23 := Regs(0x3e2644567b709a78, 0xda34d6673d452dcf, 0x8dc5ae65569d3855, 0x9a3fb4d38ab6cf06, 0x0ac2b11da8f571c6, 0x8e30ff09ad488753, 0x4bb9e66d1145bfdc, 0xf14998dd5f70767e);
    Turn(FromWords(INITIAL_512), b, 22, r22, 0x5cb0a9dcbd41fbd4, 0x1497007a8a0e9dbc, r23);
    var r24 := Regs(0x4f6877b58fe55484, 0x3e2644567b709a78, 0xda34d6673d452dcf, 0x8dc5ae65569d3855, 0xc66005f87db55233, 0x0ac2b11da8f571c6, 0x8e30ff09ad488753, 0x4bb9e66d1145bfdc);
    Turn(FromWords(INITIAL_512), b, 23, r23, 0x76f988da831153b5, 0x62e56500cc0780f0, r24);
  }

  lemma Sha512After32(b: seq<bv8>)
    requires IsBlock(b)
    ensures Rounds(Ops512, FromWords(INITIAL_512), b, 32) ==
      Regs(0xff4d3f1f0d46a736, 0x4c4fbbb75f1873a6, 0x74bf40f869094c63, 0xe62349090f47d30a, 0x3cd388e119e8162e, 0x73e025d91b9efea3, 0xf0aec2fe1437f085, 0x0fcdf99710f21584)
  {
    hide Schedule, Rounds, IsBlock, K512At;
    KeysFrom24();
    Sha512After24(b);
    WordsFrom24(b);
    var r24 := Regs(0x4f6877b58fe55484, 0x3e2644567b709a78, 0xda34d6673d452dcf, 0x8dc5ae65569d3855, 0xc66005f87db55233, 0x0ac2b11da8f571c6, 0x8e30ff09ad488753, 0x4bb9e66d1145bfdc);
    var r25 := Regs(0x9aff71163fa3a940, 0x4f6877b58fe55484, 0x3e2644567b709a78, 0xda34d6673d452dcf, 0xd3ecf13769180e6f, 0xc66005f87db55233, 0x0ac2b11da8f571c6, 0x8e30ff09ad488753);
    Turn(FromWords(INITIAL_512), b, 24, r24, 0x983e5152ee66dfab, 0x7760dd475a538797, r25);
    var r26 := Regs(0x0bc5f791f8e6816b, 0x9aff71163fa3a940, 0x4f6877b58fe55484, 0x3e2644567b709a78, 0x6ddf1fd7edcce336, 0xd3ecf13769180e6f, 0xc66005f87db55233, 0x0ac2b11da8f571c6);
    Turn(FromWords(INITIAL_512), b, 25, r25, 0xa831c66d2db43210, 0xf1554b711c1c0003, r26);
    var r27 := Regs(0x884c3bc27bc4f941, 0x0bc5f791f8e6816b, 0x9aff71163fa3a940, 0x4f6877b58fe55484, 0xe6e48c9a8e948365, 0x6ddf1fd7edcce336, 0xd3ecf13769180e6f, 0xc66005f87db55233);
    Turn(FromWords(INITIAL_512), b, 26, r26, 0xb00327c898fb213f, 0xca2993a4345d9ff2, r27);
    var r28 := Regs(0xeab4a9e5771b8d09, 0x884c3bc27bc4f941, 0x0bc5f791f8e6816b, 0x9aff71163fa3a940, 0x09068a4e255a0dac, 0xe6e48c9a8e948365, 0x6ddf1fd7edcce336, 0xd3ecf13769180e6f);
    Turn(FromWords(INITIAL_512), b, 27, r27, 0xbf597fc7beef0ee4, 0x5e0e66b5c783dd32, r28);
    var r29 := Regs(0xe62349090f47d30a, 0xeab4a9e5771b8d09, 0x884c3bc27bc4f941, 0x0bc5f791f8e6816b, 0x0fcdf99710f21584, 0x09068a4e255a0dac, 0xe6e48c9a8e948365, 0x6ddf1fd7edcce336);
    Turn(FromWords(INITIAL_512), b, 28, r28, 0xc6e00bf33da88fc2, 0xe25a625d00494b62, r29);
    var r30 := Regs(0x74bf40f869094c63, 0xe62349090f47d30a, 0xeab4a9e5771b8d09, 0x884c3bc27bc4f941, 0xf0aec2fe1437f085, 0x0fcdf99710f21584, 0x09068a4e255a0dac, 0xe6e48c9a8e948365);
    Turn(FromWords(INITIAL_512), b, 29, r29, 0xd5a79147930aa725, 0x9f44486fb1e4fbd2, r30);
    var r31 := Regs(0x4c4fbbb75f1873a6, 0x74bf40f869094c63, 0xe62349090f47d30a, 0xeab4a9e5771b8d09, 0x73e025d91b9efea3, 0xf0aec2fe1437f085, 0x0fcdf99710f21584, 0x09068a4e255a0dac);
    Turn(FromWords(INITIAL_512), b, 30, r30, 0x06ca6351e003826f, 0xb31b8c2b06085f2f, r31);
    var r32 := Regs(0xff4d3f1f0d46a736, 0x4c4fbbb75f1873a6, 0x74bf40f869094c63, 0xe62349090f47d30a, 0x3cd388e119e8162e, 0x73e025d91b9efea3, 0xf0aec2fe1437f085, 0x0fcdf99710f21584);
    Turn(FromWords(INITIAL_512), b, 31, r31, 0x142929670a0e6e70, 0x0e987660934142f6, r32);
  }

  lemma Sha512After40(b: seq<bv8>)
    requires IsBlock(b)
    ensures Rounds(Ops512, FromWords(INITIAL_512), b, 40) ==
      Regs(0x8e01e125b855d225, 0xb3bb8542b3376de5, 0x002bb8e4cd989567, 0x88df85b0bbe77514, 0x0c710a47ba6a567b, 0xb49596c20feba7de, 0x66adcfa249ac7bbd, 0x8fbfd0162bbf4675)
  {
    hide Schedule, Rounds, IsBlock, K512At;
    KeysFrom32();
    Sha512After32(b);
    WordsFrom32(b);
    var r32 := Regs(0xff4d3f1f0d46a736, 0x4c4fbbb75f1873a6, 0x74bf40f869094c63, 0xe62349090f47d30a, 0x3cd388e119e8162e, 0x73e025d91b9efea3, 0xf0aec2fe1437f085, 0x0fcdf99710f21584);
    var r33 := Regs(0xa0509015ca08c8d4, 0xff4d3f1f0d46a736, 0x4c4fbbb75f1873a6, 0x74bf40f869094c63, 0xe1034573654a106f, 0x3cd388e119e8162e, 0x73e025d91b9efea3, 0xf0aec2fe1437f085);
    Turn(FromWords(INITIAL_512), b, 32, r32, 0x27b70a8546d22ffc, 0xa4af2cfd09fbb924, r33);
    var r34 := Regs(0x60d4e6995ed91fe6, 0xa0509015ca08c8d4, 0xff4d3f1f0d46a736, 0x4c4fbbb75f1873a6, 0xefabbd8bf47c041a, 0xe1034573654a106f, 0x3cd388e119e8162e, 0x73e025d91b9efea3);
    Turn(FromWords(INITIAL_512), b, 33, r33, 0x2e1b21385c26c926, 0xad289e2e0bd53186, r34);
    var r35 := Regs(0x2c59ec7743632621, 0x60d4e6995ed91fe6, 0xa0509015ca08c8d4, 0xff4d3f1f0d46a736, 0x0fbae670fa780fd3, 0xefabbd8bf47c041a, 0xe1034573654a106f, 0x3cd388e119e8162e);
    Turn(FromWords(INITIAL_512), b, 34, r34, 0x4d2c6dfc5ac42aed, 0x3c74563aa2f9673e, r35);
    var r36 := Regs(0x1a081afc59fdbc2c, 0x2c59ec7743632621, 0x60d4e6995ed91fe6, 0xa0509015ca08c8d4, 0xf098082f502b44cd, 0x0fbae670fa780fd3, 0xefabbd8bf47c041a, 0xe1034573654a106f);
    Turn(FromWords(INITIAL_512), b, 35, r35, 0x53380d139d95b3df, 0x6ccdcd14cc14b53f, r36);
    var r37 := Regs(0x88df85b0bbe77514, 0x1a081afc59fdbc2c, 0x2c59ec7743632621, 0x60d4e6995ed91fe6, 0x8fbfd0162bbf4675, 0xf098082f502b44cd, 0x0fbae670fa780fd3, 0xefabbd8bf47c041a);
    Turn(FromWords(INITIAL_512), b, 36, r36, 0x650a73548baf63de, 0xc3f925b337f22bde, r37);
    var r38 := Regs(0x002bb8e4cd989567, 0x88df85b0bbe77514, 0x1a081afc59fdbc2c, 0x2c59ec7743632621, 0x66adcfa249ac7bbd, 0x8fbfd0162bbf4675, 0xf098082f502b44cd, 0x0fbae670fa780fd3);
    Turn(FromWords(INITIAL_512), b, 37, r37, 0x766a0abb3c77b2a8, 0x5bcc77a75ad95b54, r38);
    var r39 := Regs(0xb3bb8542b3376de5, 0x002bb8e4cd989567, 0x88df85b0bbe77514, 0x1a081afc59fdbc2c, 0xb49596c20feba7de, 0x66adcfa249ac7bbd, 0x8fbfd0162bbf4675, 0xf098082f502b44cd);
    Turn(FromWords(INITIAL_512), b, 38, r38, 0x81c2c92e47edaee6, 0x3ec2257adca09a52, r39);
    var r40 := Regs(0x8e01e125b855d225, 0xb3bb8542b3376de5, 0x002bb8e4cd989567, 0x88df85b0bbe77514, 0x0c710a47ba6a567b, 0xb49596c20feba7de, 0x66adcfa249ac7bbd, 0x8fbfd0162bbf4675);
    Turn(FromWords(INITIAL_512), b, 39, r39, 0x92722c851482353b, 0x28246960001fc5eb, r40);
  }

  lemma Sha512After48(b: seq<bv8>)
    requires IsBlock(b)
    ensures Rounds(Ops512, FromWords(INITIAL_512), b, 48) ==
      Regs(0x6b69fc1bb482feac, 0xf61e672694de2d67, 0x021fbadbabab5ac6, 0xc47c9d5c7ea8a234, 0x35264334c03ac8ad, 0xc6bc35740d8daa9a, 0xe95c2a57572d64d9, 0x858d832ae0e8911c)
  {
    hide Schedule, Rounds, IsBlock, K512At;
    KeysFrom40();
    Sha512After40(b);
    WordsFrom40(b);
    var r40 := Regs(0x8e01e125b855d225, 0xb3bb8542b3376de5, 0x002bb8e4cd989567, 0x88df85b0bbe77514, 0x0c710a47ba6a567b, 0xb49596c20feba7de, 0x66adcfa249ac7bbd, 0x8fbfd0162bbf4675);
    var r41 := Regs(0xb01521dd6a6be12c, 0x8e01e125b855d225, 0xb3bb8542b3376de5, 0x002bb8e4cd989567, 0x169008b3a4bb170b, 0x0c710a47ba6a567b, 0xb49596c20feba7de, 0x66adcfa249ac7bbd);
    Turn(FromWords(INITIAL_512), b, 40, r40, 0xa2bfe8a14cf10364, 0x04e33a75ce2be88a, r41);
    var r42 := Regs(0xe96f89dd48cbd851, 0xb01521dd6a6be12c, 0x8e01e125b855d225, 0xb3bb8542b3376de5, 0xf0996439e7b50cb1, 0x169008b3a4bb170b, 0x0c710a47ba6a567b, 0xb49596c20feba7de);
    Turn(FromWords(INITIAL_512), b, 41, r41, 0xa81a664bbc423001, 0x7d5314b3c359e0e7, r42);
    var r43 := Regs(0xbc05ba8de5d3c480, 0xe96f89dd48cbd851, 0xb01521dd6a6be12c, 0x8e01e125b855d225, 0x639cb938e14dc190, 0xf0996439e7b50cb1, 0x169008b3a4bb170b, 0x0c710a47ba6a567b);
    Turn(FromWords(INITIAL_512), b, 42, r42, 0xc24b8b70d0f89791, 0xaef7a285ff251266, r43);
    var r44 := Regs(0x35d7e7f41defcbd5, 0xbc05ba8de5d3c480, 0xe96f89dd48cbd851, 0xb01521dd6a6be12c, 0xcc5100997f5710f2, 0x639cb938e14dc190, 0xf0996439e7b50cb1, 0x169008b3a4bb170b);
    Turn(FromWords(INITIAL_512), b, 43, r43, 0xc76c51a30654be30, 0x0b8472581deea04f, r44);
    var r45 := Regs(0xc47c9d5c7ea8a234, 0x35d7e7f41defcbd5, 0xbc05ba8de5d3c480, 0xe96f89dd48cbd851, 0x858d832ae0e8911c, 0xcc5100997f5710f2, 0x639cb938e14dc190, 0xf0996439e7b50cb1);
    Turn(FromWords(INITIAL_512), b, 44, r44, 0xd192e819d6ef5218, 0xb174e26eddc7b033, r45);
    var r46 := Regs(0x021fbadbabab5ac6, 0xc47c9d5c7ea8a234, 0x35d7e7f41defcbd5, 0xbc05ba8de5d3c480, 0xe95c2a57572d64d9, 0x858d832ae0e8911c, 0xcc5100997f5710f2, 0x639cb938e14dc190);
    Turn(FromWords(INITIAL_512), b, 45, r45, 0xd69906245565a910, 0x5d63bae58ddd88de, r46);
    var r47 := Regs(0xf61e672694de2d67, 0x021fbadbabab5ac6, 0xc47c9d5c7ea8a234, 0x35d7e7f41defcbd5, 0xc6bc35740d8daa9a, 0xe95c2a57572d64d9, 0x858d832ae0e8911c, 0xcc5100997f5710f2);
    Turn(FromWords(INITIAL_512), b, 46, r46, 0xf40e35855771202a, 0x4c044007b744ccbb, r47);
    var r48 := Regs(0x6b69fc1bb482feac, 0xf61e672694de2d67, 0x021fbadbabab5ac6, 0xc47c9d5c7ea8a234, 0x35264334c03ac8ad, 0xc6bc35740d8daa9a, 0xe95c2a57572d64d9, 0x858d832ae0e8911c);
    Turn(FromWords(INITIAL_512), b, 47, r47, 0x106aa07032bbd1b8, 0xe6a9aa4d74dc7d43, r48);
  }

  lemma Sha512After56(b: seq<bv8>)
    requires IsBlock(b)
    ensures Rounds(Ops512, FromWords(INITIAL_512), b, 56) ==
      Regs(0x63b460e42748817e, 0xf650857b5babda4d, 0xd63f68037ddf06aa, 0x03df11b32d42e203, 0xc6b4dd2a9931c509, 0x9ccfb31a86df0f86, 0xa6781efe1aa1ce02, 0x504f94e40591cffa)
  {
    hide Schedule, Rounds, IsBlock, K512At;
    KeysFrom48();
    Sha512After48(b);
    WordsFrom48(b);
    var r48 := Regs(0x6b69fc1bb482feac, 0xf61e672694de2d67, 0x021fbadbabab5ac6, 0xc47c9d5c7ea8a234, 0x35264334c03ac8ad, 0xc6bc35740d8daa9a, 0xe95c2a57572d64d9, 0x858d832ae0e8911c);
    var r49 := Regs(0x571f323d96b3a047, 0x6b69fc1bb482feac, 0xf61e672694de2d67, 0x021fbadbabab5ac6, 0x271580ed6c3e5650, 0x35264334c03ac8ad, 0xc6bc35740d8daa9a, 0xe95c2a57572d64d9);
    Turn(FromWords(INITIAL_512), b, 48, r48, 0x19a4c116b8d2d0c8, 0xebeaf1237248019c, r49);
    var r50 := Regs(0xca9bd862c5050918, 0x571f323d96b3a047, 0x6b69fc1bb482feac, 0xf61e672694de2d67, 0xdfe091dab182e645, 0x271580ed6c3e5650, 0x35264334c03ac8ad, 0xc6bc35740d8daa9a);
    Turn(FromWords(INITIAL_512), b, 49, r49, 0x1e376c085141ab53, 0x361e80b2d00f3193, r50);
    var r51 := Regs(0x813a43dd2c502043, 0xca9bd862c5050918, 0x571f323d96b3a047, 0x6b69fc1bb482feac, 0x07a0d8ef821c5e1a, 0xdfe091dab182e645, 0x271580ed6c3e5650, 0x35264334c03ac8ad);
    Turn(FromWords(INITIAL_512), b, 50, r50, 0x2748774cdf8eeb99, 0x2e9839125df3b175, r51);
    var r52 := Regs(0xd43f83727325dd77, 0x813a43dd2c502043, 0xca9bd862c5050918, 0x571f323d96b3a047, 0x483f80a82eaee23e, 0x07a0d8ef821c5e1a, 0xdfe091dab182e645, 0x271580ed6c3e5650);
    Turn(FromWords(INITIAL_512), b, 51, r51, 0x34b0bcb5e19b48a8, 0x3319629293ad5363, r52);
    var r53 := Regs(0x03df11b32d42e203, 0xd43f83727325dd77, 0x813a43dd2c502043, 0xca9bd862c5050918, 0x504f94e40591cffa, 0x483f80a82eaee23e, 0x07a0d8ef821c5e1a, 0xdfe091dab182e645);
    Turn(FromWords(INITIAL_512), b, 52, r52, 0x391c0cb3c5c95a63, 0x9cbc5d89ac1b89d5, r53);
    var r54 := Regs(0xd63f68037ddf06aa, 0x03df11b32d42e203, 0xd43f83727325dd77, 0x813a43dd2c502043, 0xa6781efe1aa1ce02, 0x504f94e40591cffa, 0x483f80a82eaee23e, 0x07a0d8ef821c5e1a);
    Turn(FromWords(INITIAL_512), b, 53, r53, 0x4ed8aa4ae3418acb, 0x275e23ffeeca50b7, r54);
    var r55 := Regs(0xf650857b5babda4d, 0xd63f68037ddf06aa, 0x03df11b32d42e203, 0xd43f83727325dd77, 0x9ccfb31a86df0f86, 0xa6781efe1aa1ce02, 0x504f94e40591cffa, 0x483f80a82eaee23e);
    Turn(FromWords(INITIAL_512), b, 54, r54, 0x5b9cca4f7763e373, 0x3b80d680bf69ef58, r55);
    var r56 := Regs(0x63b460e42748817e, 0xf650857b5babda4d, 0xd63f68037ddf06aa, 0x03df11b32d42e203, 0xc6b4dd2a9931c509, 0x9ccfb31a86df0f86, 0xa6781efe1aa1ce02, 0x504f94e40591cffa);
    Turn(FromWords(INITIAL_512), b, 55, r55, 0x682e6ff3d6b2b8a3, 0x0d0696933945a125, r56);
  }

  lemma Sha512After64(b: seq<bv8>)
    requires IsBlock(b)
    ensures Rounds(Ops512, FromWords(INITIAL_512), b, 64) ==
      Regs(0xab44e86276478d85, 0xa81dedbb9f19e643, 0xcfcd928c5424e2b6, 0x3857dfd2fc37d3ba, 0xcd881ee59ca6bc53, 0x84058865d60a05fa, 0x09aee5bda1644de5, 0xa6af4e9c9f807e51)
  {
    hide Schedule, Rounds, IsBlock, K512At;
    KeysFrom56();
    Sha512After56(b);
    WordsFrom56(b);
    var r56 := Regs(0x63b460e42748817e, 0xf650857b5babda4d, 0xd63f68037ddf06aa, 0x03df11b32d42e203, 0xc6b4dd2a9931c509, 0x9ccfb31a86df0f86, 0xa6781efe1aa1ce02, 0x504f94e40591cffa);
    var r57 := Regs(0x7a52912943d52b05, 0x63b460e42748817e, 0xf650857b5babda4d, 0xd63f68037ddf06aa, 0xd2e89bbd91e00be0, 0xc6b4dd2a9931c509, 0x9ccfb31a86df0f86, 0xa6781efe1aa1ce02);
    Turn(FromWords(INITIAL_512), b, 56, r56, 0x748f82ee5defb2fc, 0x7533eabcb786ff00, r57);
    var r58 := Regs(0x4b81c3aec976ea4b, 0x7a52912943d52b05, 0x63b460e42748817e, 0xf650857b5babda4d, 0x70505988124351ac, 0xd2e89bbd91e00be0, 0xc6b4dd2a9931c509, 0x9ccfb31a86df0f86);
    Turn(FromWords(INITIAL_512), b, 57, r57, 0x78a5636f43172f60, 0xb89826cee6fbf0e5, r58);
    var r59 := Regs(0x581ecb3355dcd9b8, 0x4b81c3aec976ea4b, 0x7a52912943d52b05, 0x63b460e42748817e, 0x6a3c9b0f71c8bf36, 0x70505988124351ac, 0xd2e89bbd91e00be0, 0xc6b4dd2a9931c509);
    Turn(FromWords(INITIAL_512), b, 58, r58, 0x84c87814a1f0ab72, 0x249b4fbcad623e9f, r59);
    var r60 := Regs(0x2c074484ef1eac8c, 0x581ecb3355dcd9b8, 0x4b81c3aec976ea4b, 0x7a52912943d52b05, 0x4797cde4ed370692, 0x6a3c9b0f71c8bf36, 0x70505988124351ac, 0xd2e89bbd91e00be0);
    Turn(FromWords(INITIAL_512), b, 59, r59, 0x8cc702081a6439ec, 0x4aea9df2b02d6f1e, r60);
    var r61 := Regs(0x3857dfd2fc37d3ba, 0x2c074484ef1eac8c, 0x581ecb3355dcd9b8, 0x4b81c3aec976ea4b, 0xa6af4e9c9f807e51, 0x4797cde4ed370692, 0x6a3c9b0f71c8bf36, 0x70505988124351ac);
    Turn(FromWords(INITIAL_512), b, 60, r60, 0x90befffa23631e28, 0x2cc57475a55e8d8f, r61);
    var r62 := Regs(0xcfcd928c5424e2b6, 0x3857dfd2fc37d3ba, 0x2c074484ef1eac8c, 0x581ecb3355dcd9b8, 0x09aee5bda1644de5, 0xa6af4e9c9f807e51, 0x4797cde4ed370692, 0x6a3c9b0f71c8bf36);
    Turn(FromWords(INITIAL_512), b, 61, r61, 0xa4506cebde82bde9, 0xb2574ae938d8be89, r62);
    var r63 := Regs(0xa81dedbb9f19e643, 0xcfcd928c5424e2b6, 0x3857dfd2fc37d3ba, 0x2c074484ef1eac8c, 0x84058865d60a05fa, 0x09aee5bda1644de5, 0xa6af4e9c9f807e51, 0x4797cde4ed370692);
    Turn(FromWords(INITIAL_512), b, 62, r62, 0xbef9a3f7b2c67915, 0xc1b35a57b16d6aea, r63);
    var r64 := Regs(0xab44e86276478d85, 0xa81dedbb9f19e643, 0xcfcd928c5424e2b6, 0x3857dfd2fc37d3ba, 0xcd881ee59ca6bc53, 0x84058865d60a05fa, 0x09aee5bda1644de5, 0xa6af4e9c9f807e51);
    Turn(FromWords(INITIAL_512), b, 63, r63, 0xc67178f2e372532b, 0xcc4918b5949206bb, r64);
  }

  lemma Sha512After72(b: seq<bv8>)
    requires IsBlock(b)
    ensures Rounds(Ops512, FromWords(INITIAL_512), b, 72) ==
      Regs(0xf15e9664b2803575, 0x7652c579cb60f19c, 0xfb6aaae5d0b6a447, 0x181839d609c79748, 0x947c3dfafee570ef, 0xaff62c9665ff80fa, 0xe3711cb6564d112d, 0x0ada78ba2d446140)
  {
    hide Schedule, Rounds, IsBlock, K512At;
    KeysFrom64();
    Sha512After64(b);
    WordsFrom64(b);
    var r64 := Regs(0xab44e86276478d85, 0xa81dedbb9f19e643, 0xcfcd928c5424e2b6, 0x3857dfd2fc37d3ba, 0xcd881ee59ca6bc53, 0x84058865d60a05fa, 0x09aee5bda1644de5, 0xa6af4e9c9f807e51);
    var r65 := Regs(0x5a806d7e9821a501, 0xab44e86276478d85, 0xa81dedbb9f19e643, 0xcfcd928c5424e2b6, 0xaa84b086688a5c45, 0xcd881ee59ca6bc53, 0x84058865d60a05fa, 0x09aee5bda1644de5);
    Turn(FromWords(INITIAL_512), b, 64, r64, 0xca273eceea26619c, 0x5099c3add79f90ec, r65);
    var r66 := Regs(0xeeb9c21bb0102598, 0x5a806d7e9821a501, 0xab44e86276478d85, 0xa81dedbb9f19e643, 0x3b5fed0d6a1f96e1, 0xaa84b086688a5c45, 0xcd881ee59ca6bc53, 0x84058865d60a05fa);
    Turn(FromWords(INITIAL_512), b, 65, r65, 0xd186b8c721c0c207, 0x5ea81d78e7660bf1, r66);
    var r67 := Regs(0x46c4210ab2cc155d, 0xeeb9c21bb0102598, 0x5a806d7e9821a501, 0xab44e86276478d85, 0x29fab5a7bff53366, 0x3b5fed0d6a1f96e1, 0xaa84b086688a5c45, 0xcd881ee59ca6bc53);
    Turn(FromWords(INITIAL_512), b, 66, r66, 0xeada7dd6cde0eb1e, 0xebee6267405ac2a9, r67);
    var r68 := Regs(0x54ba35cf56a0340e, 0x46c4210ab2cc155d, 0xeeb9c21bb0102598, 0x5a806d7e9821a501, 0x1c66f46d95690bcf, 0x29fab5a7bff53366, 0x3b5fed0d6a1f96e1, 0xaa84b086688a5c45);
    Turn(FromWords(INITIAL_512), b, 67, r67, 0xf57d4f7fee6ed178, 0xb01f21926108a4ab, r68);
    var r69 := Regs(0x181839d609c79748, 0x54ba35cf56a0340e, 0x46c4210ab2cc155d, 0xeeb9c21bb0102598, 0x0ada78ba2d446140, 0x1c66f46d95690bcf, 0x29fab5a7bff53366, 0x3b5fed0d6a1f96e1);
    Turn(FromWords(INITIAL_512), b, 68, r68, 0x06f067aa72176fba, 0x786433dd2fe65556, r69);
    var r70 := Regs(0xfb6aaae5d0b6a447, 0x181839d609c79748, 0x54ba35cf56a0340e, 0x46c4210ab2cc155d, 0xe3711cb6564d112d, 0x0ada78ba2d446140, 0x1c66f46d95690bcf, 0x29fab5a7bff53366);
    Turn(FromWords(INITIAL_512), b, 69, r69, 0x0a637dc5a2c898a6, 0xc54a6eaa24a0552c, r70);
    var r71 := Regs(0x7652c579cb60f19c, 0xfb6aaae5d0b6a447, 0x181839d609c79748, 0x54ba35cf56a0340e, 0xaff62c9665ff80fa, 0xe3711cb6564d112d, 0x0ada78ba2d446140, 0x1c66f46d95690bcf);
    Turn(FromWords(INITIAL_512), b, 70, r70, 0x113f9804bef90dae, 0xb3c8f1530bdbaa9e, r71);
    var r72 := Regs(0xf15e9664b2803575, 0x7652c579cb60f19c, 0xfb6aaae5d0b6a447, 0x181839d609c79748, 0x947c3dfafee570ef, 0xaff62c9665ff80fa, 0xe3711cb6564d112d, 0x0ada78ba2d446140);
    Turn(FromWords(INITIAL_512), b, 71, r71, 0x1b710b35131c471b, 0xbb8abfe56f469338, r72);
  }

  lemma Sha512After80(b: seq<bv8>)
    requires IsBlock(b)
    ensures Rounds(Ops512, FromWords(INITIAL_512), b, 80) ==
      Regs(0x73a54f399fa4b1b2, 0x10d9c4c4295599f6, 0xd67806db8b148677, 0x654ef9abec389ca9, 0xd08446aa79693ed7, 0x9bb4d39778c07f9e, 0x25c96a7768fb2aa3, 0xceb9fc3691ce8326)
  {
    hide Schedule, Rounds, IsBlock, K512At;
    KeysFrom72();
    Sha512After72(b);
    WordsFrom72(b);
    var r72 := Regs(0xf15e9664b2803575, 0x7652c579cb60f19c, 0xfb6aaae5d0b6a447, 0x181839d609c79748, 0x947c3dfafee570ef, 0xaff62c9665ff80fa, 0xe3711cb6564d112d, 0x0ada78ba2d446140);
    var r73 := Regs(0x358406d165aee9ab, 0xf15e9664b2803575, 0x7652c579cb60f19c, 0xfb6aaae5d0b6a447, 0x8c7b5fd91a794ca0, 0x947c3dfafee570ef, 0xaff62c9665ff80fa, 0xe3711cb6564d112d);
    Turn(FromWords(INITIAL_512), b, 72, r72, 0x28db77f523047d84, 0xf63d4265cc1c5a78, r73);
    var r74 := Regs(0x20878dcd29cdfaf5, 0x358406d165aee9ab, 0xf15e9664b2803575, 0x7652c579cb60f19c, 0x054d3536539948d0, 0x8c7b5fd91a794ca0, 0x947c3dfafee570ef, 0xaff62c9665ff80fa);
    Turn(FromWords(INITIAL_512), b, 73, r73, 0x32caab7b40c72493, 0xbe8355ea73129afb, r74);
    var r75 := Regs(0x33d48dabb5521de2, 0x20878dcd29cdfaf5, 0x358406d165aee9ab, 0xf15e9664b2803575, 0x2ba18245b50de4cf, 0x054d3536539948d0, 0x8c7b5fd91a794ca0, 0x947c3dfafee570ef);
    Turn(FromWords(INITIAL_512), b, 74, r74, 0x3c9ebe0a15c9bebc, 0x49e2db8ebdcfbeb5, r75);
    var r76 := Regs(0xc8960e6be864b916, 0x33d48dabb5521de2, 0x20878dcd29cdfaf5, 0x358406d165aee9ab, 0x995019a6ff3ba3de, 0x2ba18245b50de4cf, 0x054d3536539948d0, 0x8c7b5fd91a794ca0);
    Turn(FromWords(INITIAL_512), b, 75, r75, 0x431d67c49c100d4c, 0x82269d4a883a3d99, r76);
    var r77 := Regs(0x654ef9abec389ca9, 0xc8960e6be864b916, 0x33d48dabb5521de2, 0x20878dcd29cdfaf5, 0xceb9fc3691ce8326, 0x995019a6ff3ba3de, 0x2ba18245b50de4cf, 0x054d3536539948d0);
    Turn(FromWords(INITIAL_512), b, 76, r76, 0x4cc5d4becb3e42b6, 0xfdf53df3011f362b, r77);
    var r78 := Regs(0xd67806db8b148677, 0x654ef9abec389ca9, 0xc8960e6be864b916, 0x33d48dabb5521de2, 0x25c96a7768fb2aa3, 0xceb9fc3691ce8326, 0x995019a6ff3ba3de, 0x2ba18245b50de4cf);
    Turn(FromWords(INITIAL_512), b, 77, r77, 0x597f299cfc657e2a, 0x464af5671d71c12e, r78);
    var r79 := Regs(0x10d9c4c4295599f6, 0xd67806db8b148677, 0x654ef9abec389ca9, 0xc8960e6be864b916, 0x9bb4d39778c07f9e, 0x25c96a7768fb2aa3, 0xceb9fc3691ce8326, 0x995019a6ff3ba3de);
    Turn(FromWords(INITIAL_512), b, 78, r78, 0x5fcb6fab3ad6faec, 0xe449b68198ec611c, r79);
    var r80 := Regs(0x73a54f399fa4b1b2, 0x10d9c4c4295599f6, 0xd67806db8b148677, 0x654ef9abec389ca9, 0xd08446aa79693ed7, 0x9bb4d39778c07f9e, 0x25c96a7768fb2aa3, 0xceb9fc3691ce8326);
    Turn(FromWords(INITIAL_512), b, 79, r79, 0x6c44198c4a475817, 0x92aeeed1a7bcf7d2, r80);
  }

  lemma Sha512Compressed(b: seq<bv8>)
    requires IsBlock(b)
    ensures Compress(Ops512, FromWords(INITIAL_512), b) ==
      Regs(0xddaf35a193617aba, 0xcc417349ae204131, 0x12e6fa4e89a97ea2, 0x0a9eeee64b55d39a, 0x2192992a274fc1a8, 0x36ba3c23a3feebbd, 0x454d4423643ce80e, 0x2a9ac94fa54ca49f)
  {
    hide Rounds, IsBlock;
    Sha512After80(b);
  }

  lemma Sha512Words()
    ensures Bytes64(0xddaf35a193617aba) == [0xdd, 0xaf, 0x35, 0xa1, 0x93, 0x61, 0x7a, 0xba]
    ensures Bytes64(0xcc417349ae204131) == [0xcc, 0x41, 0x73, 0x49, 0xae, 0x20, 0x41, 0x31]
    ensures Bytes64(0x12e6fa4e89a97ea2) == [0x12, 0xe6, 0xfa, 0x4e, 0x89, 0xa9, 0x7e, 0xa2]
    ensures Bytes64(0x0a9eeee64b55d39a) == [0x0a, 0x9e, 0xee, 0xe6, 0x4b, 0x55, 0xd3, 0x9a]
    ensures Bytes64(0x2192992a274fc1a8) == [0x21, 0x92, 0x99, 0x2a, 0x27, 0x4f, 0xc1, 0xa8]
    ensures Bytes64(0x36ba3c23a3feebbd) == [0x36, 0xba, 0x3c, 0x23, 0xa3, 0xfe, 0xeb, 0xbd]
    ensures Bytes64(0x454d4423643ce80e) == [0x45, 0x4d, 0x44, 0x23, 0x64, 0x3c, 0xe8, 0x0e]
    ensures Bytes64(0x2a9ac94fa54ca49f) == [0x2a, 0x9a, 0xc9, 0x4f, 0xa5, 0x4c, 0xa4, 0x9f]
  {
  }

  lemma Sha512Bytes()
    ensures BigEndian(Ops512, Words(Regs(0xddaf35a193617aba, 0xcc417349ae204131, 0x12e6fa4e89a97ea2, 0x0a9eeee64b55d39a, 0x2192992a274fc1a8, 0x36ba3c23a3feebbd, 0x454d4423643ce80e, 0x2a9ac94fa54ca49f))[..8]) ==
      [0xdd, 0xaf, 0x35, 0xa1, 0x93, 0x61, 0x7a, 0xba] + [0xcc, 0x41, 0x73, 0x49, 0xae, 0x20, 0x41, 0x31] +
      [0x12, 0xe6, 0xfa, 0x4e, 0x89, 0xa9, 0x7e, 0xa2] + [0x0a, 0x9e, 0xee, 0xe6, 0x4b, 0x55, 0xd3, 0x9a] +
      [0x21, 0x92, 0x99, 0x2a, 0x27, 0x4f, 0xc1, 0xa8] + [0x36, 0xba, 0x3c, 0x23, 0xa3, 0xfe, 0xeb, 0xbd] +
      [0x45, 0x4d, 0x44, 0x23, 0x64, 0x3c, 0xe8, 0x0e] + [0x2a, 0x9a, 0xc9, 0x4f, 0xa5, 0x4c, 0xa4, 0x9f]
  {
    hide Bytes64, BigEndian;
    Sha512Words();
    FirstWords8(Regs(0xddaf35a193617aba, 0xcc417349ae204131, 0x12e6fa4e89a97ea2, 0x0a9eeee64b55d39a, 0x2192992a274fc1a8, 0x36ba3c23a3feebbd, 0x454d4423643ce80e, 0x2a9ac94fa54ca49f));
  }

  /** SHA-512("abc"). */
  lemma Sha512OfAbc()
    ensures Hash(Ops512, FromWords(INITIAL_512), 8, [0x61, 0x62, 0x63]) ==
      [0xdd, 0xaf, 0x35, 0xa1, 0x93, 0x61, 0x7a, 0xba] + [0xcc, 0x41, 0x73, 0x49, 0xae, 0x20, 0x41, 0x31] +
      [0x12, 0xe6, 0xfa, 0x4e, 0x89, 0xa9, 0x7e, 0xa2] + [0x0a, 0x9e, 0xee, 0xe6, 0x4b, 0x55, 0xd3, 0x9a] +
      [0x21, 0x92, 0x99, 0x2a, 0x27, 0x4f, 0xc1, 0xa8] + [0x36, 0xba, 0x3c, 0x23, 0xa3, 0xfe, 0xeb, 0xbd] +
      [0x45, 0x4d, 0x44, 0x23, 0x64, 0x3c, 0xe8, 0x0e] + [0x2a, 0x9a, 0xc9, 0x4f, 0xa5, 0x4c, 0xa4, 0x9f]
  {
    hide Pad, Compress, BigEndian, IsBlock, Words;
    var b := Pad(Ops512, [0x61, 0x62, 0x63]);
    AbcIsPadded();
    BlockLengthOf(b);
    AbsorbBlock(Ops512, FromWords(INITIAL_512), b);
    Sha512Compressed(b);
    hide Absorb;
    Sha512Bytes();
  }

  lemma Sha384After0(b: seq<bv8>)
    requires IsBlock(b)
    ensures Rounds(Ops512, FromWords(INITIAL_384), b, 0) ==
      Regs(0xcbbb9d5dc1059ed8, 0x629a292a367cd507, 0x9159015a3070dd17, 0x152fecd8f70e5939, 0x67332667ffc00b31, 0x8eb44a8768581511, 0xdb0c2e0d64f98fa7, 0x47b5481dbefa4fa4)
  {
  }

  lemma Sha384After8(b: seq<bv8>)
    requires IsBlock(b)
    ensures Rounds(Ops512, FromWords(INITIAL_384), b, 8) ==
      Regs(0x02f2a04d3aab1629, 0x76f0741213dd2ef6, 0x333199a85f92b052, 0x3a7a023c593d8479, 0x1688b9bf14980fc0, 0x74063cba385f0675, 0x7a6316f0ef047ce7, 0x8aa1144850633794)
  {
    hide Schedule, Rounds, IsBlock, K512At;
    KeysFrom0();
    Sha384After0(b);
    WordsFrom0(b);
    var r0 := Regs(0xcbbb9d5dc1059ed8, 0x629a292a367cd507, 0x9159015a3070dd17, 0x152fecd8f70e5939, 0x67332667ffc00b31, 0x8eb44a8768581511, 0xdb0c2e0d64f98fa7, 0x47b5481dbefa4fa4);
    var r1 := Regs(0x470994ad30873f88, 0xcbbb9d5dc1059ed8, 0x629a292a367cd507, 0x9159015a3070dd17, 0xbd03f724be6075f9, 0x67332667ffc00b31, 0x8eb44a8768581511, 0xdb0c2e0d64f98fa7);
    Turn(FromWords(INITIAL_384), b, 0, r0, 0x428a2f98d728ae22, 0x6162638000000000, r1);
    var r2 := Regs(0x2e91230306a12ae0, 0x470994ad30873f88, 0xcbbb9d5dc1059ed8, 0x629a292a367cd507, 0x5e1b4e1695372b9e, 0xbd03f724be6075f9, 0x67332667ffc00b31, 0x8eb44a8768581511);
    Turn(FromWords(INITIAL_384), b, 1, r1, 0x7137449123ef65cd, 0x0000000000000000, r2);
    var r3 := Regs(0xeebe5d379be707ad, 0x2e91230306a12ae0, 0x470994ad30873f88, 0xcbbb9d5dc1059ed8, 0x54074a65aef34336, 0x5e1b4e1695372b9e, 0xbd03f724be6075f9, 0x67332667ffc00b31);
    Turn(FromWords(INITIAL_384), b, 2, r2, 0xb5c0fbcfec4d3b2f, 0x0000000000000000, r3);
    var r4 := Regs(0xe308483153e15ad6, 0xeebe5d379be707ad, 0x2e91230306a12ae0, 0x470994ad30873f88, 0x086c5b2d36a89178, 0x54074a65aef34336, 0x5e1b4e1695372b9e, 0xbd03f724be6075f9);
    Turn(FromWords(INITIAL_384), b, 3, r3, 0xe9b5dba58189dbbc, 0x0000000000000000, r4);
    var r5 := Regs(0x3a7a023c593d8479, 0xe308483153e15ad6, 0xeebe5d379be707ad, 0x2e91230306a12ae0, 0x8aa1144850633794, 0x086c5b2d36a89178, 0x54074a65aef34336, 0x5e1b4e1695372b9e);
    Turn(FromWords(INITIAL_384), b, 4, r4, 0x3956c25bf348b538, 0x0000000000000000, r5);
    var r6 := Regs(0x333199a85f92b052, 0x3a7a023c593d8479, 0xe308483153e15ad6, 0xeebe5d379be707ad, 0x7a6316f0ef047ce7, 0x8aa1144850633794, 0x086c5b2d36a89178, 0x54074a65aef34336);
    Turn(FromWords(INITIAL_384), b, 5, r5, 0x59f111f1b605d019, 0x0000000000000000, r6);
    var r7 := Regs(0x76f0741213dd2ef6, 0x333199a85f92b052, 0x3a7a023c593d8479, 0xe308483153e15ad6, 0x74063cba385f0675, 0x7a6316f0ef047ce7, 0x8aa1144850633794, 0x086c5b2d36a89178);
    Turn(FromWords(INITIAL_384), b, 6, r6, 0x923f82a4af194f9b, 0x0000000000000000, r7);
    var r8 := Regs(0x02f2a04d3aab1629, 0x76f0741213dd2ef6, 0x333199a85f92b052, 0x3a7a023c593d8479, 0x1688b9bf14980fc0, 0x74063cba385f0675, 0x7a6316f0ef047ce7, 0x8aa1144850633794);
    Turn(FromWords(INITIAL_384), b, 7, r7, 0xab1c5ed5da6d8118, 0x0000000000000000, r8);
  }

  lemma Sha384After16(b: seq<bv8>)
    requires IsBlock(b)
    ensures Rounds(Ops512, FromWords(INITIAL_384), b, 16) ==
      Regs(0x1eab6159ae87ef6d, 0x7e32dc0e9f414783, 0xe5f06744c0d7563a, 0x185f9ff038a50f39, 0x153b895cfbc436c5, 0x3a9950aaa5e75884, 0x2fa93d1ce9523015, 0x8b4acfc4d2b8afe6)
  {
    hide Schedule, Rounds, IsBlock, K512At;
    KeysFrom8();
    Sha384After8(b);
    WordsFrom8(b);
    var r8 := Regs(0x02f2a04d3aab1629, 0x76f0741213dd2ef6, 0x333199a85f92b052, 0x3a7a023c593d8479, 0x1688b9bf14980fc0, 0x74063cba385f0675, 0x7a6316f0ef047ce7, 0x8aa1144850633794);
    var r9 := Regs(0x73e5b2a1704a0349, 0x02f2a04d3aab1629, 0x76f0741213dd2ef6, 0x333199a85f92b052, 0xfd00139f705907d0, 0x1688b9bf14980fc0, 0x74063cba385f0675, 0x7a6316f0ef047ce7);
    Turn(FromWords(INITIAL_384), b, 8, r8, 0xd807aa98a3030242, 0x0000000000000000, r9);
    var r10 := Regs(0xbf3f67ba12882648, 0x73e5b2a1704a0349, 0x02f2a04d3aab1629, 0x76f0741213dd2ef6, 0x652e311d4f0a4257, 0xfd00139f705907d0, 0x1688b9bf14980fc0, 0x74063cba385f0675);
    Turn(FromWords(INITIAL_384), b, 9, r9, 0x12835b0145706fbe, 0x0000000000000000, r10);
    var r11 := Regs(0x33254508bb2ea48d, 0xbf3f67ba12882648, 0x73e5b2a1704a0349, 0x02f2a04d3aab1629, 0x9e18991c4f39f0ba, 0x652e311d4f0a4257, 0xfd00139f705907d0, 0x1688b9bf14980fc0);
    Turn(FromWords(INITIAL_384), b, 10, r10, 0x243185be4ee4b28c, 0x0000000000000000, r11);
    var r12 := Regs(0xc1fdb2a0205ea0e5, 0x33254508bb2ea48d, 0xbf3f67ba12882648, 0x73e5b2a1704a0349, 0x04732e8bc4044582, 0x9e18991c4f39f0ba, 0x652e311d4f0a4257, 0xfd00139f705907d0);
    Turn(FromWords(INITIAL_384), b, 11, r11, 0x550c7dc3d5ffb4e2, 0x0000000000000000, r12);
    var r13 := Regs(0x185f9ff038a50f39, 0xc1fdb2a0205ea0e5, 0x33254508bb2ea48d, 0xbf3f67ba12882648, 0x8b4acfc4d2b8afe6, 0x04732e8bc4044582, 0x9e18991c4f39f0ba, 0x652e311d4f0a4257);
    Turn(FromWords(INITIAL_384), b, 12, r12, 0x72be5d74f27b896f, 0x0000000000000000, r13);
    var r14 := Regs(0xe5f06744c0d7563a, 0x185f9ff038a50f39, 0xc1fdb2a0205ea0e5, 0x33254508bb2ea48d, 0x2fa93d1ce9523015, 0x8b4acfc4d2b8afe6, 0x04732e8bc4044582, 0x9e18991c4f39f0ba);
    Turn(FromWords(INITIAL_384), b, 13, r13, 0x80deb1fe3b1696b1, 0x0000000000000000, r14);
    var r15 := Regs(0x7e32dc0e9f414783, 0xe5f06744c0d7563a, 0x185f9ff038a50f39, 0xc1fdb2a0205ea0e5, 0x3a9950aaa5e75884, 0x2fa93d1ce9523015, 0x8b4acfc4d2b8afe6, 0x04732e8bc4044582);
    Turn(FromWords(INITIAL_384), b, 14, r14, 0x9bdc06a725c71235, 0x0000000000000000, r15);
    var r16 := Regs(0x1eab6159ae87ef6d, 0x7e32dc0e9f414783, 0xe5f06744c0d7563a, 0x185f9ff038a50f39, 0x153b895cfbc436c5, 0x3a9950aaa5e75884, 0x2fa93d1ce9523015, 0x8b4acfc4d2b8afe6);
    Turn(FromWords(INITIAL_384), b, 15, r15, 0xc19bf174cf692694, 0x0000000000000018, r16);
  }

  lemma Sha384After24(b: seq<bv8>)
    requires IsBlock(b)
    ensures Rounds(Ops512, FromWords(INITIAL_384), b, 24) ==
      Regs(0xccf99a80f92bf002, 0x7799c75acc748c0f, 0x042c2dc9a5bf558a, 0x9ba737ae88a72c64, 0xe52a24fae4e8fc9b, 0xa7bbd65bf64f58c8, 0x19316bebc88e01f2, 0x3fc2614c43906c0f)
  {
    hide Schedule, Rounds, IsBlock, K512At;
    KeysFrom16();
    Sha384After16(b);
    WordsFrom16(b);
    var r16 := Regs(0x1eab6159ae87ef6d, 0x7e32dc0e9f414783, 0xe5f06744c0d7563a, 0x185f9ff038a50f39, 0x153b895cfbc436c5, 0x3a9950aaa5e75884, 0x2fa93d1ce9523015, 0x8b4acfc4d2b8afe6);
    var r17 := Regs(0x33ef2cebbf1739aa, 0x1eab6159ae87ef6d, 0x7e32dc0e9f414783, 0xe5f06744c0d7563a, 0x9d1a64baf1d366aa, 0x153b895cfbc436c5, 0x3a9950aaa5e75884, 0x2fa93d1ce9523015);
    Turn(FromWords(INITIAL_384), b, 16, r16, 0xe49b69c19ef14ad2, 0x6162638000000000, r17);
    var r18 := Regs(0x7df1b65f1b87d6ca, 0x33ef2cebbf1739aa, 0x1eab6159ae87ef6d, 0x7e32dc0e9f414783, 0x5b6e369d36e8e181, 0x9d1a64baf1d366aa, 0x153b895cfbc436c5, 0x3a9950aaa5e75884);
    Turn(FromWords(INITIAL_384), b, 17, r17, 0xefbe4786384f25e3, 0x00030000000000c0, r18);
    var r19 := Regs(0x63a24014a34bb0f6, 0x7df1b65f1b87d6ca, 0x33ef2cebbf1739aa, 0x1eab6159ae87ef6d, 0xe13e610eae680d85, 0x5b6e369d36e8e181, 0x9d1a64baf1d366aa, 0x153b895cfbc436c5);
    Turn(FromWords(INITIAL_384), b, 18, r18, 0x0fc19dc68b8cd5b5, 0x0a9699a24c700003, r19);
    var r20 := Regs(0xf1aabd313309509b, 0x63a24014a34bb0f6, 0x7df1b65f1b87d6ca, 0x33ef2cebbf1739aa, 0x674385f0d87db94f, 0xe13e610eae680d85, 0x5b6e369d36e8e181, 0x9d1a64baf1d366aa);
    Turn(FromWords(INITIAL_384), b, 19, r19, 0x240ca1cc77ac9c65, 0x00000c0060000603, r20);
    var r21 := Regs(0x9ba737ae88a72c64, 0xf1aabd313309509b, 0x63a24014a34bb0f6, 0x7df1b65f1b87d6ca, 0x3fc2614c43906c0f, 0x674385f0d87db94f, 0xe13e610eae680d85, 0x5b6e369d36e8e181);
    Turn(FromWords(INITIAL_384), b, 20, r20, 0x2de92c6f592b0275, 0x549ef62639858996, r21);
    var r22 := Regs(0x042c2dc9a5bf558a, 0x9ba737ae88a72c64, 0xf1aabd313309509b, 0x63a24014a34bb0f6, 0x19316bebc88e01f2, 0x3fc2614c43906c0f, 0x674385f0d87db94f, 0xe13e610eae680d85);
    Turn(FromWords(INITIAL_384), b, 21, r21, 0x4a7484aa6ea6e483, 0x00c0003300003c00, r22);
    var r23 := Regs(0x7799c75acc748c0f, 0x042c2dc9a5bf558a, 0x9ba737ae88a72c64, 0xf1aabd313309509b, 0xa7bbd65bf64f58c8, 0x19316bebc88e01f2, 0x3fc2614c43906c0f, 0x674385f0d87db94f);
    Turn(FromWords(INITIAL_384), b, 22, r22, 0x5cb0a9dcbd41fbd4, 0x1497007a8a0e9dbc, r23);
    var r24 := Regs(0xccf99a80f92bf002, 0x7799c75acc748c0f, 0x042c2dc9a5bf558a, 0x9ba737ae88a72c64, 0xe52a24fae4e8fc9b, 0xa7bbd65bf64f58c8, 0x19316bebc88e01f2, 0x3fc2614c43906c0f);
    Turn(FromWords(INITIAL_384), b, 23, r23, 0x76f988da831153b5, 0x62e56500cc0780f0, r24);
  }

  lemma Sha384After32(b: seq<bv8>)
    requires IsBlock(b)
    ensures Rounds(Ops512, FromWords(INITIAL_384), b, 32) ==
      Regs(0x4ba456ec244033ed, 0x4c5c38df7ec8baf4, 0xbbed541a5128088c, 0xe428bb43afe3d63e, 0x7cf40857056d86b0, 0x422ceea0200e9ee4, 0x7973aadbde294be9, 0x6a8527525f898726)
  {
    hide Schedule, Rounds, IsBlock, K512At;
    KeysFrom24();
    Sha384After24(b);
    WordsFrom24(b);
    var r24 := Regs(0xccf99a80f92bf002, 0x7799c75acc748c0f, 0x042c2dc9a5bf558a, 0x9ba737ae88a72c64, 0xe52a24fae4e8fc9b, 0xa7bbd65bf64f58c8, 0x19316bebc88e01f2, 0x3fc2614c43906c0f);
    var r25 := Regs(0xae993474363efe68, 0xccf99a80f92bf002, 0x7799c75acc748c0f, 0x042c2dc9a5bf558a, 0x587f308d58681928, 0xe52a24fae4e8fc9b, 0xa7bbd65bf64f58c8, 0x19316bebc88e01f2);
    Turn(FromWords(INITIAL_384), b, 24, r24, 0x983e5152ee66dfab, 0x7760dd475a538797, r25);
    var r26 := Regs(0x335063d1a2aec92f, 0xae993474363efe68, 0xccf99a80f92bf002, 0x7799c75acc748c0f, 0xc2d6d65e38c6ea79, 0x587f308d58681928, 0xe52a24fae4e8fc9b, 0xa7bbd65bf64f58c8);
    Turn(FromWords(INITIAL_384), b, 25, r25, 0xa831c66d2db43210, 0xf1554b711c1c0003, r26);
    var r27 := Regs(0x53a78b0cca01ba37, 0x335063d1a2aec92f, 0xae993474363efe68, 0xccf99a80f92bf002, 0x3b65a26c3c92c8f3, 0xc2d6d65e38c6ea79, 0x587f308d58681928, 0xe52a24fae4e8fc9b);
    Turn(FromWords(INITIAL_384), b, 26, r26, 0xb00327c898fb213f, 0xca2993a4345d9ff2, r27);
    var r28 := Regs(0xab7ffa529f622930, 0x53a78b0cca01ba37, 0x335063d1a2aec92f, 0xae993474363efe68, 0xb9d8a2f2762901ea, 0x3b65a26c3c92c8f3, 0xc2d6d65e38c6ea79, 0x587f308d58681928);
    Turn(FromWords(INITIAL_384), b, 27, r27, 0xbf597fc7beef0ee4, 0x5e0e66b5c783dd32, r28);
    var r29 := Regs(0xe428bb43afe3d63e, 0xab7ffa529f622930, 0x53a78b0cca01ba37, 0x335063d1a2aec92f, 0x6a8527525f898726, 0xb9d8a2f2762901ea, 0x3b65a26c3c92c8f3, 0xc2d6d65e38c6ea79);
    Turn(FromWords(INITIAL_384), b, 28, r28, 0xc6e00bf33da88fc2, 0xe25a625d00494b62, r29);
    var r30 := Regs(0xbbed541a5128088c, 0xe428bb43afe3d63e, 0xab7ffa529f622930, 0x53a78b0cca01ba37, 0x7973aadbde294be9, 0x6a8527525f898726, 0xb9d8a2f2762901ea, 0x3b65a26c3c92c8f3);
    Turn(FromWords(INITIAL_384), b, 29, r29, 0xd5a79147930aa725, 0x9f44486fb1e4fbd2, r30);
    var r31 := Regs(0x4c5c38df7ec8baf4, 0xbbed541a5128088c, 0xe428bb43afe3d63e, 0xab7ffa529f622930, 0x422ceea0200e9ee4, 0x7973aadbde294be9, 0x6a8527525f898726, 0xb9d8a2f2762901ea);
    Turn(FromWords(INITIAL_384), b, 30, r30, 0x06ca6351e003826f, 0xb31b8c2b06085f2f, r31);
    var r32 := Regs(0x4ba456ec244033ed, 0x4c5c38df7ec8baf4, 0xbbed541a5128088c, 0xe428bb43afe3d63e, 0x7cf40857056d86b0, 0x422ceea0200e9ee4, 0x7973aadbde294be9, 0x6a8527525f898726);
    Turn(FromWords(INITIAL_384), b, 31, r31, 0x142929670a0e6e70, 0x0e987660934142f6, r32);
  }

  lemma Sha384After40(b: seq<bv8>)
    requires IsBlock(b)
    ensures Rounds(Ops512, FromWords(INITIAL_384), b, 40) ==
      Regs(0xdb24f9a03f4fff6b, 0x54078334358573b4, 0xd6f41e25a8b634d6, 0xd48d97ce438cf4f0, 0xd30e99b4b394b090, 0x0e419fb0802b0efc, 0x25755cb8179dd0b0, 0xa239e00b8baa0410)
  {
    hide Schedule, Rounds, IsBlock, K512At;
    KeysFrom32();
    Sha384After32(b);
    WordsFrom32(b);
    var r32 := Regs(0x4ba456ec244033ed, 0x4c5c38df7ec8baf4, 0xbbed541a5128088c, 0xe428bb43afe3d63e, 0x7cf40857056d86b0, 0x422ceea0200e9ee4, 0x7973aadbde294be9, 0x6a8527525f898726);
    var r33 := Regs(0xaa4a6ab2ac5f5dd8, 0x4ba456ec244033ed, 0x4c5c38df7ec8baf4, 0xbbed541a5128088c, 0xad2b1ecfb5bfc556, 0x7cf40857056d86b0, 0x422ceea0200e9ee4, 0x7973aadbde294be9);
    Turn(FromWords(INITIAL_384), b, 32, r32, 0x27b70a8546d22ffc, 0xa4af2cfd09fbb924, r33);
    var r34 := Regs(0x9cb941f2ced774b3, 0xaa4a6ab2ac5f5dd8, 0x4ba456ec244033ed, 0x4c5c38df7ec8baf4, 0x029f66c7b4569bf0, 0xad2b1ecfb5bfc556, 0x7cf40857056d86b0, 0x422ceea0200e9ee4);
    Turn(FromWords(INITIAL_384), b, 33, r33, 0x2e1b21385c26c926, 0xad289e2e0bd53186, r34);
    var r35 := Regs(0x39265f358594de27, 0x9cb941f2ced774b3, 0xaa4a6ab2ac5f5dd8, 0x4ba456ec244033ed, 0x3f7b1c260c82e54f, 0x029f66c7b4569bf0, 0xad2b1ecfb5bfc556, 0x7cf40857056d86b0);
    Turn(FromWords(INITIAL_384), b, 34, r34, 0x4d2c6dfc5ac42aed, 0x3c74563aa2f9673e, r35);
    var r36 := Regs(0x09cca487d39b02a1, 0x39265f358594de27, 0x9cb941f2ced774b3, 0xaa4a6ab2ac5f5dd8, 0x4a22b37b58a5b1b0, 0x3f7b1c260c82e54f, 0x029f66c7b4569bf0, 0xad2b1ecfb5bfc556);
    Turn(FromWords(INITIAL_384), b, 35, r35, 0x53380d139d95b3df, 0x6ccdcd14cc14b53f, r36);
    var r37 := Regs(0xd48d97ce438cf4f0, 0x09cca487d39b02a1, 0x39265f358594de27, 0x9cb941f2ced774b3, 0xa239e00b8baa0410, 0x4a22b37b58a5b1b0, 0x3f7b1c260c82e54f, 0x029f66c7b4569bf0);
    Turn(FromWords(INITIAL_384), b, 36, r36, 0x650a73548baf63de, 0xc3f925b337f22bde, r37);
    var r38 := Regs(0xd6f41e25a8b634d6, 0xd48d97ce438cf4f0, 0x09cca487d39b02a1, 0x39265f358594de27, 0x25755cb8179dd0b0, 0xa239e00b8baa0410, 0x4a22b37b58a5b1b0, 0x3f7b1c260c82e54f);
    Turn(FromWords(INITIAL_384), b, 37, r37, 0x766a0abb3c77b2a8, 0x5bcc77a75ad95b54, r38);
    var r39 := Regs(0x54078334358573b4, 0xd6f41e25a8b634d6, 0xd48d97ce438cf4f0, 0x09cca487d39b02a1, 0x0e419fb0802b0efc, 0x25755cb8179dd0b0, 0xa239e00b8baa0410, 0x4a22b37b58a5b1b0);
    Turn(FromWords(INITIAL_384), b, 38, r38, 0x81c2c92e47edaee6, 0x3ec2257adca09a52, r39);
    var r40 := Regs(0xdb24f9a03f4fff6b, 0x54078334358573b4, 0xd6f41e25a8b634d6, 0xd48d97ce438cf4f0, 0xd30e99b4b394b090, 0x0e419fb0802b0efc, 0x25755cb8179dd0b0, 0xa239e00b8baa0410);
    Turn(FromWords(INITIAL_384), b, 39, r39, 0x92722c851482353b, 0x28246960001fc5eb, r40);
  }

  lemma Sha384After48(b: seq<bv8>)
    requires IsBlock(b)
    ensures Rounds(Ops512, FromWords(INITIAL_384), b, 48) ==
      Regs(0xa6998d63a5d09e04, 0xeb3753f4283f4818, 0xef5e3885a2f238df, 0x51dcaa36995c301d, 0xe21095012ee0b72a, 0x0ae48cf840bb8be9, 0x740e347f24e18fda, 0xe37f778353998050)
  {
    hide Schedule, Rounds, IsBlock, K512At;
    KeysFrom40();
    Sha384After40(b);
    WordsFrom40(b);
    var r40 := Regs(0xdb24f9a03f4fff6b, 0x54078334358573b4, 0xd6f41e25a8b634d6, 0xd48d97ce438cf4f0, 0xd30e99b4b394b090, 0x0e419fb0802b0efc, 0x25755cb8179dd0b0, 0xa239e00b8baa0410);
    var r41 := Regs(0x3604c53a845efc37, 0xdb24f9a03f4fff6b, 0x54078334358573b4, 0xd6f41e25a8b634d6, 0x791b2b4af7338b99, 0xd30e99b4b394b090, 0x0e419fb0802b0efc, 0x25755cb8179dd0b0);
    Turn(FromWords(INITIAL_384), b, 40, r40, 0xa2bfe8a14cf10364, 0x04e33a75ce2be88a, r41);
    var r42 := Regs(0xf41b1c0eee89bdc6, 0x3604c53a845efc37, 0xdb24f9a03f4fff6b, 0x54078334358573b4, 0xe319b77d9e4e87f9, 0x791b2b4af7338b99, 0xd30e99b4b394b090, 0x0e419fb0802b0efc);
    Turn(FromWords(INITIAL_384), b, 41, r41, 0xa81a664bbc423001, 0x7d5314b3c359e0e7, r42);
    var r43 := Regs(0x36644ae374632e3a, 0xf41b1c0eee89bdc6, 0x3604c53a845efc37, 0xdb24f9a03f4fff6b, 0x458250878a3972b2, 0xe319b77d9e4e87f9, 0x791b2b4af7338b99, 0xd30e99b4b394b090);
    Turn(FromWords(INITIAL_384), b, 42, r42, 0xc24b8b70d0f89791, 0xaef7a285ff251266, r43);
    var r44 := Regs(0x88806f6ae9fcd65b, 0x36644ae374632e3a, 0xf41b1c0eee89bdc6, 0x3604c53a845efc37, 0xcfde2e6ea54fa576, 0x458250878a3972b2, 0xe319b77d9e4e87f9, 0x791b2b4af7338b99);
    Turn(FromWords(INITIAL_384), b, 43, r43, 0xc76c51a30654be30, 0x0b8472581deea04f, r44);
    var r45 := Regs(0x51dcaa36995c301d, 0x88806f6ae9fcd65b, 0x36644ae374632e3a, 0xf41b1c0eee89bdc6, 0xe37f778353998050, 0xcfde2e6ea54fa576, 0x458250878a3972b2, 0xe319b77d9e4e87f9);
    Turn(FromWords(INITIAL_384), b, 44, r44, 0xd192e819d6ef5218, 0xb174e26eddc7b033, r45);
    var r46 := Regs(0xef5e3885a2f238df, 0x51dcaa36995c301d, 0x88806f6ae9fcd65b, 0x36644ae374632e3a, 0x740e347f24e18fda, 0xe37f778353998050, 0xcfde2e6ea54fa576, 0x458250878a3972b2);
    Turn(FromWords(INITIAL_384), b, 45, r45, 0xd69906245565a910, 0x5d63bae58ddd88de, r46);
    var r47 := Regs(0xeb3753f4283f4818, 0xef5e3885a2f238df, 0x51dcaa36995c301d, 0x88806f6ae9fcd65b, 0x0ae48cf840bb8be9, 0x740e347f24e18fda, 0xe37f778353998050, 0xcfde2e6ea54fa576);
    Turn(FromWords(INITIAL_384), b, 46, r46, 0xf40e35855771202a, 0x4c044007b744ccbb, r47);
    var r48 := Regs(0xa6998d63a5d09e04, 0xeb3753f4283f4818, 0xef5e3885a2f238df, 0x51dcaa36995c301d, 0xe21095012ee0b72a, 0x0ae48cf840bb8be9, 0x740e347f24e18fda, 0xe37f778353998050);
    Turn(FromWords(INITIAL_384), b, 47, r47, 0x106aa07032bbd1b8, 0xe6a9aa4d74dc7d43, r48);
  }

  lemma Sha384After56(b: seq<bv8>)
    requires IsBlock(b)
    ensures Rounds(Ops512, FromWords(INITIAL_384), b, 56) ==
      Regs(0x54de8857b24afaf7, 0x073775c2456dc7db, 0xedb4448879391dbb, 0xc87e9168db9e97de, 0x8de51cff2ae4b068, 0xa9cca0b6266b1d77, 0x7729c85475dd318f, 0x65cf7f6a829aca04)
  {
    hide Schedule, Rounds, IsBlock, K512At;
    KeysFrom48();
    Sha384After48(b);
    WordsFrom48(b);
    var r48 := Regs(0xa6998d63a5d09e04, 0xeb3753f4283f4818, 0xef5e3885a2f238df, 0x51dcaa36995c301d, 0xe21095012ee0b72a, 0x0ae48cf840bb8be9, 0x740e347f24e18fda, 0xe37f778353998050);
    var r49 := Regs(0xd3698fb64df175b0, 0xa6998d63a5d09e04, 0xeb3753f4283f4818, 0xef5e3885a2f238df, 0xc2f0b90ffce80739, 0xe21095012ee0b72a, 0x0ae48cf840bb8be9, 0x740e347f24e18fda);
    Turn(FromWords(INITIAL_384), b, 48, r48, 0x19a4c116b8d2d0c8, 0xebeaf1237248019c, r49);
    var r50 := Regs(0x317a3b295b991914, 0xd3698fb64df175b0, 0xa6998d63a5d09e04, 0xeb3753f4283f4818, 0x1cadff2e6cb5aa4d, 0xc2f0b90ffce80739, 0xe21095012ee0b72a, 0x0ae48cf840bb8be9);
    Turn(FromWords(INITIAL_384), b, 49, r49, 0x1e376c085141ab53, 0x361e80b2d00f3193, r50);
    var r51 := Regs(0x0941da08148ba463, 0x317a3b295b991914, 0xd3698fb64df175b0, 0xa6998d63a5d09e04, 0x833eb9a4bb5a073e, 0x1cadff2e6cb5aa4d, 0xc2f0b90ffce80739, 0xe21095012ee0b72a);
    Turn(FromWords(INITIAL_384), b, 50, r50, 0x2748774cdf8eeb99, 0x2e9839125df3b175, r51);
    var r52 := Regs(0x494ac238d68c3d0b, 0x0941da08148ba463, 0x317a3b295b991914, 0xd3698fb64df175b0, 0x80c8fc138e645028, 0x833eb9a4bb5a073e, 0x1cadff2e6cb5aa4d, 0xc2f0b90ffce80739);
    Turn(FromWords(INITIAL_384), b, 51, r51, 0x34b0bcb5e19b48a8, 0x3319629293ad5363, r52);
    var r53 := Regs(0xc87e9168db9e97de, 0x494ac238d68c3d0b, 0x0941da08148ba463, 0x317a3b295b991914, 0x65cf7f6a829aca04, 0x80c8fc138e645028, 0x833eb9a4bb5a073e, 0x1cadff2e6cb5aa4d);
    Turn(FromWords(INITIAL_384), b, 52, r52, 0x391c0cb3c5c95a63, 0x9cbc5d89ac1b89d5, r53);
    var r54 := Regs(0xedb4448879391dbb, 0xc87e9168db9e97de, 0x494ac238d68c3d0b, 0x0941da08148ba463, 0x7729c85475dd318f, 0x65cf7f6a829aca04, 0x80c8fc138e645028, 0x833eb9a4bb5a073e);
    Turn(FromWords(INITIAL_384), b, 53, r53, 0x4ed8aa4ae3418acb, 0x275e23ffeeca50b7, r54);
    var r55 := Regs(0x073775c2456dc7db, 0xedb4448879391dbb, 0xc87e9168db9e97de, 0x494ac238d68c3d0b, 0xa9cca0b6266b1d77, 0x7729c85475dd318f, 0x65cf7f6a829aca04, 0x80c8fc138e645028);
    Turn(FromWords(INITIAL_384), b, 54, r54, 0x5b9cca4f7763e373, 0x3b80d680bf69ef58, r55);
    var r56 := Regs(0x54de8857b24afaf7, 0x073775c2456dc7db, 0xedb4448879391dbb, 0xc87e9168db9e97de, 0x8de51cff2ae4b068, 0xa9cca0b6266b1d77, 0x7729c85475dd318f, 0x65cf7f6a829aca04);
    Turn(FromWords(INITIAL_384), b, 55, r55, 0x682e6ff3d6b2b8a3, 0x0d0696933945a125, r56);
  }

  lemma Sha384After64(b: seq<bv8>)
    requires IsBlock(b)
    ensures Rounds(Ops512, FromWords(INITIAL_384), b, 64) ==
      Regs(0x24a1124262a331c7, 0x56fb5883f1c87a05, 0x3dc764f89e54043a, 0x1ca93a293d544328, 0x06edacae6e7b54ad, 0xf5198a41eb80e022, 0xa57784945550cf94, 0xefbef83a35c0319e)
  {
    hide Schedule, Rounds, IsBlock, K512At;
    KeysFrom56();
    Sha384After56(b);
    WordsFrom56(b);
    var r56 := Regs(0x54de8857b24afaf7, 0x073775c2456dc7db, 0xedb4448879391dbb, 0xc87e9168db9e97de, 0x8de51cff2ae4b068, 0xa9cca0b6266b1d77, 0x7729c85475dd318f, 0x65cf7f6a829aca04);
    var r57 := Regs(0x8a9cdd80f7f09c05, 0x54de8857b24afaf7, 0x073775c2456dc7db, 0xedb4448879391dbb, 0xa60ba5e9ebaeb96a, 0x8de51cff2ae4b068, 0xa9cca0b6266b1d77, 0x7729c85475dd318f);
    Turn(FromWords(INITIAL_384), b, 56, r56, 0x748f82ee5defb2fc, 0x7533eabcb786ff00, r57);
    var r58 := Regs(0x3eeb22a7524d8d7f, 0x8a9cdd80f7f09c05, 0x54de8857b24afaf7, 0x073775c2456dc7db, 0xe2e6830b139df58f, 0xa60ba5e9ebaeb96a, 0x8de51cff2ae4b068, 0xa9cca0b6266b1d77);
    Turn(FromWords(INITIAL_384), b, 57, r57, 0x78a5636f43172f60, 0xb89826cee6fbf0e5, r58);
    var r59 := Regs(0x0ed77c9cde8883d3, 0x3eeb22a7524d8d7f, 0x8a9cdd80f7f09c05, 0x54de8857b24afaf7, 0x38413a2052387a9e, 0xe2e6830b139df58f, 0xa60ba5e9ebaeb96a, 0x8de51cff2ae4b068);
    Turn(FromWords(INITIAL_384), b, 58, r58, 0x84c87814a1f0ab72, 0x249b4fbcad623e9f, r59);
    var r60 := Regs(0xe64e4135f9d30dbc, 0x0ed77c9cde8883d3, 0x3eeb22a7524d8d7f, 0x8a9cdd80f7f09c05, 0x45b640454c75c349, 0x38413a2052387a9e, 0xe2e6830b139df58f, 0xa60ba5e9ebaeb96a);
    Turn(FromWords(INITIAL_384), b, 59, r59, 0x8cc702081a6439ec, 0x4aea9df2b02d6f1e, r60);
    var r61 := Regs(0x1ca93a293d544328, 0xe64e4135f9d30dbc, 0x0ed77c9cde8883d3, 0x3eeb22a7524d8d7f, 0xefbef83a35c0319e, 0x45b640454c75c349, 0x38413a2052387a9e, 0xe2e6830b139df58f);
    Turn(FromWords(INITIAL_384), b, 60, r60, 0x90befffa23631e28, 0x2cc57475a55e8d8f, r61);
    var r62 := Regs(0x3dc764f89e54043a, 0x1ca93a293d544328, 0xe64e4135f9d30dbc, 0x0ed77c9cde8883d3, 0xa57784945550cf94, 0xefbef83a35c0319e, 0x45b640454c75c349, 0x38413a2052387a9e);
    Turn(FromWords(INITIAL_384), b, 61, r61, 0xa4506cebde82bde9, 0xb2574ae938d8be89, r62);
    var r63 := Regs(0x56fb5883f1c87a05, 0x3dc764f89e54043a, 0x1ca93a293d544328, 0xe64e4135f9d30dbc, 0xf5198a41eb80e022, 0xa57784945550cf94, 0xefbef83a35c0319e, 0x45b640454c75c349);
    Turn(FromWords(INITIAL_384), b, 62, r62, 0xbef9a3f7b2c67915, 0xc1b35a57b16d6aea, r63);
    var r64 := Regs(0x24a1124262a331c7, 0x56fb5883f1c87a05, 0x3dc764f89e54043a, 0x1ca93a293d544328, 0x06edacae6e7b54ad, 0xf5198a41eb80e022, 0xa57784945550cf94, 0xefbef83a35c0319e);
    Turn(FromWords(INITIAL_384), b, 63, r63, 0xc67178f2e372532b, 0xcc4918b5949206bb, r64);
  }

  lemma Sha384After72(b: seq<bv8>)
    requires IsBlock(b)
    ensures Rounds(Ops512, FromWords(INITIAL_384), b, 72) ==
      Regs(0xbcd5061679be7336, 0x32e5ed8655871e9b, 0x8c5d3b7fdad66e70, 0x1e6e0255ab88079f, 0x454b99f654443ad0, 0x51105f6241313777, 0x90d18ec8b69f0345, 0xf2001138439902b1)
  {
    hide Schedule, Rounds, IsBlock, K512At;
    KeysFrom64();
    Sha384After64(b);
    WordsFrom64(b);
    var r64 := Regs(0x24a1124262a331c7, 0x56fb5883f1c87a05, 0x3dc764f89e54043a, 0x1ca93a293d544328, 0x06edacae6e7b54ad, 0xf5198a41eb80e022, 0xa57784945550cf94, 0xefbef83a35c0319e);
    var r65 := Regs(0xeb85d19201c89694, 0x24a1124262a331c7, 0x56fb5883f1c87a05, 0x3dc764f89e54043a, 0x9ced24983eec8723, 0x06edacae6e7b54ad, 0xf5198a41eb80e022, 0xa57784945550cf94);
    Turn(FromWords(INITIAL_384), b, 64, r64, 0xca273eceea26619c, 0x5099c3add79f90ec, r65);
    var r66 := Regs(0xcc981ab3a59c1db4, 0xeb85d19201c89694, 0x24a1124262a331c7, 0x56fb5883f1c87a05, 0xeac5516336bc8882, 0x9ced24983eec8723, 0x06edacae6e7b54ad, 0xf5198a41eb80e022);
    Turn(FromWords(INITIAL_384), b, 65, r65, 0xd186b8c721c0c207, 0x5ea81d78e7660bf1, r66);
    var r67 := Regs(0xceef5d997e148b44, 0xcc981ab3a59c1db4, 0xeb85d19201c89694, 0x24a1124262a331c7, 0x617bbf70bb165212, 0xeac5516336bc8882, 0x9ced24983eec8723, 0x06edacae6e7b54ad);
    Turn(FromWords(INITIAL_384), b, 66, r66, 0xeada7dd6cde0eb1e, 0xebee6267405ac2a9, r67);
    var r68 := Regs(0x689edf608a8e3f14, 0xceef5d997e148b44, 0xcc981ab3a59c1db4, 0xeb85d19201c89694, 0x3280d88472c100fd, 0x617bbf70bb165212, 0xeac5516336bc8882, 0x9ced24983eec8723);
    Turn(FromWords(INITIAL_384), b, 67, r67, 0xf57d4f7fee6ed178, 0xb01f21926108a4ab, r68);
    var r69 := Regs(0x1e6e0255ab88079f, 0x689edf608a8e3f14, 0xceef5d997e148b44, 0xcc981ab3a59c1db4, 0xf2001138439902b1, 0x3280d88472c100fd, 0x617bbf70bb165212, 0xeac5516336bc8882);
    Turn(FromWords(INITIAL_384), b, 68, r68, 0x06f067aa72176fba, 0x786433dd2fe65556, r69);
    var r70 := Regs(0x8c5d3b7fdad66e70, 0x1e6e0255ab88079f, 0x689edf608a8e3f14, 0xceef5d997e148b44, 0x90d18ec8b69f0345, 0xf2001138439902b1, 0x3280d88472c100fd, 0x617bbf70bb165212);
    Turn(FromWords(INITIAL_384), b, 69, r69, 0x0a637dc5a2c898a6, 0xc54a6eaa24a0552c, r70);
    var r71 := Regs(0x32e5ed8655871e9b, 0x8c5d3b7fdad66e70, 0x1e6e0255ab88079f, 0x689edf608a8e3f14, 0x51105f6241313777, 0x90d18ec8b69f0345, 0xf2001138439902b1, 0x3280d88472c100fd);
    Turn(FromWords(INITIAL_384), b, 70, r70, 0x113f9804bef90dae, 0xb3c8f1530bdbaa9e, r71);
    var r72 := Regs(0xbcd5061679be7336, 0x32e5ed8655871e9b, 0x8c5d3b7fdad66e70, 0x1e6e0255ab88079f, 0x454b99f654443ad0, 0x51105f6241313777, 0x90d18ec8b69f0345, 0xf2001138439902b1);
    Turn(FromWords(INITIAL_384), b, 71, r71, 0x1b710b35131c471b, 0xbb8abfe56f469338, r72);
  }

  lemma Sha384After80(b: seq<bv8>)
    requires IsBlock(b)
    ensures Rounds(Ops512, FromWords(INITIAL_384), b, 80) ==
      Regs(0xff44d7e1849dbfb3, 0x5306143f64497b00, 0x95d33150de6df44c, 0x055b73814cf102b4, 0x1952e0c3a227c0f2, 0xca06a219cc701096, 0xc7f7bff08ebf0d30, 0xc4b149710f5d6a71)
  {
    hide Schedule, Rounds, IsBlock, K512At;
    KeysFrom72();
    Sha384After72(b);
    WordsFrom72(b);
    var r72 := Regs(0xbcd5061679be7336, 0x32e5ed8655871e9b, 0x8c5d3b7fdad66e70, 0x1e6e0255ab88079f, 0x454b99f654443ad0, 0x51105f6241313777, 0x90d18ec8b69f0345, 0xf2001138439902b1);
    var r73 := Regs(0xe7d913b6678e78ef, 0xbcd5061679be7336, 0x32e5ed8655871e9b, 0x8c5d3b7fdad66e70, 0x1ff613b5aa63776e, 0x454b99f654443ad0, 0x51105f6241313777, 0x90d18ec8b69f0345);
    Turn(FromWords(INITIAL_384), b, 72, r72, 0x28db77f523047d84, 0xf63d4265cc1c5a78, r73);
    var r74 := Regs(0xe6b8cb8dfa3475ab, 0xe7d913b6678e78ef, 0xbcd5061679be7336, 0x32e5ed8655871e9b, 0x2e75f34303d39bb0, 0x1ff613b5aa63776e, 0x454b99f654443ad0, 0x51105f6241313777);
    Turn(FromWords(INITIAL_384), b, 73, r73, 0x32caab7b40c72493, 0xbe8355ea73129afb, r74);
    var r75 := Regs(0xfdd4a30e168c4ae5, 0xe6b8cb8dfa3475ab, 0xe7d913b6678e78ef, 0xbcd5061679be7336, 0x83a35dbe2a64fc26, 0x2e75f34303d39bb0, 0x1ff613b5aa63776e, 0x454b99f654443ad0);
    Turn(FromWords(INITIAL_384), b, 74, r74, 0x3c9ebe0a15c9bebc, 0x49e2db8ebdcfbeb5, r75);
    var r76 := Regs(0x12aeb6268dfa3e14, 0xfdd4a30e168c4ae5, 0xe6b8cb8dfa3475ab, 0xe7d913b6678e78ef, 0xf660943b276786f7, 0x83a35dbe2a64fc26, 0x2e75f34303d39bb0, 0x1ff613b5aa63776e);
    Turn(FromWords(INITIAL_384), b, 75, r75, 0x431d67c49c100d4c, 0x82269d4a883a3d99, r76);
    var r77 := Regs(0x055b73814cf102b4, 0x12aeb6268dfa3e14, 0xfdd4a30e168c4ae5, 0xe6b8cb8dfa3475ab, 0xc4b149710f5d6a71, 0xf660943b276786f7, 0x83a35dbe2a64fc26, 0x2e75f34303d39bb0);
    Turn(FromWords(INITIAL_384), b, 76, r76, 0x4cc5d4becb3e42b6, 0xfdf53df3011f362b, r77);
    var r78 := Regs(0x95d33150de6df44c, 0x055b73814cf102b4, 0x12aeb6268dfa3e14, 0xfdd4a30e168c4ae5, 0xc7f7bff08ebf0d30, 0xc4b149710f5d6a71, 0xf660943b276786f7, 0x83a35dbe2a64fc26);
    Turn(FromWords(INITIAL_384), b, 77, r77, 0x597f299cfc657e2a, 0x464af5671d71c12e, r78);
    var r79 := Regs(0x5306143f64497b00, 0x95d33150de6df44c, 0x055b73814cf102b4, 0x12aeb6268dfa3e14, 0xca06a219cc701096, 0xc7f7bff08ebf0d30, 0xc4b149710f5d6a71, 0xf660943b276786f7);
    Turn(FromWords(INITIAL_384), b, 78, r78, 0x5fcb6fab3ad6faec, 0xe449b68198ec611c, r79);
    var r80 := Regs(0xff44d7e1849dbfb3, 0x5306143f64497b00, 0x95d33150de6df44c, 0x055b73814cf102b4, 0x1952e0c3a227c0f2, 0xca06a219cc701096, 0xc7f7bff08ebf0d30, 0xc4b149710f5d6a71);
    Turn(FromWords(INITIAL_384), b, 79, r79, 0x6c44198c4a475817, 0x92aeeed1a7bcf7d2, r80);
  }

  lemma Sha384Compressed(b: seq<bv8>)
    requires IsBlock(b)
    ensures Compress(Ops512, FromWords(INITIAL_384), b) ==
      Regs(0xcb00753f45a35e8b, 0xb5a03d699ac65007, 0x272c32ab0eded163, 0x1a8b605a43ff5bed, 0x8086072ba1e7cc23, 0x58baeca134c825a7, 0xa303edfdf3b89cd7, 0x0c66918ece57ba15)
  {
    hide Rounds, IsBlock;
    Sha384After80(b);
  }

  lemma Sha384Words()
    ensures Bytes64(0xcb00753f45a35e8b) == [0xcb, 0x00, 0x75, 0x3f, 0x45, 0xa3, 0x5e, 0x8b]
    ensures Bytes64(0xb5a03d699ac65007) == [0xb5, 0xa0, 0x3d, 0x69, 0x9a, 0xc6, 0x50, 0x07]
    ensures Bytes64(0x272c32ab0eded163) == [0x27, 0x2c, 0x32, 0xab, 0x0e, 0xde, 0xd1, 0x63]
    ensures Bytes64(0x1a8b605a43ff5bed) == [0x1a, 0x8b, 0x60, 0x5a, 0x43, 0xff, 0x5b, 0xed]
    ensures Bytes64(0x8086072ba1e7cc23) == [0x80, 0x86, 0x07, 0x2b, 0xa1, 0xe7, 0xcc, 0x23]
    ensures Bytes64(0x58baeca134c825a7) == [0x58, 0xba, 0xec, 0xa1, 0x34, 0xc8, 0x25, 0xa7]
  {
  }

  lemma Sha384Bytes()
    ensures BigEndian(Ops512, Words(Regs(0xcb00753f45a35e8b, 0xb5a03d699ac65007, 0x272c32ab0eded163, 0x1a8b605a43ff5bed, 0x8086072ba1e7cc23, 0x58baeca134c825a7, 0xa303edfdf3b89cd7, 0x0c66918ece57ba15))[..6]) ==
      [0xcb, 0x00, 0x75, 0x3f, 0x45, 0xa3, 0x5e, 0x8b] + [0xb5, 0xa0, 0x3d, 0x69, 0x9a, 0xc6, 0x50, 0x07] +
      [0x27, 0x2c, 0x32, 0xab, 0x0e, 0xde, 0xd1, 0x63] + [0x1a, 0x8b, 0x60, 0x5a, 0x43, 0xff, 0x5b, 0xed] +
      [0x80, 0x86, 0x07, 0x2b, 0xa1, 0xe7, 0xcc, 0x23] + [0x58, 0xba, 0xec, 0xa1, 0x34, 0xc8, 0x25, 0xa7]
  {
    hide Bytes64, BigEndian;
    Sha384Words();
    FirstWords6(Regs(0xcb00753f45a35e8b, 0xb5a03d699ac65007, 0x272c32ab0eded163, 0x1a8b605a43ff5bed, 0x8086072ba1e7cc23, 0x58baeca134c825a7, 0xa303edfdf3b89cd7, 0x0c66918ece57ba15));
  }

  /** SHA-384("abc"). */
  lemma Sha384OfAbc()
    ensures Hash(Ops512, FromWords(INITIAL_384), 6, [0x61, 0x62, 0x63]) ==
      [0xcb, 0x00, 0x75, 0x3f, 0x45, 0xa3, 0x5e, 0x8b] + [0xb5, 0xa0, 0x3d, 0x69, 0x9a, 0xc6, 0x50, 0x07] +
      [0x27, 0x2c, 0x32, 0xab, 0x0e, 0xde, 0xd1, 0x63] + [0x1a, 0x8b, 0x60, 0x5a, 0x43, 0xff, 0x5b, 0xed] +
      [0x80, 0x86, 0x07, 0x2b, 0xa1, 0xe7, 0xcc, 0x23] + [0x58, 0xba, 0xec, 0xa1, 0x34, 0xc8, 0x25, 0xa7]
  {
    hide Pad, Compress, BigEndian, IsBlock, Words;
    var b := Pad(Ops512, [0x61, 0x62, 0x63]);
    AbcIsPadded();
    BlockLengthOf(b);
    AbsorbBlock(Ops512, FromWords(INITIAL_384), b);
    Sha384Compressed(b);
    hide Absorb;
    Sha384Bytes();
  }

}
