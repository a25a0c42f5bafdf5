/** SHA-256, SHA-384 and SHA-512: the word operations and constants of Lua/sha2.c:92-299, and that they
    are what the transforms and the padding rely on. */
module Sha2Words {
  import opened Sha2
  import opened Sha2Count
  import opened Sha2Stream

  // ----- 32-bit words -------------------------------------------------------

  function Add32(x: bv32, y: bv32): bv32 { x + y }

  function S32(b: nat, x: bv32): bv32
    requires b < 32
  {
    (x >> b) | (x << (32 - b))
  }

  /** Rotation to the left, for SHA-1 and MD5. */
  function Rol32(x: bv32, b: nat): bv32
    requires b < 32
  {
    (x << b) | (x >> (32 - b))
  }

  function Ch32(x: bv32, y: bv32, z: bv32): bv32 { (x & y) ^ ((!x) & z) }

  function Maj32(x: bv32, y: bv32, z: bv32): bv32 { (x & y) ^ (x & z) ^ (y & z) }

  function BigSigma0_256(x: bv32): bv32 { S32(2, x) ^ S32(13, x) ^ S32(22, x) }

  function BigSigma1_256(x: bv32): bv32 { S32(6, x) ^ S32(11, x) ^ S32(25, x) }

  function Sigma0_256(x: bv32): bv32 { S32(7, x) ^ S32(18, x) ^ (x >> 3) }

  function Sigma1_256(x: bv32): bv32 { S32(17, x) ^ S32(19, x) ^ (x >> 10) }

  /** REVERSE32. */
  function Reverse32(w: bv32): bv32 {
    var tmp := (w >> 16) | (w << 16);
    ((tmp & 0xFF00FF00) >> 8) | ((tmp & 0x00FF00FF) << 8)
  }

  function Word32(a: bv8, b: bv8, c: bv8, d: bv8): bv32 {
    (d as bv32) | ((c as bv32) << 8) | ((b as bv32) << 16) | ((a as bv32) << 24)
  }

  function LoadBE32(s: seq<bv8>): bv32 {
    if |s| == 4 then Word32(s[0], s[1], s[2], s[3]) else 0
  }

  /** A little-endian host. */
  function LoadNative32(s: seq<bv8>): bv32 {
    if |s| == 4 then Word32(s[3], s[2], s[1], s[0]) else 0
  }

  function Byte32(x: bv32, i: nat): bv8
    requires i < 4
  {
    if i == 0 then (x >> 24) as bv8
    else if i == 1 then ((x >> 16) & 0xFF) as bv8
    else if i == 2 then ((x >> 8) & 0xFF) as bv8
    else (x & 0xFF) as bv8
  }

  function StoreBE32(x: bv32): seq<bv8> { [Byte32(x, 0), Byte32(x, 1), Byte32(x, 2), Byte32(x, 3)] }

  function StoreNative32(x: bv32): seq<bv8> { [Byte32(x, 3), Byte32(x, 2), Byte32(x, 1), Byte32(x, 0)] }

  lemma Load32(x: bv32)
    ensures Word32(Byte32(x, 0), Byte32(x, 1), Byte32(x, 2), Byte32(x, 3)) == x
  {
  }

  lemma Reversed32(x: bv32)
    ensures Byte32(Reverse32(x), 3) == Byte32(x, 0) && Byte32(Reverse32(x), 2) == Byte32(x, 1)
    ensures Byte32(Reverse32(x), 1) == Byte32(x, 2) && Byte32(Reverse32(x), 0) == Byte32(x, 3)
  {
  }

  function Sum32(x: bv32, y: bv32, z: bv32): bv32 { x + y + z }

  lemma AddIs32(x: bv32, y: bv32)
    ensures Add32(x, y) == x + y && Add32(x, y) == Add32(y, x)
  {
  }

  lemma SumLeft32(x: bv32, y: bv32, z: bv32)
    ensures Add32(x + y, z) == Sum32(x, y, z)
  {
  }

  lemma SumRight32(x: bv32, y: bv32, z: bv32)
    ensures Add32(x, y + z) == Sum32(x, y, z)
  {
  }

  lemma AddLaws32(x: bv32, y: bv32, z: bv32)
    ensures Add32(x, y) == Add32(y, x) && Add32(Add32(x, y), z) == Add32(x, Add32(y, z))
  {
    hide Add32, Sum32;
    AddIs32(x, y);
    AddIs32(y, z);
    SumLeft32(x, y, z);
    SumRight32(x, y, z);
  }

  function K256Row0(t: nat): bv32 {
    match t case 0 => 0x428a2f98 case 1 => 0x71374491 case 2 => 0xb5c0fbcf case 3 => 0xe9b5dba5 case 4 => 0x3956c25b case 5 => 0x59f111f1
    case 6 => 0x923f82a4 case 7 => 0xab1c5ed5 case 8 => 0xd807aa98 case 9 => 0x12835b01 case 10 => 0x243185be case 11 => 0x550c7dc3
    case 12 => 0x72be5d74 case 13 => 0x80deb1fe case 14 => 0x9bdc06a7 case _ => 0xc19bf174
  }

  function K256Row1(t: nat): bv32 {
    match t case 16 => 0xe49b69c1 case 17 => 0xefbe4786 case 18 => 0x0fc19dc6 case 19 => 0x240ca1cc case 20 => 0x2de92c6f case 21 => 0x4a7484aa
    case 22 => 0x5cb0a9dc case 23 => 0x76f988da case 24 => 0x983e5152 case 25 => 0xa831c66d case 26 => 0xb00327c8 case 27 => 0xbf597fc7
    case 28 => 0xc6e00bf3 case 29 => 0xd5a79147 case 30 => 0x06ca6351 case _ => 0x14292967
  }

  function K256Row2(t: nat): bv32 {
    match t case 32 => 0x27b70a85 case 33 => 0x2e1b2138 case 34 => 0x4d2c6dfc case 35 => 0x53380d13 case 36 => 0x650a7354 case 37 => 0x766a0abb
    case 38 => 0x81c2c92e case 39 => 0x92722c85 case 40 => 0xa2bfe8a1 case 41 => 0xa81a664b case 42 => 0xc24b8b70 case 43 => 0xc76c51a3
    case 44 => 0xd192e819 case 45 => 0xd6990624 case 46 => 0xf40e3585 case _ => 0x106aa070
  }

  function K256Row3(t: nat): bv32 {
    match t case 48 => 0x19a4c116 case 49 => 0x1e376c08 case 50 => 0x2748774c case 51 => 0x34b0bcb5 case 52 => 0x391c0cb3 case 53 => 0x4ed8aa4a
    case 54 => 0x5b9cca4f case 55 => 0x682e6ff3 case 56 => 0x748f82ee case 57 => 0x78a5636f case 58 => 0x84c87814 case 59 => 0x8cc70208
    case 60 => 0x90befffa case 61 => 0xa4506ceb case 62 => 0xbef9a3f7 case _ => 0xc67178f2
  }

  function K256At(t: nat): bv32 {
    if t < 16 then K256Row0(t) else if t < 32 then K256Row1(t) else if t < 48 then K256Row2(t) else K256Row3(t)
  }


  const INITIAL_256: seq<bv32> := [
    0x6a09e667, 0xbb67ae85, 0x3c6ef372, 0xa54ff53a, 0x510e527f, 0x9b05688c, 0x1f83d9ab, 0x5be0cd19]

  const Ops256: Ops<bv32> := Ops(false, 64, K256At, Add32, BigSigma0_256, BigSigma1_256, Sigma0_256, Sigma1_256, Ch32, Maj32,
                                 LoadBE32, StoreBE32, LoadNative32, StoreNative32, Reverse32)

  lemma Commutes256()
    ensures IsCommutative(Ops256)
  {
    hide Add32;
    forall x, y ensures Ops256.add(x, y) == Ops256.add(y, x) { AddLaws32(x, y, x); }
  }

  lemma Associates256()
    ensures IsAssociative(Ops256)
  {
    hide Add32;
    forall x, y, z ensures Ops256.add(Ops256.add(x, y), z) == Ops256.add(x, Ops256.add(y, z)) { AddLaws32(x, y, z); }
  }

  lemma AddLaws256()
    ensures AddLaws(Ops256)
  {
    hide IsCommutative, IsAssociative;
    Commutes256();
    Associates256();
  }

  lemma StoreLaws256()
    ensures StoreLaws(Ops256)
  {
    hide Word32, Byte32, Reverse32;
    forall w ensures |Ops256.storeNative(w)| == Off(Ops256, 1) && Ops256.loadNative(Ops256.storeNative(w)) == w {
      Load32(w);
    }
    forall w ensures Ops256.storeNative(Ops256.reverse(w)) == Ops256.storeBE(w) {
      Reversed32(w);
    }
  }

  lemma Lawful256()
    ensures Lawful(Ops256)
  {
    hide AddLaws, StoreLaws;
    AddLaws256();
    StoreLaws256();
  }

  // ----- 64-bit words -------------------------------------------------------

  function Add64(x: bv64, y: bv64): bv64 { x + y }

  function S64(b: nat, x: bv64): bv64
    requires b < 64
  {
    (x >> b) | (x << (64 - b))
  }

  function Ch64(x: bv64, y: bv64, z: bv64): bv64 { (x & y) ^ ((!x) & z) }

  function Maj64(x: bv64, y: bv64, z: bv64): bv64 { (x & y) ^ (x & z) ^ (y & z) }

  function BigSigma0_512(x: bv64): bv64 { S64(28, x) ^ S64(34, x) ^ S64(39, x) }

  function BigSigma1_512(x: bv64): bv64 { S64(14, x) ^ S64(18, x) ^ S64(41, x) }

  function Sigma0_512(x: bv64): bv64 { S64(1, x) ^ S64(8, x) ^ (x >> 7) }

  function Sigma1_512(x: bv64): bv64 { S64(19, x) ^ S64(61, x) ^ (x >> 6) }

  function Word64Of(a: bv8, b: bv8, c: bv8, d: bv8, e: bv8, f: bv8, g: bv8, h: bv8): bv64 {
    (h as bv64) | ((g as bv64) << 8) | ((f as bv64) << 16) | ((e as bv64) << 24) |
    ((d as bv64) << 32) | ((c as bv64) << 40) | ((b as bv64) << 48) | ((a as bv64) << 56)
  }

  function LoadBE64(s: seq<bv8>): bv64 {
    if |s| == 8 then Word64Of(s[0], s[1], s[2], s[3], s[4], s[5], s[6], s[7]) else 0
  }

  function LoadNative64(s: seq<bv8>): bv64 {
    if |s| == 8 then Word64Of(s[7], s[6], s[5], s[4], s[3], s[2], s[1], s[0]) else 0
  }

  lemma Load64(x: bv64)
    ensures LoadNative64(Native64(x)) == x
  {
  }

  function Sum64(x: bv64, y: bv64, z: bv64): bv64 { x + y + z }

  lemma AddIs64(x: bv64, y: bv64)
    ensures Add64(x, y) == x + y && Add64(x, y) == Add64(y, x)
  {
  }

  lemma SumLeft64(x: bv64, y: bv64, z: bv64)
    ensures Add64(x + y, z) == Sum64(x, y, z)
  {
  }

  lemma SumRight64(x: bv64, y: bv64, z: bv64)
    ensures Add64(x, y + z) == Sum64(x, y, z)
  {
  }

  lemma AddLaws64(x: bv64, y: bv64, z: bv64)
    ensures Add64(x, y) == Add64(y, x) && Add64(Add64(x, y), z) == Add64(x, Add64(y, z))
  {
    hide Add64, Sum64;
    AddIs64(x, y);
    AddIs64(y, z);
    SumLeft64(x, y, z);
    SumRight64(x, y, z);
  }

  function K512Row0(t: nat): bv64 {
    match t case 0 => 0x428a2f98d728ae22 case 1 => 0x7137449123ef65cd case 2 => 0xb5c0fbcfec4d3b2f case 3 => 0xe9b5dba58189dbbc
    case 4 => 0x3956c25bf348b538 case 5 => 0x59f111f1b605d019 case 6 => 0x923f82a4af194f9b case 7 => 0xab1c5ed5da6d8118
    case 8 => 0xd807aa98a3030242 case 9 => 0x12835b0145706fbe case 10 => 0x243185be4ee4b28c case 11 => 0x550c7dc3d5ffb4e2
    case 12 => 0x72be5d74f27b896f case 13 => 0x80deb1fe3b1696b1 case 14 => 0x9bdc06a725c71235 case _ => 0xc19bf174cf692694
  }

  function K512Row1(t: nat): bv64 {
    match t case 16 => 0xe49b69c19ef14ad2 case 17 => 0xefbe4786384f25e3 case 18 => 0x0fc19dc68b8cd5b5 case 19 => 0x240ca1cc77ac9c65
    case 20 => 0x2de92c6f592b0275 case 21 => 0x4a7484aa6ea6e483 case 22 => 0x5cb0a9dcbd41fbd4 case 23 => 0x76f988da831153b5
    case 24 => 0x983e5152ee66dfab case 25 => 0xa831c66d2db43210 case 26 => 0xb00327c898fb213f case 27 => 0xbf597fc7beef0ee4
    case 28 => 0xc6e00bf33da88fc2 case 29 => 0xd5a79147930aa725 case 30 => 0x06ca6351e003826f case _ => 0x142929670a0e6e70
  }

  function K512Row2(t: nat): bv64 {
    match t case 32 => 0x27b70a8546d22ffc case 33 => 0x2e1b21385c26c926 case 34 => 0x4d2c6dfc5ac42aed case 35 => 0x53380d139d95b3df
    case 36 => 0x650a73548baf63de case 37 => 0x766a0abb3c77b2a8 case 38 => 0x81c2c92e47edaee6 case 39 => 0x92722c851482353b
    case 40 => 0xa2bfe8a14cf10364 case 41 => 0xa81a664bbc423001 case 42 => 0xc24b8b70d0f89791 case 43 => 0xc76c51a30654be30
    case 44 => 0xd192e819d6ef5218 case 45 => 0xd69906245565a910 case 46 => 0xf40e35855771202a case _ => 0x106aa07032bbd1b8
  }

  function K512Row3(t: nat): bv64 {
    match t case 48 => 0x19a4c116b8d2d0c8 case 49 => 0x1e376c085141ab53 case 50 => 0x2748774cdf8eeb99 case 51 => 0x34b0bcb5e19b48a8
    case 52 => 0x391c0cb3c5c95a63 case 53 => 0x4ed8aa4ae3418acb case 54 => 0x5b9cca4f7763e373 case 55 => 0x682e6ff3d6b2b8a3
    case 56 => 0x748f82ee5defb2fc case 57 => 0x78a5636f43172f60 case 58 => 0x84c87814a1f0ab72 case 59 => 0x8cc702081a6439ec
    case 60 => 0x90befffa23631e28 case 61 => 0xa4506cebde82bde9 case 62 => 0xbef9a3f7b2c67915 case _ => 0xc67178f2e372532b
  }

  function K512Row4(t: nat): bv64 {
    match t case 64 => 0xca273eceea26619c case 65 => 0xd186b8c721c0c207 case 66 => 0xeada7dd6cde0eb1e case 67 => 0xf57d4f7fee6ed178
    case 68 => 0x06f067aa72176fba case 69 => 0x0a637dc5a2c898a6 case 70 => 0x113f9804bef90dae case 71 => 0x1b710b35131c471b
    case 72 => 0x28db77f523047d84 case 73 => 0x32caab7b40c72493 case 74 => 0x3c9ebe0a15c9bebc case 75 => 0x431d67c49c100d4c
    case 76 => 0x4cc5d4becb3e42b6 case 77 => 0x597f299cfc657e2a case 78 => 0x5fcb6fab3ad6faec case _ => 0x6c44198c4a475817
  }

  function K512At(t: nat): bv64 {
    if t < 16 then K512Row0(t) else if t < 32 then K512Row1(t) else if t < 48 then K512Row2(t) else if t < 64 then K512Row3(t) else K512Row4(t)
  }


  const INITIAL_512: seq<bv64> := [
    0x6a09e667f3bcc908, 0xbb67ae8584caa73b, 0x3c6ef372fe94f82b, 0xa54ff53a5f1d36f1,
    0x510e527fade682d1, 0x9b05688c2b3e6c1f, 0x1f83d9abfb41bd6b, 0x5be0cd19137e2179]

  const INITIAL_384: seq<bv64> := [
    0xcbbb9d5dc1059ed8, 0x629a292a367cd507, 0x9159015a3070dd17, 0x152fecd8f70e5939,
    0x67332667ffc00b31, 0x8eb44a8768581511, 0xdb0c2e0d64f98fa7, 0x47b5481dbefa4fa4]

  const Ops512: Ops<bv64> := Ops(true, 80, K512At, Add64, BigSigma0_512, BigSigma1_512, Sigma0_512, Sigma1_512, Ch64, Maj64,
                                 LoadBE64, Bytes64, LoadNative64, Native64, Reverse64)

  lemma Commutes512()
    ensures IsCommutative(Ops512)
  {
    hide Add64;
    forall x, y ensures Ops512.add(x, y) == Ops512.add(y, x) { AddLaws64(x, y, x); }
  }

  lemma Associates512()
    ensures IsAssociative(Ops512)
  {
    hide Add64;
    forall x, y, z ensures Ops512.add(Ops512.add(x, y), z) == Ops512.add(x, Ops512.add(y, z)) { AddLaws64(x, y, z); }
  }

  lemma AddLaws512()
    ensures AddLaws(Ops512)
  {
    hide IsCommutative, IsAssociative;
    Commutes512();
    Associates512();
  }

  lemma StoreLaws512()
    ensures StoreLaws(Ops512)
  {
    hide Native64, Bytes64, Reverse64, LoadNative64;
    forall w ensures |Ops512.storeNative(w)| == Off(Ops512, 1) && Ops512.loadNative(Ops512.storeNative(w)) == w {
      Load64(w);
    }
    forall w ensures Ops512.storeNative(Ops512.reverse(w)) == Ops512.storeBE(w) {
      ReversedIsBigEndian(w);
    }
  }

  lemma Lawful512()
    ensures Lawful(Ops512)
  {
    hide AddLaws, StoreLaws;
    AddLaws512();
    StoreLaws512();
  }

  // ----- the three hashes ---------------------------------------------------

  /** hashes.sha256, sha384 and sha512 over a message that comes in pieces. */
  method Sha256(pieces: seq<seq<bv8>>) returns (digest: seq<bv8>)
    ensures digest == Hash(Ops256, FromWords(INITIAL_256), 8, Joined(pieces))
  {
    Lawful256();
    digest := HashOfPieces(Ops256, INITIAL_256, 8, pieces);
  }

  method Sha384(pieces: seq<seq<bv8>>) returns (digest: seq<bv8>)
    ensures digest == Hash(Ops512, FromWords(INITIAL_384), 6, Joined(pieces))
  {
    Lawful512();
    digest := HashOfPieces(Ops512, INITIAL_384, 6, pieces);
  }

  method Sha512(pieces: seq<seq<bv8>>) returns (digest: seq<bv8>)
    ensures digest == Hash(Ops512, FromWords(INITIAL_512), 8, Joined(pieces))
  {
    Lawful512();
    digest := HashOfPieces(Ops512, INITIAL_512, 8, pieces);
  }
}
