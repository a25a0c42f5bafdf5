/** The digest of "abc" that FIPS 180-4 publishes with an example for SHA-1, step by step in literals. */
module Sha1Vector {
  import opened BlockHash
  import opened Sha1
  import opened Sha2
  import opened Sha2Words

  /** The one block of the padded message. */
  predicate IsBlock(b: seq<bv8>) {
    && |b| == BLOCK && b[0] == 0x61 && b[1] == 0x62 && b[2] == 0x63 && b[3] == 0x80 && b[63] == 0x18
    && forall i :: 4 <= i < 63 ==> b[i] == 0
  }

  lemma LengthOfAbc()
    ensures Bytes64(Word64(24)) == [0, 0, 0, 0, 0, 0, 0, 0x18]
  {
    assert Word64(24) == 24;
    hide Word64;
  }

  lemma AbcIsPadded()
    ensures IsBlock(Padded([0x61, 0x62, 0x63], Bytes64(Word64(24))))
  {
    LengthOfAbc();
    assert ZeroPad(3) == 52;
    hide Bytes64, Word64, ZeroPad;
  }

  lemma LoadsAre()
    ensures LoadBE32([0, 0, 0, 0]) == 0 && LoadBE32([0x61, 0x62, 0x63, 0x80]) == 0x61626380 && LoadBE32([0, 0, 0, 0x18]) == 0x00000018
  {
  }

  lemma WordOfBlock(b: seq<bv8>, t: nat)
    requires IsBlock(b) && t < 16
    ensures Schedule1(b, t) == if t == 0 then 0x61626380 else if t == 15 then 0x00000018 else 0
  {
    var s := b[4 * t..4 * t + 4];
    assert forall i :: 0 <= i < 4 ==> s[i] == b[4 * t + i];
    LoadsAre();
    hide LoadBE32;
    if 0 < t < 15 { assert s == [0, 0, 0, 0]; }
    if t == 0 { assert s == [0x61, 0x62, 0x63, 0x80]; }
    if t == 15 { assert s == [0, 0, 0, 0x18]; }
  }

  // ----- rotations ----------------------------------------------------------

  lemma Rotations(x: bv32)
    ensures Rol32(x, 1) == x.RotateLeft(1) && Rol32(x, 5) == x.RotateLeft(5) && Rol32(x, 30) == x.RotateLeft(30)
  {
  }

  function RotOne(x: bv32): bv32 { x.RotateLeft(1) }

  function RotFive(x: bv32): bv32 { x.RotateLeft(5) }

  function RotThirty(x: bv32): bv32 { x.RotateLeft(30) }

  lemma RotsAre(x: bv32)
    ensures Rol32(x, 1) == RotOne(x) && Rol32(x, 5) == RotFive(x) && Rol32(x, 30) == RotThirty(x)
  {
    hide Rol32;
    Rotations(x);
  }

  function Mixed(w3: bv32, w8: bv32, w14: bv32, w16: bv32): bv32 {
    RotOne(w3 ^ w8 ^ w14 ^ w16)
  }

  lemma MixIs(w3: bv32, w8: bv32, w14: bv32, w16: bv32)
    ensures Mix(w3, w8, w14, w16) == Mixed(w3, w8, w14, w16)
  {
    hide Rol32, RotOne;
    RotsAre(w3 ^ w8 ^ w14 ^ w16);
  }

  lemma Word(b: seq<bv8>, t: nat, w3: bv32, w8: bv32, w14: bv32, w16: bv32, w: bv32)
    requires IsBlock(b) && t >= 16 && Schedule1(b, t - 3) == w3 && Schedule1(b, t - 8) == w8
    requires Schedule1(b, t - 14) == w14 && Schedule1(b, t - 16) == w16 && Mixed(w3, w8, w14, w16) == w
    ensures Schedule1(b, t) == w
  {
    hide Mix, Mixed, LoadBE32;
    MixIs(w3, w8, w14, w16);
  }

  function NextState(t: nat, r: State, w: bv32): State {
    State(Add32(Add32(Add32(Add32(RotFive(r.a), Logic(t, r.b, r.c, r.d)), r.e), Constant(t)), w), r.a, RotThirty(r.b), r.c, r.d)
  }

  lemma Turn(b: seq<bv8>, t: nat, r: State, w: bv32, next: State)
    requires IsBlock(b) && Steps(INITIAL, b, t) == r && Schedule1(b, t) == w && NextState(t, r, w) == next
    ensures Steps(INITIAL, b, t + 1) == next
  {
    hide Rol32, RotFive, RotThirty, Add32, Logic, Constant, Schedule1, IsBlock;
    RotsAre(r.a);
    RotsAre(r.b);
    IsLong(b);
    StepOf(b, t);
  }

  lemma StepOf(b: seq<bv8>, t: nat)
    requires |b| == BLOCK
    ensures Steps(INITIAL, b, t + 1) == Step(t, Steps(INITIAL, b, t), Schedule1(b, t))
  {
    hide Step, Schedule1;
  }

  // ----- the words and the steps --------------------------------------------

  lemma WordsFrom0(b: seq<bv8>)
    requires IsBlock(b)
    ensures Schedule1(b, 0) == 0x61626380 && Schedule1(b, 1) == 0x00000000 && Schedule1(b, 2) == 0x00000000 && Schedule1(b, 3) == 0x00000000
    ensures Schedule1(b, 4) == 0x00000000 && Schedule1(b, 5) == 0x00000000 && Schedule1(b, 6) == 0x00000000 && Schedule1(b, 7) == 0x00000000
  {
    hide Schedule1, IsBlock;
    WordOfBlock(b, 0);
    WordOfBlock(b, 1);
    WordOfBlock(b, 2);
    WordOfBlock(b, 3);
    WordOfBlock(b, 4);
    WordOfBlock(b, 5);
    WordOfBlock(b, 6);
    WordOfBlock(b, 7);
  }

  lemma WordsFrom8(b: seq<bv8>)
    requires IsBlock(b)
    ensures Schedule1(b, 8) == 0x00000000 && Schedule1(b, 9) == 0x00000000 && Schedule1(b, 10) == 0x00000000 && Schedule1(b, 11) == 0x00000000
    ensures Schedule1(b, 12) == 0x00000000 && Schedule1(b, 13) == 0x00000000 && Schedule1(b, 14) == 0x00000000 && Schedule1(b, 15) == 0x00000018
  {
    hide Schedule1, IsBlock;
    WordOfBlock(b, 8);
    WordOfBlock(b, 9);
    WordOfBlock(b, 10);
    WordOfBlock(b, 11);
    WordOfBlock(b, 12);
    WordOfBlock(b, 13);
    WordOfBlock(b, 14);
    WordOfBlock(b, 15);
  }

  lemma WordsFrom16(b: seq<bv8>)
    requires IsBlock(b)
    ensures Schedule1(b, 16) == 0xc2c4c700 && Schedule1(b, 17) == 0x00000000 && Schedule1(b, 18) == 0x00000030 && Schedule1(b, 19) == 0x85898e01
    ensures Schedule1(b, 20) == 0x00000000 && Schedule1(b, 21) == 0x00000060 && Schedule1(b, 22) == 0x0b131c03 && Schedule1(b, 23) == 0x00000030
  {
    hide Schedule1, IsBlock;
    WordsFrom0(b);
    WordsFrom8(b);
    Word(b, 16, 0x00000000, 0x00000000, 0x00000000, 0x61626380, 0xc2c4c700);
    Word(b, 17, 0x00000000, 0x00000000, 0x00000000, 0x00000000, 0x00000000);
    Word(b, 18, 0x00000018, 0x00000000, 0x00000000, 0x00000000, 0x00000030);
    Word(b, 19, 0xc2c4c700, 0x00000000, 0x00000000, 0x00000000, 0x85898e01);
    Word(b, 20, 0x00000000, 0x00000000, 0x00000000, 0x00000000, 0x00000000);
    Word(b, 21, 0x00000030, 0x00000000, 0x00000000, 0x00000000, 0x00000060);
    Word(b, 22, 0x85898e01, 0x00000000, 0x00000000, 0x00000000, 0x0b131c03);
    Word(b, 23, 0x00000000, 0x00000018, 0x00000000, 0x00000000, 0x00000030);
  }

  lemma WordsFrom24(b: seq<bv8>)
    requires IsBlock(b)
    ensures Schedule1(b, 24) == 0x85898ec1 && Schedule1(b, 25) == 0x16263806 && Schedule1(b, 26) == 0x00000000 && Schedule1(b, 27) == 0x00000180
    ensures Schedule1(b, 28) == 0x2c4c700c && Schedule1(b, 29) == 0x000000f0 && Schedule1(b, 30) == 0x93afb507 && Schedule1(b, 31) == 0x5898e048
  {
    hide Schedule1, IsBlock;
    WordsFrom8(b);
    WordsFrom16(b);
    Word(b, 24, 0x00000060, 0xc2c4c700, 0x00000000, 0x00000000, 0x85898ec1);
    Word(b, 25, 0x0b131c03, 0x00000000, 0x00000000, 0x00000000, 0x16263806);
    Word(b, 26, 0x00000030, 0x00000030, 0x00000000, 0x00000000, 0x00000000);
    Word(b, 27, 0x85898ec1, 0x85898e01, 0x00000000, 0x00000000, 0x00000180);
    Word(b, 28, 0x16263806, 0x00000000, 0x00000000, 0x00000000, 0x2c4c700c);
    Word(b, 29, 0x00000000, 0x00000060, 0x00000018, 0x00000000, 0x000000f0);
    Word(b, 30, 0x00000180, 0x0b131c03, 0xc2c4c700, 0x00000000, 0x93afb507);
    Word(b, 31, 0x2c4c700c, 0x00000030, 0x00000000, 0x00000018, 0x5898e048);
  }

  lemma WordsFrom32(b: seq<bv8>)
    requires IsBlock(b)
    ensures Schedule1(b, 32) == 0x8e9a9202 && Schedule1(b, 33) == 0x00000600 && Schedule1(b, 34) == 0xb131c0f0 && Schedule1(b, 35) == 0x16263bc6
    ensures Schedule1(b, 36) == 0x4ebed41e && Schedule1(b, 37) == 0x626380a1 && Schedule1(b, 38) == 0x16263806 && Schedule1(b, 39) == 0x000018c0
  {
    hide Schedule1, IsBlock;
    WordsFrom16(b);
    WordsFrom24(b);
    Word(b, 32, 0x000000f0, 0x85898ec1, 0x00000030, 0xc2c4c700, 0x8e9a9202);
    Word(b, 33, 0x93afb507, 0x16263806, 0x85898e01, 0x00000000, 0x00000600);
    Word(b, 34, 0x5898e048, 0x00000000, 0x00000000, 0x00000030, 0xb131c0f0);
    Word(b, 35, 0x8e9a9202, 0x00000180, 0x00000060, 0x85898e01, 0x16263bc6);
    Word(b, 36, 0x00000600, 0x2c4c700c, 0x0b131c03, 0x00000000, 0x4ebed41e);
    Word(b, 37, 0xb131c0f0, 0x000000f0, 0x00000030, 0x00000060, 0x626380a1);
    Word(b, 38, 0x16263bc6, 0x93afb507, 0x85898ec1, 0x0b131c03, 0x16263806);
    Word(b, 39, 0x4ebed41e, 0x5898e048, 0x16263806, 0x00000030, 0x000018c0);
  }

  lemma WordsFrom40(b: seq<bv8>)
    requires IsBlock(b)
    ensures Schedule1(b, 40) == 0xd2e138c4 && Schedule1(b, 41) == 0x00000f00 && Schedule1(b, 42) == 0x3afb5079 && Schedule1(b, 43) == 0x898e04e5
    ensures Schedule1(b, 44) == 0xe2ba3c2b && Schedule1(b, 45) == 0x000060c0 && Schedule1(b, 46) == 0x053a37cd && Schedule1(b, 47) == 0x74458547
  {
    hide Schedule1, IsBlock;
    WordsFrom24(b);
    WordsFrom32(b);
    Word(b, 40, 0x626380a1, 0x8e9a9202, 0x00000000, 0x85898ec1, 0xd2e138c4);
    Word(b, 41, 0x16263806, 0x00000600, 0x00000180, 0x16263806, 0x00000f00);
    Word(b, 42, 0x000018c0, 0xb131c0f0, 0x2c4c700c, 0x00000000, 0x3afb5079);
    Word(b, 43, 0xd2e138c4, 0x16263bc6, 0x000000f0, 0x00000180, 0x898e04e5);
    Word(b, 44, 0x00000f00, 0x4ebed41e, 0x93afb507, 0x2c4c700c, 0xe2ba3c2b);
    Word(b, 45, 0x3afb5079, 0x626380a1, 0x5898e048, 0x000000f0, 0x000060c0);
    Word(b, 46, 0x898e04e5, 0x16263806, 0x8e9a9202, 0x93afb507, 0x053a37cd);
    Word(b, 47, 0xe2ba3c2b, 0x000018c0, 0x00000600, 0x5898e048, 0x74458547);
  }

  lemma WordsFrom48(b: seq<bv8>)
    requires IsBlock(b)
    ensures Schedule1(b, 48) == 0xda9415ed && Schedule1(b, 49) == 0x26380a16 && Schedule1(b, 50) == 0x626383a1 && Schedule1(b, 51) == 0x4ebf54de
    ensures Schedule1(b, 52) == 0x3835b44b && Schedule1(b, 53) == 0x0000f600 && Schedule1(b, 54) == 0x1e84c7a3 && Schedule1(b, 55) == 0x98e04d98
  {
    hide Schedule1, IsBlock;
    WordsFrom32(b);
    WordsFrom40(b);
    Word(b, 48, 0x000060c0, 0xd2e138c4, 0xb131c0f0, 0x8e9a9202, 0xda9415ed);
    Word(b, 49, 0x053a37cd, 0x00000f00, 0x16263bc6, 0x00000600, 0x26380a16);
    Word(b, 50, 0x74458547, 0x3afb5079, 0x4ebed41e, 0xb131c0f0, 0x626383a1);
    Word(b, 51, 0xda9415ed, 0x898e04e5, 0x626380a1, 0x16263bc6, 0x4ebf54de);
    Word(b, 52, 0x26380a16, 0xe2ba3c2b, 0x16263806, 0x4ebed41e, 0x3835b44b);
    Word(b, 53, 0x626383a1, 0x000060c0, 0x000018c0, 0x626380a1, 0x0000f600);
    Word(b, 54, 0x4ebf54de, 0x053a37cd, 0xd2e138c4, 0x16263806, 0x1e84c7a3);
    Word(b, 55, 0x3835b44b, 0x74458547, 0x00000f00, 0x000018c0, 0x98e04d98);
  }

  lemma WordsFrom56(b: seq<bv8>)
    requires IsBlock(b)
    ensures Schedule1(b, 56) == 0x651d16a0 && Schedule1(b, 57) == 0x62658ca1 && Schedule1(b, 58) == 0x458544d6 && Schedule1(b, 59) == 0x44584cb7
    ensures Schedule1(b, 60) == 0x7ba06619 && Schedule1(b, 61) == 0x6380aea2 && Schedule1(b, 62) == 0x0ae55269 && Schedule1(b, 63) == 0x627b49a1
  {
    hide Schedule1, IsBlock;
    WordsFrom40(b);
    WordsFrom48(b);
    Word(b, 56, 0x0000f600, 0xda9415ed, 0x3afb5079, 0xd2e138c4, 0x651d16a0);
    Word(b, 57, 0x1e84c7a3, 0x26380a16, 0x898e04e5, 0x00000f00, 0x62658ca1);
    Word(b, 58, 0x98e04d98, 0x626383a1, 0xe2ba3c2b, 0x3afb5079, 0x458544d6);
    Word(b, 59, 0x651d16a0, 0x4ebf54de, 0x000060c0, 0x898e04e5, 0x44584cb7);
    Word(b, 60, 0x62658ca1, 0x3835b44b, 0x053a37cd, 0xe2ba3c2b, 0x7ba06619);
    Word(b, 61, 0x458544d6, 0x0000f600, 0x74458547, 0x000060c0, 0x6380aea2);
    Word(b, 62, 0x44584cb7, 0x1e84c7a3, 0xda9415ed, 0x053a37cd, 0x0ae55269);
    Word(b, 63, 0x7ba06619, 0x98e04d98, 0x26380a16, 0x74458547, 0x627b49a1);
  }

  lemma WordsFrom64(b: seq<bv8>)
    requires IsBlock(b)
    ensures Schedule1(b, 64) == 0x7cd45c9d && Schedule1(b, 65) == 0x000f0000 && Schedule1(b, 66) == 0xfb50753a && Schedule1(b, 67) == 0xec6765e8
    ensures Schedule1(b, 68) == 0xba3c2be2 && Schedule1(b, 69) == 0x0060c000 && Schedule1(b, 70) == 0x3a37cd05 && Schedule1(b, 71) == 0x458546f4
  {
    hide Schedule1, IsBlock;
    WordsFrom48(b);
    WordsFrom56(b);
    Word(b, 64, 0x6380aea2, 0x651d16a0, 0x626383a1, 0xda9415ed, 0x7cd45c9d);
    Word(b, 65, 0x0ae55269, 0x62658ca1, 0x4ebf54de, 0x26380a16, 0x000f0000);
    Word(b, 66, 0x627b49a1, 0x458544d6, 0x3835b44b, 0x626383a1, 0xfb50753a);
    Word(b, 67, 0x7cd45c9d, 0x44584cb7, 0x0000f600, 0x4ebf54de, 0xec6765e8);
    Word(b, 68, 0x000f0000, 0x7ba06619, 0x1e84c7a3, 0x3835b44b, 0xba3c2be2);
    Word(b, 69, 0xfb50753a, 0x6380aea2, 0x98e04d98, 0x0000f600, 0x0060c000);
    Word(b, 70, 0xec6765e8, 0x0ae55269, 0x651d16a0, 0x1e84c7a3, 0x3a37cd05);
    Word(b, 71, 0xba3c2be2, 0x627b49a1, 0x62658ca1, 0x98e04d98, 0x458546f4);
  }

  lemma WordsFrom72(b: seq<bv8>)
    requires IsBlock(b)
    ensures Schedule1(b, 72) == 0xb8599dd6 && Schedule1(b, 73) == 0x380a1a26 && Schedule1(b, 74) == 0x01e02203 && Schedule1(b, 75) == 0xe7cc3456
    ensures Schedule1(b, 76) == 0xe6e60b69 && Schedule1(b, 77) == 0x00f60a00 && Schedule1(b, 78) == 0x5795ef4f && Schedule1(b, 79) == 0x822e0879
  {
    hide Schedule1, IsBlock;
    WordsFrom56(b);
    WordsFrom64(b);
    Word(b, 72, 0x0060c000, 0x7cd45c9d, 0x458544d6, 0x651d16a0, 0xb8599dd6);
    Word(b, 73, 0x3a37cd05, 0x000f0000, 0x44584cb7, 0x62658ca1, 0x380a1a26);
    Word(b, 74, 0x458546f4, 0xfb50753a, 0x7ba06619, 0x458544d6, 0x01e02203);
    Word(b, 75, 0xb8599dd6, 0xec6765e8, 0x6380aea2, 0x44584cb7, 0xe7cc3456);
    Word(b, 76, 0x380a1a26, 0xba3c2be2, 0x0ae55269, 0x7ba06619, 0xe6e60b69);
    Word(b, 77, 0x01e02203, 0x0060c000, 0x627b49a1, 0x6380aea2, 0x00f60a00);
    Word(b, 78, 0xe7cc3456, 0x3a37cd05, 0x7cd45c9d, 0x0ae55269, 0x5795ef4f);
    Word(b, 79, 0xe6e60b69, 0x458546f4, 0x000f0000, 0x627b49a1, 0x822e0879);
  }

  lemma After0(b: seq<bv8>)
    ensures |b| == BLOCK ==> Steps(INITIAL, b, 0) == State(0x67452301, 0xefcdab89, 0x98badcfe, 0x10325476, 0xc3d2e1f0)
  {
  }

  lemma After8(b: seq<bv8>)
    requires IsBlock(b)
    ensures Steps(INITIAL, b, 8) == State(0x9e8c07d4, 0x993e30c1, 0x0ff1f290, 0xb3f52677, 0xf3763846)
  {
    hide Steps, Schedule1;
    After0(b);
    WordsFrom0(b);
    hide IsBlock;
    var r0 := State(0x67452301, 0xefcdab89, 0x98badcfe, 0x10325476, 0xc3d2e1f0);
    var r1 := State(0x0116fc33, 0x67452301, 0x7bf36ae2, 0x98badcfe, 0x10325476);
    Turn(b, 0, r0, 0x61626380, r1);
    var r2 := State(0x8990536d, 0x0116fc33, 0x59d148c0, 0x7bf36ae2, 0x98badcfe);
    Turn(b, 1, r1, 0x00000000, r2);
    var r3 := State(0xa1390f08, 0x8990536d, 0xc045bf0c, 0x59d148c0, 0x7bf36ae2);
    Turn(b, 2, r2, 0x00000000, r3);
    var r4 := State(0xcdd8e11b, 0xa1390f08, 0x626414db, 0xc045bf0c, 0x59d148c0);
    Turn(b, 3, r3, 0x00000000, r4);
    var r5 := State(0xcfd499de, 0xcdd8e11b, 0x284e43c2, 0x626414db, 0xc045bf0c);
    Turn(b, 4, r4, 0x00000000, r5);
    var r6 := State(0x3fc7ca40, 0xcfd499de, 0xf3763846, 0x284e43c2, 0x626414db);
    Turn(b, 5, r5, 0x00000000, r6);
    var r7 := State(0x993e30c1, 0x3fc7ca40, 0xb3f52677, 0xf3763846, 0x284e43c2);
    Turn(b, 6, r6, 0x00000000, r7);
    var r8 := State(0x9e8c07d4, 0x993e30c1, 0x0ff1f290, 0xb3f52677, 0xf3763846);
    Turn(b, 7, r7, 0x00000000, r8);
  }

  lemma After16(b: seq<bv8>)
    requires IsBlock(b)
    ensures Steps(INITIAL, b, 16) == State(0x20bdd62f, 0x196bee77, 0x644a3da5, 0x1181ed99, 0x18c623f9)
  {
    hide Steps, Schedule1;
    After8(b);
    WordsFrom8(b);
    hide IsBlock;
    var r8 := State(0x9e8c07d4, 0x993e30c1, 0x0ff1f290, 0xb3f52677, 0xf3763846);
    var r9 := State(0x4b6ae328, 0x9e8c07d4, 0x664f8c30, 0x0ff1f290, 0xb3f52677);
    Turn(b, 8, r8, 0x00000000, r9);
    var r10 := State(0x8351f929, 0x4b6ae328, 0x27a301f5, 0x664f8c30, 0x0ff1f290);
    Turn(b, 9, r9, 0x00000000, r10);
    var r11 := State(0xfbda9e89, 0x8351f929, 0x12dab8ca, 0x27a301f5, 0x664f8c30);
    Turn(b, 10, r10, 0x00000000, r11);
    var r12 := State(0x63188fe4, 0xfbda9e89, 0x60d47e4a, 0x12dab8ca, 0x27a301f5);
    Turn(b, 11, r11, 0x00000000, r12);
    var r13 := State(0x4607b664, 0x63188fe4, 0x7ef6a7a2, 0x60d47e4a, 0x12dab8ca);
    Turn(b, 12, r12, 0x00000000, r13);
    var r14 := State(0x9128f695, 0x4607b664, 0x18c623f9, 0x7ef6a7a2, 0x60d47e4a);
    Turn(b, 13, r13, 0x00000000, r14);
    var r15 := State(0x196bee77, 0x9128f695, 0x1181ed99, 0x18c623f9, 0x7ef6a7a2);
    Turn(b, 14, r14, 0x00000000, r15);
    var r16 := State(0x20bdd62f, 0x196bee77, 0x644a3da5, 0x1181ed99, 0x18c623f9);
    Turn(b, 15, r15, 0x00000018, r16);
  }

  lemma After24(b: seq<bv8>)
    requires IsBlock(b)
    ensures Steps(INITIAL, b, 24) == State(0xd541f12d, 0x21283486, 0x0ce88eff, 0x868dec32, 0x7f67875f)
  {
    hide Steps, Schedule1;
    After16(b);
    WordsFrom16(b);
    hide IsBlock;
    var r16 := State(0x20bdd62f, 0x196bee77, 0x644a3da5, 0x1181ed99, 0x18c623f9);
    var r17 := State(0x4e925823, 0x20bdd62f, 0xc65afb9d, 0x644a3da5, 0x1181ed99);
    Turn(b, 16, r16, 0xc2c4c700, r17);
    var r18 := State(0x82aa6728, 0x4e925823, 0xc82f758b, 0xc65afb9d, 0x644a3da5);
    Turn(b, 17, r17, 0x00000000, r18);
    var r19 := State(0xdc64901d, 0x82aa6728, 0xd3a49608, 0xc82f758b, 0xc65afb9d);
    Turn(b, 18, r18, 0x00000030, r19);
    var r20 := State(0xfd9e1d7d, 0xdc64901d, 0x20aa99ca, 0xd3a49608, 0xc82f758b);
    Turn(b, 19, r19, 0x85898e01, r20);
    var r21 := State(0x1a37b0ca, 0xfd9e1d7d, 0x77192407, 0x20aa99ca, 0xd3a49608);
    Turn(b, 20, r20, 0x00000000, r21);
    var r22 := State(0x33a23bfc, 0x1a37b0ca, 0x7f67875f, 0x77192407, 0x20aa99ca);
    Turn(b, 21, r21, 0x00000060, r22);
    var r23 := State(0x21283486, 0x33a23bfc, 0x868dec32, 0x7f67875f, 0x77192407);
    Turn(b, 22, r22, 0x0b131c03, r23);
    var r24 := State(0xd541f12d, 0x21283486, 0x0ce88eff, 0x868dec32, 0x7f67875f);
    Turn(b, 23, r23, 0x00000030, r24);
  }

  lemma After32(b: seq<bv8>)
    requires IsBlock(b)
    ensures Steps(INITIAL, b, 32) == State(0x3b845d33, 0x1267b407, 0x717eebd7, 0xa0dc2d4b, 0xd2aa1365)
  {
    hide Steps, Schedule1;
    After24(b);
    WordsFrom24(b);
    hide IsBlock;
    var r24 := State(0xd541f12d, 0x21283486, 0x0ce88eff, 0x868dec32, 0x7f67875f);
    var r25 := State(0xc7567dc6, 0xd541f12d, 0x884a0d21, 0x0ce88eff, 0x868dec32);
    Turn(b, 24, r24, 0x85898ec1, r25);
    var r26 := State(0x48413ba4, 0xc7567dc6, 0x75507c4b, 0x884a0d21, 0x0ce88eff);
    Turn(b, 25, r25, 0x16263806, r26);
    var r27 := State(0xbe35fbd5, 0x48413ba4, 0xb1d59f71, 0x75507c4b, 0x884a0d21);
    Turn(b, 26, r26, 0x00000000, r27);
    var r28 := State(0x4aa84d97, 0xbe35fbd5, 0x12104ee9, 0xb1d59f71, 0x75507c4b);
    Turn(b, 27, r27, 0x00000180, r28);
    var r29 := State(0x8370b52e, 0x4aa84d97, 0x6f8d7ef5, 0x12104ee9, 0xb1d59f71);
    Turn(b, 28, r28, 0x2c4c700c, r29);
    var r30 := State(0xc5fbaf5d, 0x8370b52e, 0xd2aa1365, 0x6f8d7ef5, 0x12104ee9);
    Turn(b, 29, r29, 0x000000f0, r30);
    var r31 := State(0x1267b407, 0xc5fbaf5d, 0xa0dc2d4b, 0xd2aa1365, 0x6f8d7ef5);
    Turn(b, 30, r30, 0x93afb507, r31);
    var r32 := State(0x3b845d33, 0x1267b407, 0x717eebd7, 0xa0dc2d4b, 0xd2aa1365);
    Turn(b, 31, r31, 0x5898e048, r32);
  }

  lemma After40(b: seq<bv8>)
    requires IsBlock(b)
    ensures Steps(INITIAL, b, 40) == State(0x32de1cba, 0x4c986405, 0xf718e5cf, 0x03d447f6, 0xf72eec32)
  {
    hide Steps, Schedule1;
    After32(b);
    WordsFrom32(b);
    hide IsBlock;
    var r32 := State(0x3b845d33, 0x1267b407, 0x717eebd7, 0xa0dc2d4b, 0xd2aa1365);
    var r33 := State(0x046faa0a, 0x3b845d33, 0xc499ed01, 0x717eebd7, 0xa0dc2d4b);
    Turn(b, 32, r32, 0x8e9a9202, r33);
    var r34 := State(0x2c0ebc11, 0x046faa0a, 0xcee1174c, 0xc499ed01, 0x717eebd7);
    Turn(b, 33, r33, 0x00000600, r34);
    var r35 := State(0x21796ad4, 0x2c0ebc11, 0x811bea82, 0xcee1174c, 0xc499ed01);
    Turn(b, 34, r34, 0xb131c0f0, r35);
    var r36 := State(0xdcbbb0cb, 0x21796ad4, 0x4b03af04, 0x811bea82, 0xcee1174c);
    Turn(b, 35, r35, 0x16263bc6, r36);
    var r37 := State(0x0f511fd8, 0xdcbbb0cb, 0x085e5ab5, 0x4b03af04, 0x811bea82);
    Turn(b, 36, r36, 0x4ebed41e, r37);
    var r38 := State(0xdc63973f, 0x0f511fd8, 0xf72eec32, 0x085e5ab5, 0x4b03af04);
    Turn(b, 37, r37, 0x626380a1, r38);
    var r39 := State(0x4c986405, 0xdc63973f, 0x03d447f6, 0xf72eec32, 0x085e5ab5);
    Turn(b, 38, r38, 0x16263806, r39);
    var r40 := State(0x32de1cba, 0x4c986405, 0xf718e5cf, 0x03d447f6, 0xf72eec32);
    Turn(b, 39, r39, 0x000018c0, r40);
  }

  lemma After48(b: seq<bv8>)
    requires IsBlock(b)
    ensures Steps(INITIAL, b, 48) == State(0xbead02ca, 0xa01b846c, 0x8714787c, 0x503ca382, 0xfb86c6ab)
  {
    hide Steps, Schedule1;
    After40(b);
    WordsFrom40(b);
    hide IsBlock;
    var r40 := State(0x32de1cba, 0x4c986405, 0xf718e5cf, 0x03d447f6, 0xf72eec32);
    var r41 := State(0xfc87dedf, 0x32de1cba, 0x53261901, 0xf718e5cf, 0x03d447f6);
    Turn(b, 40, r40, 0xd2e138c4, r41);
    var r42 := State(0x970a0d5c, 0xfc87dedf, 0x8cb7872e, 0x53261901, 0xf718e5cf);
    Turn(b, 41, r41, 0x00000f00, r42);
    var r43 := State(0x7f193dc5, 0x970a0d5c, 0xff21f7b7, 0x8cb7872e, 0x53261901);
    Turn(b, 42, r42, 0x3afb5079, r43);
    var r44 := State(0xee1b1aaf, 0x7f193dc5, 0x25c28357, 0xff21f7b7, 0x8cb7872e);
    Turn(b, 43, r43, 0x898e04e5, r44);
    var r45 := State(0x40f28e09, 0xee1b1aaf, 0x5fc64f71, 0x25c28357, 0xff21f7b7);
    Turn(b, 44, r44, 0xe2ba3c2b, r45);
    var r46 := State(0x1c51e1f2, 0x40f28e09, 0xfb86c6ab, 0x5fc64f71, 0x25c28357);
    Turn(b, 45, r45, 0x000060c0, r46);
    var r47 := State(0xa01b846c, 0x1c51e1f2, 0x503ca382, 0xfb86c6ab, 0x5fc64f71);
    Turn(b, 46, r46, 0x053a37cd, r47);
    var r48 := State(0xbead02ca, 0xa01b846c, 0x8714787c, 0x503ca382, 0xfb86c6ab);
    Turn(b, 47, r47, 0x74458547, r48);
  }

  lemma After56(b: seq<bv8>)
    requires IsBlock(b)
    ensures Steps(INITIAL, b, 56) == State(0x5e6456af, 0x7b71f76d, 0x09fa7c76, 0x792410db, 0x8e11eb59)
  {
    hide Steps, Schedule1;
    After48(b);
    WordsFrom48(b);
    hide IsBlock;
    var r48 := State(0xbead02ca, 0xa01b846c, 0x8714787c, 0x503ca382, 0xfb86c6ab);
    var r49 := State(0xbaf39337, 0xbead02ca, 0x2806e11b, 0x8714787c, 0x503ca382);
    Turn(b, 48, r48, 0xda9415ed, r49);
    var r50 := State(0x120731c5, 0xbaf39337, 0xafab40b2, 0x2806e11b, 0x8714787c);
    Turn(b, 49, r49, 0x26380a16, r50);
    var r51 := State(0x641db2ce, 0x120731c5, 0xeebce4cd, 0xafab40b2, 0x2806e11b);
    Turn(b, 50, r50, 0x626383a1, r51);
    var r52 := State(0x3847ad66, 0x641db2ce, 0x4481cc71, 0xeebce4cd, 0xafab40b2);
    Turn(b, 51, r51, 0x4ebf54de, r52);
    var r53 := State(0xe490436d, 0x3847ad66, 0x99076cb3, 0x4481cc71, 0xeebce4cd);
    Turn(b, 52, r52, 0x3835b44b, r53);
    var r54 := State(0x27e9f1d8, 0xe490436d, 0x8e11eb59, 0x99076cb3, 0x4481cc71);
    Turn(b, 53, r53, 0x0000f600, r54);
    var r55 := State(0x7b71f76d, 0x27e9f1d8, 0x792410db, 0x8e11eb59, 0x99076cb3);
    Turn(b, 54, r54, 0x1e84c7a3, r55);
    var r56 := State(0x5e6456af, 0x7b71f76d, 0x09fa7c76, 0x792410db, 0x8e11eb59);
    Turn(b, 55, r55, 0x98e04d98, r56);
  }

  lemma After64(b: seq<bv8>)
    requires IsBlock(b)
    ensures Steps(INITIAL, b, 64) == State(0x6b61c9e1, 0xb66c020b, 0x9523272c, 0xf5d5b051, 0x8fd4b796)
  {
    hide Steps, Schedule1;
    After56(b);
    WordsFrom56(b);
    hide IsBlock;
    var r56 := State(0x5e6456af, 0x7b71f76d, 0x09fa7c76, 0x792410db, 0x8e11eb59);
    var r57 := State(0xc846093f, 0x5e6456af, 0x5edc7ddb, 0x09fa7c76, 0x792410db);
    Turn(b, 56, r56, 0x651d16a0, r57);
    var r58 := State(0xd262ff50, 0xc846093f, 0xd79915ab, 0x5edc7ddb, 0x09fa7c76);
    Turn(b, 57, r57, 0x62658ca1, r58);
    var r59 := State(0x09d785fd, 0xd262ff50, 0xf211824f, 0xd79915ab, 0x5edc7ddb);
    Turn(b, 58, r58, 0x458544d6, r59);
    var r60 := State(0x3f52de5a, 0x09d785fd, 0x3498bfd4, 0xf211824f, 0xd79915ab);
    Turn(b, 59, r59, 0x44584cb7, r60);
    var r61 := State(0xd756c147, 0x3f52de5a, 0x4275e17f, 0x3498bfd4, 0xf211824f);
    Turn(b, 60, r60, 0x7ba06619, r61);
    var r62 := State(0x548c9cb2, 0xd756c147, 0x8fd4b796, 0x4275e17f, 0x3498bfd4);
    Turn(b, 61, r61, 0x6380aea2, r62);
    var r63 := State(0xb66c020b, 0x548c9cb2, 0xf5d5b051, 0x8fd4b796, 0x4275e17f);
    Turn(b, 62, r62, 0x0ae55269, r63);
    var r64 := State(0x6b61c9e1, 0xb66c020b, 0x9523272c, 0xf5d5b051, 0x8fd4b796);
    Turn(b, 63, r63, 0x627b49a1, r64);
  }

  lemma After72(b: seq<bv8>)
    requires IsBlock(b)
    ensures Steps(INITIAL, b, 72) == State(0x39859de7, 0xc199f8c7, 0x8fc96230, 0x125c24f0, 0xde37534a)
  {
    hide Steps, Schedule1;
    After64(b);
    WordsFrom64(b);
    hide IsBlock;
    var r64 := State(0x6b61c9e1, 0xb66c020b, 0x9523272c, 0xf5d5b051, 0x8fd4b796);
    var r65 := State(0x19dfa7ac, 0x6b61c9e1, 0xed9b0082, 0x9523272c, 0xf5d5b051);
    Turn(b, 64, r64, 0x7cd45c9d, r65);
    var r66 := State(0x101655f9, 0x19dfa7ac, 0x5ad87278, 0xed9b0082, 0x9523272c);
    Turn(b, 65, r65, 0x000f0000, r66);
    var r67 := State(0x0c3df2b4, 0x101655f9, 0x0677e9eb, 0x5ad87278, 0xed9b0082);
    Turn(b, 66, r66, 0xfb50753a, r67);
    var r68 := State(0x78dd4d2b, 0x0c3df2b4, 0x4405957e, 0x0677e9eb, 0x5ad87278);
    Turn(b, 67, r67, 0xec6765e8, r68);
    var r69 := State(0x497093c0, 0x78dd4d2b, 0x030f7cad, 0x4405957e, 0x0677e9eb);
    Turn(b, 68, r68, 0xba3c2be2, r69);
    var r70 := State(0x3f2588c2, 0x497093c0, 0xde37534a, 0x030f7cad, 0x4405957e);
    Turn(b, 69, r69, 0x0060c000, r70);
    var r71 := State(0xc199f8c7, 0x3f2588c2, 0x125c24f0, 0xde37534a, 0x030f7cad);
    Turn(b, 70, r70, 0x3a37cd05, r71);
    var r72 := State(0x39859de7, 0xc199f8c7, 0x8fc96230, 0x125c24f0, 0xde37534a);
    Turn(b, 71, r71, 0x458546f4, r72);
  }

  lemma After80(b: seq<bv8>)
    requires IsBlock(b)
    ensures Steps(INITIAL, b, 80) == State(0x42541b35, 0x5738d5e1, 0x21834873, 0x681e6df6, 0xd8fdf6ad)
  {
    hide Steps, Schedule1;
    After72(b);
    WordsFrom72(b);
    hide IsBlock;
    var r72 := State(0x39859de7, 0xc199f8c7, 0x8fc96230, 0x125c24f0, 0xde37534a);
    var r73 := State(0xedb42de4, 0x39859de7, 0xf0667e31, 0x8fc96230, 0x125c24f0);
    Turn(b, 72, r72, 0xb8599dd6, r73);
    var r74 := State(0x11793f6f, 0xedb42de4, 0xce616779, 0xf0667e31, 0x8fc96230);
    Turn(b, 73, r73, 0x380a1a26, r74);
    var r75 := State(0x5ee76897, 0x11793f6f, 0x3b6d0b79, 0xce616779, 0xf0667e31);
    Turn(b, 74, r74, 0x01e02203, r75);
    var r76 := State(0x63f7dab7, 0x5ee76897, 0xc45e4fdb, 0x3b6d0b79, 0xce616779);
    Turn(b, 75, r75, 0xe7cc3456, r76);
    var r77 := State(0xa079b7d9, 0x63f7dab7, 0xd7b9da25, 0xc45e4fdb, 0x3b6d0b79);
    Turn(b, 76, r76, 0xe6e60b69, r77);
    var r78 := State(0x860d21cc, 0xa079b7d9, 0xd8fdf6ad, 0xd7b9da25, 0xc45e4fdb);
    Turn(b, 77, r77, 0x00f60a00, r78);
    var r79 := State(0x5738d5e1, 0x860d21cc, 0x681e6df6, 0xd8fdf6ad, 0xd7b9da25);
    Turn(b, 78, r78, 0x5795ef4f, r79);
    var r80 := State(0x42541b35, 0x5738d5e1, 0x21834873, 0x681e6df6, 0xd8fdf6ad);
    Turn(b, 79, r79, 0x822e0879, r80);
  }

  lemma Hashed(b: seq<bv8>)
    requires IsBlock(b)
    ensures HashBlock(INITIAL, b) == State(0xa9993e36, 0x4706816a, 0xba3e2571, 0x7850c26c, 0x9cd0d89d)
  {
    hide Steps, IsBlock;
    After80(b);
    IsLong(b);
  }

  lemma IsLong(b: seq<bv8>)
    requires IsBlock(b)
    ensures |b| == BLOCK
  {
  }

  lemma DigestBytes()
    ensures BigEndianState(State(0xa9993e36, 0x4706816a, 0xba3e2571, 0x7850c26c, 0x9cd0d89d)) ==
      [0xa9, 0x99, 0x3e, 0x36] + [0x47, 0x06, 0x81, 0x6a] + [0xba, 0x3e, 0x25, 0x71] +
      [0x78, 0x50, 0xc2, 0x6c] + [0x9c, 0xd0, 0xd8, 0x9d]
  {
  }

  lemma OneBlock(b: seq<bv8>)
    requires |b| == BLOCK
    ensures Absorbed(HashBlock, INITIAL, b) == HashBlock(INITIAL, b)
  {
    hide HashBlock;
    assert b[..BLOCK] == b && b[BLOCK..] == [];
  }

  /** SHA-1("abc"). */
  lemma Sha1OfAbc()
    ensures Digest([0x61, 0x62, 0x63]) ==
      [0xa9, 0x99, 0x3e, 0x36] + [0x47, 0x06, 0x81, 0x6a] + [0xba, 0x3e, 0x25, 0x71] +
      [0x78, 0x50, 0xc2, 0x6c] + [0x9c, 0xd0, 0xd8, 0x9d]
  {
    hide Padded, HashBlock, BigEndianState, IsBlock, Bytes64, Word64;
    var b := Padded([0x61, 0x62, 0x63], Bytes64(Word64(24)));
    AbcIsPadded();
    IsLong(b);
    OneBlock(b);
    Hashed(b);
    hide Absorbed;
    DigestBytes();
  }
}
