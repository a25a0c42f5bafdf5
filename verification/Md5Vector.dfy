/** The digest of "abc" of appendix A.5 of RFC 1321, step by step in literals. */
module Md5Vector {
  import opened BlockHash
  import opened Md5
  import opened Sha2
  import opened Sha2Count
  import opened Sha2Words

  /** The one block of the padded message. */
  predicate IsBlock(b: seq<bv8>) {
    && |b| == BLOCK && b[0] == 0x61 && b[1] == 0x62 && b[2] == 0x63 && b[3] == 0x80 && b[56] == 0x18
    && forall i :: 4 <= i < 64 && i != 56 ==> b[i] == 0
  }

  lemma IsLong(b: seq<bv8>)
    requires IsBlock(b)
    ensures |b| == BLOCK
  {
  }

  lemma LengthOfAbc()
    ensures Native64(Word64(24)) == [0x18, 0, 0, 0, 0, 0, 0, 0]
  {
    assert Word64(24) == 24;
    hide Word64;
  }

  lemma AbcIsPadded()
    ensures IsBlock(Padded([0x61, 0x62, 0x63], Native64(Word64(24))))
  {
    LengthOfAbc();
    assert ZeroPad(3) == 52;
    hide Native64, Word64, ZeroPad;
  }

  lemma LoadsAre()
    ensures LoadNative32([0, 0, 0, 0]) == 0 && LoadNative32([0x61, 0x62, 0x63, 0x80]) == 0x80636261 && LoadNative32([0x18, 0, 0, 0]) == 0x00000018
  {
  }

  lemma WordOfBlock(b: seq<bv8>, t: nat)
    requires IsBlock(b) && t < 16
    ensures Word(b, t) == if t == 0 then 0x80636261 else if t == 14 then 0x00000018 else 0
  {
    var s := b[4 * t..4 * t + 4];
    assert forall i :: 0 <= i < 4 ==> s[i] == b[4 * t + i];
    LoadsAre();
    hide LoadNative32;
    if t == 0 {
      assert s == [0x61, 0x62, 0x63, 0x80];
    } else if t == 14 {
      assert s == [0x18, 0, 0, 0];
    } else {
      assert s == [0, 0, 0, 0];
    }
  }

  // ----- the constants ------------------------------------------------------

  lemma ConstantsFrom0()
    ensures Constant(0) == 0xd76aa478 && Constant(1) == 0xe8c7b756 && Constant(2) == 0x242070db && Constant(3) == 0xc1bdceee
    ensures Constant(4) == 0xf57c0faf && Constant(5) == 0x4787c62a && Constant(6) == 0xa8304613 && Constant(7) == 0xfd469501
  {
  }

  lemma ConstantsFrom8()
    ensures Constant(8) == 0x698098d8 && Constant(9) == 0x8b44f7af && Constant(10) == 0xffff5bb1 && Constant(11) == 0x895cd7be
    ensures Constant(12) == 0x6b901122 && Constant(13) == 0xfd987193 && Constant(14) == 0xa679438e && Constant(15) == 0x49b40821
  {
  }

  lemma ConstantsFrom16()
    ensures Constant(16) == 0xf61e2562 && Constant(17) == 0xc040b340 && Constant(18) == 0x265e5a51 && Constant(19) == 0xe9b6c7aa
    ensures Constant(20) == 0xd62f105d && Constant(21) == 0x02441453 && Constant(22) == 0xd8a1e681 && Constant(23) == 0xe7d3fbc8
  {
  }

  lemma ConstantsFrom24()
    ensures Constant(24) == 0x21e1cde6 && Constant(25) == 0xc33707d6 && Constant(26) == 0xf4d50d87 && Constant(27) == 0x455a14ed
    ensures Constant(28) == 0xa9e3e905 && Constant(29) == 0xfcefa3f8 && Constant(30) == 0x676f02d9 && Constant(31) == 0x8d2a4c8a
  {
  }

  lemma ConstantsFrom32()
    ensures Constant(32) == 0xfffa3942 && Constant(33) == 0x8771f681 && Constant(34) == 0x6d9d6122 && Constant(35) == 0xfde5380c
    ensures Constant(36) == 0xa4beea44 && Constant(37) == 0x4bdecfa9 && Constant(38) == 0xf6bb4b60 && Constant(39) == 0xbebfbc70
  {
  }

  lemma ConstantsFrom40()
    ensures Constant(40) == 0x289b7ec6 && Constant(41) == 0xeaa127fa && Constant(42) == 0xd4ef3085 && Constant(43) == 0x04881d05
    ensures Constant(44) == 0xd9d4d039 && Constant(45) == 0xe6db99e5 && Constant(46) == 0x1fa27cf8 && Constant(47) == 0xc4ac5665
  {
  }

  lemma ConstantsFrom48()
    ensures Constant(48) == 0xf4292244 && Constant(49) == 0x432aff97 && Constant(50) == 0xab9423a7 && Constant(51) == 0xfc93a039
    ensures Constant(52) == 0x655b59c3 && Constant(53) == 0x8f0ccc92 && Constant(54) == 0xffeff47d && Constant(55) == 0x85845dd1
  {
  }

  lemma ConstantsFrom56()
    ensures Constant(56) == 0x6fa87e4f && Constant(57) == 0xfe2ce6e0 && Constant(58) == 0xa3014314 && Constant(59) == 0x4e0811a1
    ensures Constant(60) == 0xf7537e82 && Constant(61) == 0xbd3af235 && Constant(62) == 0x2ad7d2bb && Constant(63) == 0xeb86d391
  {
  }

  function Turned(x: bv32, s: nat): bv32
    requires s < 32
  {

    if s == 4 then x.RotateLeft(4)
    else if s == 5 then x.RotateLeft(5)
    else if s == 6 then x.RotateLeft(6)
    else if s == 7 then x.RotateLeft(7)
    else if s == 9 then x.RotateLeft(9)
    else if s == 10 then x.RotateLeft(10)
    else if s == 11 then x.RotateLeft(11)
    else if s == 12 then x.RotateLeft(12)
    else if s == 14 then x.RotateLeft(14)
    else if s == 15 then x.RotateLeft(15)
    else if s == 16 then x.RotateLeft(16)
    else if s == 17 then x.RotateLeft(17)
    else if s == 20 then x.RotateLeft(20)
    else if s == 21 then x.RotateLeft(21)
    else if s == 22 then x.RotateLeft(22)
    else if s == 23 then x.RotateLeft(23)
    else x
  }

  lemma RotationsOf0(x: bv32)
    ensures Rol32(x, 7) == x.RotateLeft(7) && Rol32(x, 12) == x.RotateLeft(12) && Rol32(x, 17) == x.RotateLeft(17) && Rol32(x, 22) == x.RotateLeft(22)
  {
  }

  lemma RotationsOf1(x: bv32)
    ensures Rol32(x, 5) == x.RotateLeft(5) && Rol32(x, 9) == x.RotateLeft(9) && Rol32(x, 14) == x.RotateLeft(14) && Rol32(x, 20) == x.RotateLeft(20)
  {
  }

  lemma RotationsOf2(x: bv32)
    ensures Rol32(x, 4) == x.RotateLeft(4) && Rol32(x, 11) == x.RotateLeft(11) && Rol32(x, 16) == x.RotateLeft(16) && Rol32(x, 23) == x.RotateLeft(23)
  {
  }

  lemma RotationsOf3(x: bv32)
    ensures Rol32(x, 6) == x.RotateLeft(6) && Rol32(x, 10) == x.RotateLeft(10) && Rol32(x, 15) == x.RotateLeft(15) && Rol32(x, 21) == x.RotateLeft(21)
  {
  }

  function NextState(i: nat, r: State, x: bv32, k: bv32, s: nat): State
    requires s < 32
  {
    State(r.d, Add32(r.b, Turned(Add32(Add32(Add32(r.a, Aux(i, r.b, r.c, r.d)), x), k), s)), r.b, r.c)
  }

  predicate IsShift(s: nat) {
    s == 7 || s == 12 || s == 17 || s == 22 || s == 5 || s == 9 || s == 14 || s == 20
    || s == 4 || s == 11 || s == 16 || s == 23 || s == 6 || s == 10 || s == 15 || s == 21
  }

  lemma RotsAre(x: bv32, s: nat)
    requires IsShift(s)
    ensures s < 32 && Rol32(x, s) == Turned(x, s)
  {
    hide Rol32;
    RotationsOf0(x);
    RotationsOf1(x);
    RotationsOf2(x);
    RotationsOf3(x);
  }

  lemma StepOf(b: seq<bv8>, i: nat)
    ensures Steps(INITIAL, b, i + 1) == Step(i, Steps(INITIAL, b, i), Word(b, XIndex(i)))
  {
    hide Step, Word;
  }

  /** Step `i` with its word, constant and shift. */
  lemma Turn(b: seq<bv8>, i: nat, r: State, j: nat, x: bv32, k: bv32, s: nat, next: State)
    requires i < 64 && Steps(INITIAL, b, i) == r && XIndex(i) == j && Word(b, j) == x && Constant(i) == k && ShiftOf(i) == s && IsShift(s)
    requires NextState(i, r, x, k, s) == next
    ensures Steps(INITIAL, b, i + 1) == next
  {
    hide Rol32, Turned, Add32, Aux, Constant, Word, XIndex, ShiftOf, IsShift, Steps;
    RotsAre(Add32(Add32(Add32(r.a, Aux(i, r.b, r.c, r.d)), x), k), s);
    StepOf(b, i);
  }

  // ----- the steps ----------------------------------------------------------

  lemma After0(b: seq<bv8>)
    ensures Steps(INITIAL, b, 0) == State(0x67452301, 0xefcdab89, 0x98badcfe, 0x10325476)
  {
  }

  lemma After8(b: seq<bv8>)
    requires IsBlock(b)
    ensures Steps(INITIAL, b, 8) == State(0xc73741ef, 0x928d99f6, 0x207dc67b, 0x8bac3051)
  {
    hide Steps, Word, Constant, IsBlock;
    After0(b);
    ConstantsFrom0();
    WordOfBlock(b, 0);
    WordOfBlock(b, 1);
    WordOfBlock(b, 2);
    WordOfBlock(b, 3);
    WordOfBlock(b, 4);
    WordOfBlock(b, 5);
    WordOfBlock(b, 6);
    WordOfBlock(b, 7);
    var r0 := State(0x67452301, 0xefcdab89, 0x98badcfe, 0x10325476);
    var r1 := State(0x10325476, 0xd6d117b4, 0xefcdab89, 0x98badcfe);
    Turn(b, 0, r0, 0, 0x80636261, 0xd76aa478, 7, r1);
    var r2 := State(0x98badcfe, 0x344a8432, 0xd6d117b4, 0xefcdab89);
    Turn(b, 1, r1, 1, 0x00000000, 0xe8c7b756, 12, r2);
    var r3 := State(0xefcdab89, 0x2f6fbd72, 0x344a8432, 0xd6d117b4);
    Turn(b, 2, r2, 2, 0x00000000, 0x242070db, 17, r3);
    var r4 := State(0xd6d117b4, 0x7ad956f2, 0x2f6fbd72, 0x344a8432);
    Turn(b, 3, r3, 3, 0x00000000, 0xc1bdceee, 22, r4);
    var r5 := State(0x344a8432, 0xc73741ef, 0x7ad956f2, 0x2f6fbd72);
    Turn(b, 4, r4, 4, 0x00000000, 0xf57c0faf, 7, r5);
    var r6 := State(0x2f6fbd72, 0x8bac3051, 0xc73741ef, 0x7ad956f2);
    Turn(b, 5, r5, 5, 0x00000000, 0x4787c62a, 12, r6);
    var r7 := State(0x7ad956f2, 0x207dc67b, 0x8bac3051, 0xc73741ef);
    Turn(b, 6, r6, 6, 0x00000000, 0xa8304613, 17, r7);
    var r8 := State(0xc73741ef, 0x928d99f6, 0x207dc67b, 0x8bac3051);
    Turn(b, 7, r7, 7, 0x00000000, 0xfd469501, 22, r8);
  }

  lemma After16(b: seq<bv8>)
    requires IsBlock(b)
    ensures Steps(INITIAL, b, 16) == State(0xdda9b9a6, 0x72aff2e0, 0xe396856b, 0xa1051895)
  {
    hide Steps, Word, Constant, IsBlock;
    After8(b);
    ConstantsFrom8();
    WordOfBlock(b, 8);
    WordOfBlock(b, 9);
    WordOfBlock(b, 10);
    WordOfBlock(b, 11);
    WordOfBlock(b, 12);
    WordOfBlock(b, 13);
    WordOfBlock(b, 14);
    WordOfBlock(b, 15);
    var r8 := State(0xc73741ef, 0x928d99f6, 0x207dc67b, 0x8bac3051);
    var r9 := State(0x8bac3051, 0x854b3712, 0x928d99f6, 0x207dc67b);
    Turn(b, 8, r8, 8, 0x00000000, 0x698098d8, 7, r9);
    var r10 := State(0x207dc67b, 0x74e2f284, 0x854b3712, 0x928d99f6);
    Turn(b, 9, r9, 9, 0x00000000, 0x8b44f7af, 12, r10);
    var r11 := State(0x928d99f6, 0x3020401c, 0x74e2f284, 0x854b3712);
    Turn(b, 10, r10, 10, 0x00000000, 0xffff5bb1, 17, r11);
    var r12 := State(0x854b3712, 0x5ed49596, 0x3020401c, 0x74e2f284);
    Turn(b, 11, r11, 11, 0x00000000, 0x895cd7be, 22, r12);
    var r13 := State(0x74e2f284, 0xdda9b9a6, 0x5ed49596, 0x3020401c);
    Turn(b, 12, r12, 12, 0x00000000, 0x6b901122, 7, r13);
    var r14 := State(0x3020401c, 0xa1051895, 0xdda9b9a6, 0x5ed49596);
    Turn(b, 13, r13, 13, 0x00000000, 0xfd987193, 12, r14);
    var r15 := State(0x5ed49596, 0xe396856b, 0xa1051895, 0xdda9b9a6);
    Turn(b, 14, r14, 14, 0x00000018, 0xa679438e, 17, r15);
    var r16 := State(0xdda9b9a6, 0x72aff2e0, 0xe396856b, 0xa1051895);
    Turn(b, 15, r15, 15, 0x00000000, 0x49b40821, 22, r16);
  }

  lemma After24(b: seq<bv8>)
    requires IsBlock(b)
    ensures Steps(INITIAL, b, 24) == State(0x59a8ffda, 0x47092c07, 0xabfc7920, 0x6d002f1e)
  {
    hide Steps, Word, Constant, IsBlock;
    After16(b);
    ConstantsFrom16();
    WordOfBlock(b, 1);
    WordOfBlock(b, 6);
    WordOfBlock(b, 11);
    WordOfBlock(b, 0);
    WordOfBlock(b, 5);
    WordOfBlock(b, 10);
    WordOfBlock(b, 15);
    WordOfBlock(b, 4);
    var r16 := State(0xdda9b9a6, 0x72aff2e0, 0xe396856b, 0xa1051895);
    var r17 := State(0xa1051895, 0x3e9e9126, 0x72aff2e0, 0xe396856b);
    Turn(b, 16, r16, 1, 0x00000000, 0xf61e2562, 5, r17);
    var r18 := State(0xe396856b, 0x4a1d804e, 0x3e9e9126, 0x72aff2e0);
    Turn(b, 17, r17, 6, 0x00000000, 0xc040b340, 9, r18);
    var r19 := State(0x72aff2e0, 0xe25e1652, 0x4a1d804e, 0x3e9e9126);
    Turn(b, 18, r18, 11, 0x00000000, 0x265e5a51, 14, r19);
    var r20 := State(0x3e9e9126, 0xb5b204e4, 0xe25e1652, 0x4a1d804e);
    Turn(b, 19, r19, 0, 0x80636261, 0xe9b6c7aa, 20, r20);
    var r21 := State(0x4a1d804e, 0x59a8ffda, 0xb5b204e4, 0xe25e1652);
    Turn(b, 20, r20, 5, 0x00000000, 0xd62f105d, 5, r21);
    var r22 := State(0xe25e1652, 0x6d002f1e, 0x59a8ffda, 0xb5b204e4);
    Turn(b, 21, r21, 10, 0x00000000, 0x02441453, 9, r22);
    var r23 := State(0xb5b204e4, 0xabfc7920, 0x6d002f1e, 0x59a8ffda);
    Turn(b, 22, r22, 15, 0x00000000, 0xd8a1e681, 14, r23);
    var r24 := State(0x59a8ffda, 0x47092c07, 0xabfc7920, 0x6d002f1e);
    Turn(b, 23, r23, 4, 0x00000000, 0xe7d3fbc8, 20, r24);
  }

  lemma After32(b: seq<bv8>)
    requires IsBlock(b)
    ensures Steps(INITIAL, b, 32) == State(0x790a77fb, 0x726342d3, 0xa62884aa, 0x9f47e4f8)
  {
    hide Steps, Word, Constant, IsBlock;
    After24(b);
    ConstantsFrom24();
    WordOfBlock(b, 9);
    WordOfBlock(b, 14);
    WordOfBlock(b, 3);
    WordOfBlock(b, 8);
    WordOfBlock(b, 13);
    WordOfBlock(b, 2);
    WordOfBlock(b, 7);
    WordOfBlock(b, 12);
    var r24 := State(0x59a8ffda, 0x47092c07, 0xabfc7920, 0x6d002f1e);
    var r25 := State(0x6d002f1e, 0xb7f268cf, 0x47092c07, 0xabfc7920);
    Turn(b, 24, r24, 9, 0x00000000, 0x21e1cde6, 5, r25);
    var r26 := State(0xabfc7920, 0x09388eff, 0xb7f268cf, 0x47092c07);
    Turn(b, 25, r25, 14, 0x00000018, 0xc33707d6, 9, r26);
    var r27 := State(0x47092c07, 0xfe1623b1, 0x09388eff, 0xb7f268cf);
    Turn(b, 26, r26, 3, 0x00000000, 0xf4d50d87, 14, r27);
    var r28 := State(0xb7f268cf, 0x786acb8f, 0xfe1623b1, 0x09388eff);
    Turn(b, 27, r27, 8, 0x00000000, 0x455a14ed, 20, r28);
    var r29 := State(0x09388eff, 0x790a77fb, 0x786acb8f, 0xfe1623b1);
    Turn(b, 28, r28, 13, 0x00000000, 0xa9e3e905, 5, r29);
    var r30 := State(0xfe1623b1, 0x9f47e4f8, 0x790a77fb, 0x786acb8f);
    Turn(b, 29, r29, 2, 0x00000000, 0xfcefa3f8, 9, r30);
    var r31 := State(0x786acb8f, 0xa62884aa, 0x9f47e4f8, 0x790a77fb);
    Turn(b, 30, r30, 7, 0x00000000, 0x676f02d9, 14, r31);
    var r32 := State(0x790a77fb, 0x726342d3, 0xa62884aa, 0x9f47e4f8);
    Turn(b, 31, r31, 12, 0x00000000, 0x8d2a4c8a, 20, r32);
  }

  lemma After40(b: seq<bv8>)
    requires IsBlock(b)
    ensures Steps(INITIAL, b, 40) == State(0x21b117b9, 0x5a2f5ea5, 0x3575227e, 0x6e7429d5)
  {
    hide Steps, Word, Constant, IsBlock;
    After32(b);
    ConstantsFrom32();
    WordOfBlock(b, 5);
    WordOfBlock(b, 8);
    WordOfBlock(b, 11);
    WordOfBlock(b, 14);
    WordOfBlock(b, 1);
    WordOfBlock(b, 4);
    WordOfBlock(b, 7);
    WordOfBlock(b, 10);
    var r32 := State(0x790a77fb, 0x726342d3, 0xa62884aa, 0x9f47e4f8);
    var r33 := State(0x9f47e4f8, 0xb3707ebf, 0x726342d3, 0xa62884aa);
    Turn(b, 32, r32, 5, 0x00000000, 0xfffa3942, 4, r33);
    var r34 := State(0xa62884aa, 0x60127b2e, 0xb3707ebf, 0x726342d3);
    Turn(b, 33, r33, 8, 0x00000000, 0x8771f681, 11, r34);
    var r35 := State(0x726342d3, 0x8d212ff5, 0x60127b2e, 0xb3707ebf);
    Turn(b, 34, r34, 11, 0x00000000, 0x6d9d6122, 16, r35);
    var r36 := State(0xb3707ebf, 0x3b0875c7, 0x8d212ff5, 0x60127b2e);
    Turn(b, 35, r35, 14, 0x00000018, 0xfde5380c, 23, r36);
    var r37 := State(0x60127b2e, 0x21b117b9, 0x3b0875c7, 0x8d212ff5);
    Turn(b, 36, r36, 1, 0x00000000, 0xa4beea44, 4, r37);
    var r38 := State(0x8d212ff5, 0x6e7429d5, 0x21b117b9, 0x3b0875c7);
    Turn(b, 37, r37, 4, 0x00000000, 0x4bdecfa9, 11, r38);
    var r39 := State(0x3b0875c7, 0x3575227e, 0x6e7429d5, 0x21b117b9);
    Turn(b, 38, r38, 7, 0x00000000, 0xf6bb4b60, 16, r39);
    var r40 := State(0x21b117b9, 0x5a2f5ea5, 0x3575227e, 0x6e7429d5);
    Turn(b, 39, r39, 10, 0x00000000, 0xbebfbc70, 23, r40);
  }

  lemma After48(b: seq<bv8>)
    requires IsBlock(b)
    ensures Steps(INITIAL, b, 48) == State(0x7f2e507b, 0x7beb9700, 0x8fae6399, 0x99d9679d)
  {
    hide Steps, Word, Constant, IsBlock;
    After40(b);
    ConstantsFrom40();
    WordOfBlock(b, 13);
    WordOfBlock(b, 0);
    WordOfBlock(b, 3);
    WordOfBlock(b, 6);
    WordOfBlock(b, 9);
    WordOfBlock(b, 12);
    WordOfBlock(b, 15);
    WordOfBlock(b, 2);
    var r40 := State(0x21b117b9, 0x5a2f5ea5, 0x3575227e, 0x6e7429d5);
    var r41 := State(0x6e7429d5, 0x11de1779, 0x5a2f5ea5, 0x3575227e);
    Turn(b, 40, r40, 13, 0x00000000, 0x289b7ec6, 4, r41);
    var r42 := State(0x3575227e, 0xfadcaa38, 0x11de1779, 0x5a2f5ea5);
    Turn(b, 41, r41, 0, 0x80636261, 0xeaa127fa, 11, r42);
    var r43 := State(0x5a2f5ea5, 0x31c465ca, 0xfadcaa38, 0x11de1779);
    Turn(b, 42, r42, 3, 0x00000000, 0xd4ef3085, 16, r43);
    var r44 := State(0x11de1779, 0x4c6124f4, 0x31c465ca, 0xfadcaa38);
    Turn(b, 43, r43, 6, 0x00000000, 0x04881d05, 23, r44);
    var r45 := State(0xfadcaa38, 0x7f2e507b, 0x4c6124f4, 0x31c465ca);
    Turn(b, 44, r44, 9, 0x00000000, 0xd9d4d039, 4, r45);
    var r46 := State(0x31c465ca, 0x99d9679d, 0x7f2e507b, 0x4c6124f4);
    Turn(b, 45, r45, 12, 0x00000000, 0xe6db99e5, 11, r46);
    var r47 := State(0x4c6124f4, 0x8fae6399, 0x99d9679d, 0x7f2e507b);
    Turn(b, 46, r46, 15, 0x00000000, 0x1fa27cf8, 16, r47);
    var r48 := State(0x7f2e507b, 0x7beb9700, 0x8fae6399, 0x99d9679d);
    Turn(b, 47, r47, 2, 0x00000000, 0xc4ac5665, 23, r48);
  }

  lemma After56(b: seq<bv8>)
    requires IsBlock(b)
    ensures Steps(INITIAL, b, 56) == State(0x06cc5e8a, 0x3bfa2c27, 0x7d632dd0, 0x5b0d97aa)
  {
    hide Steps, Word, Constant, IsBlock;
    After48(b);
    ConstantsFrom48();
    WordOfBlock(b, 0);
    WordOfBlock(b, 7);
    WordOfBlock(b, 14);
    WordOfBlock(b, 5);
    WordOfBlock(b, 12);
    WordOfBlock(b, 3);
    WordOfBlock(b, 10);
    WordOfBlock(b, 1);
    var r48 := State(0x7f2e507b, 0x7beb9700, 0x8fae6399, 0x99d9679d);
    var r49 := State(0x99d9679d, 0x7b201df8, 0x7beb9700, 0x8fae6399);
    Turn(b, 48, r48, 0, 0x80636261, 0xf4292244, 6, r49);
    var r50 := State(0x8fae6399, 0xf4e8e96e, 0x7b201df8, 0x7beb9700);
    Turn(b, 49, r49, 7, 0x00000000, 0x432aff97, 10, r50);
    var r51 := State(0x7beb9700, 0xb298cefd, 0xf4e8e96e, 0x7b201df8);
    Turn(b, 50, r50, 14, 0x00000018, 0xab9423a7, 15, r51);
    var r52 := State(0x7b201df8, 0x8bf025c4, 0xb298cefd, 0xf4e8e96e);
    Turn(b, 51, r51, 5, 0x00000000, 0xfc93a039, 21, r52);
    var r53 := State(0xf4e8e96e, 0x06cc5e8a, 0x8bf025c4, 0xb298cefd);
    Turn(b, 52, r52, 12, 0x00000000, 0x655b59c3, 6, r53);
    var r54 := State(0xb298cefd, 0x5b0d97aa, 0x06cc5e8a, 0x8bf025c4);
    Turn(b, 53, r53, 3, 0x00000000, 0x8f0ccc92, 10, r54);
    var r55 := State(0x8bf025c4, 0x7d632dd0, 0x5b0d97aa, 0x06cc5e8a);
    Turn(b, 54, r54, 10, 0x00000000, 0xffeff47d, 15, r55);
    var r56 := State(0x06cc5e8a, 0x3bfa2c27, 0x7d632dd0, 0x5b0d97aa);
    Turn(b, 55, r55, 1, 0x00000000, 0x85845dd1, 21, r56);
  }

  lemma After64(b: seq<bv8>)
    requires IsBlock(b)
    ensures Steps(INITIAL, b, 64) == State(0x310ade8f, 0xc08226b3, 0xe484b9d8, 0x624d8cb2)
  {
    hide Steps, Word, Constant, IsBlock;
    After56(b);
    ConstantsFrom56();
    WordOfBlock(b, 8);
    WordOfBlock(b, 15);
    WordOfBlock(b, 6);
    WordOfBlock(b, 13);
    WordOfBlock(b, 4);
    WordOfBlock(b, 11);
    WordOfBlock(b, 2);
    WordOfBlock(b, 9);
    var r56 := State(0x06cc5e8a, 0x3bfa2c27, 0x7d632dd0, 0x5b0d97aa);
    var r57 := State(0x5b0d97aa, 0x7f81cc35, 0x3bfa2c27, 0x7d632dd0);
    Turn(b, 56, r56, 8, 0x00000000, 0x6fa87e4f, 6, r57);
    var r58 := State(0x7d632dd0, 0x094454ab, 0x7f81cc35, 0x3bfa2c27);
    Turn(b, 57, r57, 15, 0x00000000, 0xfe2ce6e0, 10, r58);
    var r59 := State(0x3bfa2c27, 0x4f9dbe3f, 0x094454ab, 0x7f81cc35);
    Turn(b, 58, r58, 6, 0x00000000, 0xa3014314, 15, r59);
    var r60 := State(0x7f81cc35, 0x7327d604, 0x4f9dbe3f, 0x094454ab);
    Turn(b, 59, r59, 13, 0x00000000, 0x4e0811a1, 21, r60);
    var r61 := State(0x094454ab, 0x310ade8f, 0x7327d604, 0x4f9dbe3f);
    Turn(b, 60, r60, 4, 0x00000000, 0xf7537e82, 6, r61);
    var r62 := State(0x4f9dbe3f, 0x624d8cb2, 0x310ade8f, 0x7327d604);
    Turn(b, 61, r61, 11, 0x00000000, 0xbd3af235, 10, r62);
    var r63 := State(0x7327d604, 0xe484b9d8, 0x624d8cb2, 0x310ade8f);
    Turn(b, 62, r62, 2, 0x00000000, 0x2ad7d2bb, 15, r63);
    var r64 := State(0x310ade8f, 0xc08226b3, 0xe484b9d8, 0x624d8cb2);
    Turn(b, 63, r63, 9, 0x00000000, 0xeb86d391, 21, r64);
  }

  lemma Hashed(b: seq<bv8>)
    requires IsBlock(b)
    ensures HashBlock(INITIAL, b) == State(0x98500190, 0xb04fd23c, 0x7d3f96d6, 0x727fe128)
  {
    hide Steps, IsBlock;
    After64(b);
  }

  lemma DigestBytes()
    ensures LittleEndian(State(0x98500190, 0xb04fd23c, 0x7d3f96d6, 0x727fe128)) ==
      [0x90, 0x01, 0x50, 0x98] + [0x3c, 0xd2, 0x4f, 0xb0] +
      [0xd6, 0x96, 0x3f, 0x7d] + [0x28, 0xe1, 0x7f, 0x72]
  {
  }

  lemma OneBlock(b: seq<bv8>)
    requires |b| == BLOCK
    ensures Absorbed(HashBlock, INITIAL, b) == HashBlock(INITIAL, b)
  {
    hide HashBlock;
    assert b[..BLOCK] == b && b[BLOCK..] == [];
  }

  /** MD5("abc"). */
  lemma Md5OfAbc()
    ensures Digest([0x61, 0x62, 0x63]) ==
      [0x90, 0x01, 0x50, 0x98] + [0x3c, 0xd2, 0x4f, 0xb0] +
      [0xd6, 0x96, 0x3f, 0x7d] + [0x28, 0xe1, 0x7f, 0x72]
  {
    hide Padded, HashBlock, LittleEndian, IsBlock, Native64, Word64;
    var b := Padded([0x61, 0x62, 0x63], Native64(Word64(24)));
    AbcIsPadded();
    IsLong(b);
    OneBlock(b);
    Hashed(b);
    hide Absorbed;
    DigestBytes();
  }
}
