/** SHA-1 (Lua/sha1.c:30-179): a transform that works in the caller's block, and a message in any pieces.
    The hash is that of section 6.1.2 of FIPS 180-4. */
module Sha1 {
  import opened BlockHash
  import opened Sha2
  import opened Sha2Words

  datatype State = State(a: bv32, b: bv32, c: bv32, d: bv32, e: bv32)

  // ----- section 6.1.2 of FIPS 180-4 ----------------------------------------

  function Parity(x: bv32, y: bv32, z: bv32): bv32 { x ^ y ^ z }

  function Logic(t: nat, x: bv32, y: bv32, z: bv32): bv32 {
    if t < 20 then Ch32(x, y, z) else if t < 40 then Parity(x, y, z) else if t < 60 then Maj32(x, y, z) else Parity(x, y, z)
  }

  function Constant(t: nat): bv32 {
    if t < 20 then 0x5A827999 else if t < 40 then 0x6ED9EBA1 else if t < 60 then 0x8F1BBCDC else 0xCA62C1D6
  }

  function Mix(w3: bv32, w8: bv32, w14: bv32, w16: bv32): bv32 {
    Rol32(w3 ^ w8 ^ w14 ^ w16, 1)
  }

  function Schedule1(block: seq<bv8>, t: nat): bv32
    requires |block| == BLOCK
  {
    if t < 16 then LoadBE32(block[4 * t..4 * t + 4])
    else Mix(Schedule1(block, t - 3), Schedule1(block, t - 8), Schedule1(block, t - 14), Schedule1(block, t - 16))
  }

  function Step(t: nat, r: State, w: bv32): State {
    State(Add32(Add32(Add32(Add32(Rol32(r.a, 5), Logic(t, r.b, r.c, r.d)), r.e), Constant(t)), w), r.a, Rol32(r.b, 30), r.c, r.d)
  }

  function Steps(r: State, block: seq<bv8>, n: nat): State
    requires |block| == BLOCK
  {
    if n == 0 then r else Step(n - 1, Steps(r, block, n - 1), Schedule1(block, n - 1))
  }

  function AddState(h: State, r: State): State {
    State(Add32(h.a, r.a), Add32(h.b, r.b), Add32(h.c, r.c), Add32(h.d, r.d), Add32(h.e, r.e))
  }

  function HashBlock(h: State, block: seq<bv8>): State {
    if |block| == BLOCK then AddState(h, Steps(h, block, 80)) else h
  }

  const INITIAL := State(0x67452301, 0xEFCDAB89, 0x98BADCFE, 0x10325476, 0xC3D2E1F0)

  function BigEndianState(s: State): seq<bv8> {
    StoreBE32(s.a) + StoreBE32(s.b) + StoreBE32(s.c) + StoreBE32(s.d) + StoreBE32(s.e)
  }

  /** The digest of a message with the given length field. */
  function DigestWith(m: seq<bv8>, length: seq<bv8>): seq<bv8> {
    BigEndianState(Absorbed(HashBlock, INITIAL, Padded(m, length)))
  }

  /** The digest of a message. */
  function Digest(m: seq<bv8>): seq<bv8> {
    DigestWith(m, Bytes64(Word64(8 * |m|)))
  }

  // ----- what is left of the data -------------------------------------------

  /** The words 64 to 79 of the schedule, from word 64 + `i` on, as the host stores them. */
  function LastWords(block: seq<bv8>, i: nat): (s: seq<bv8>)
    requires |block| == BLOCK && i <= 16
    ensures |s| == 4 * (16 - i)
    decreases 16 - i
  {
    if i == 16 then [] else StoreNative32(Schedule1(block, 64 + i)) + LastWords(block, i + 1)
  }

  /** Whole blocks are overwritten with the end of their schedules. */
  function Overwritten(d: seq<bv8>): (s: seq<bv8>)
    ensures |s| == |d|
    decreases |d|
  {
    if |d| < BLOCK then d else LastWords(d[..BLOCK], 0) + Overwritten(d[BLOCK..])
  }

  /** What an update leaves of its data when `j` bytes wait in the buffer: only the bytes that fill
      up the first block and the last bytes that fill none are as they were. */
  function AfterUpdate(j: nat, d: seq<bv8>): (s: seq<bv8>)
    requires j < BLOCK
    ensures |s| == |d|
  {
    if j + |d| < BLOCK then d else d[..BLOCK - j] + Overwritten(d[BLOCK - j..])
  }

  lemma OverwrittenNext(d: seq<bv8>, i: nat)
    requires i + BLOCK <= |d|
    ensures Overwritten(d[i..]) == LastWords(d[i..i + BLOCK], 0) + Overwritten(d[i + BLOCK..])
  {
    assert d[i..][..BLOCK] == d[i..i + BLOCK] && d[i..][BLOCK..] == d[i + BLOCK..];
  }

  // ----- the code's step ----------------------------------------------------

  function CodeCh(w: bv32, x: bv32, y: bv32): bv32 { (w & (x ^ y)) ^ y }

  function CodeMaj(w: bv32, x: bv32, y: bv32): bv32 { ((w | x) & y) | (w & x) }

  lemma Definitions(x: bv32, y: bv32, z: bv32)
    ensures CodeCh(x, y, z) == (x & (y ^ z)) ^ z && CodeMaj(x, y, z) == ((x | y) & z) | (x & y)
    ensures Ch32(x, y, z) == (x & y) ^ ((!x) & z) && Maj32(x, y, z) == (x & y) ^ (x & z) ^ (y & z)
  {
  }

  lemma SameCh(x: bv32, y: bv32, z: bv32)
    ensures (x & (y ^ z)) ^ z == (x & y) ^ ((!x) & z)
  {
  }

  lemma SameMaj(x: bv32, y: bv32, z: bv32)
    ensures ((x | y) & z) | (x & y) == (x & y) ^ (x & z) ^ (y & z)
  {
  }

  function CodeLogic(t: nat, w: bv32, x: bv32, y: bv32): bv32 {
    if t < 20 then CodeCh(w, x, y) else if t < 40 then Parity(w, x, y) else if t < 60 then CodeMaj(w, x, y) else Parity(w, x, y)
  }

  lemma LogicIsSame(t: nat, x: bv32, y: bv32, z: bv32)
    ensures CodeLogic(t, x, y, z) == Logic(t, x, y, z)
  {
    hide CodeCh, CodeMaj, Ch32, Maj32, Parity;
    Definitions(x, y, z);
    SameCh(x, y, z);
    SameMaj(x, y, z);
  }

  /** What R0 to R4 add to their last register. */
  function MacroSum(t: nat, v: bv32, w: bv32, x: bv32, y: bv32, z: bv32, word: bv32): bv32 {
    Add32(z, Add32(Add32(Add32(CodeLogic(t, w, x, y), word), Constant(t)), Rol32(v, 5)))
  }

  lemma FiveTerms(z: bv32, f: bv32, w: bv32, k: bv32, r: bv32)
    ensures Add32(z, Add32(Add32(Add32(f, w), k), r)) == Add32(Add32(Add32(Add32(r, f), z), k), w)
  {
    hide Add32;
    AddLaws32(f, w, k);
    AddLaws32(w, k, f);
    var x := Add32(w, k);
    AddLaws32(f, x, r);
    AddLaws32(x, r, f);
    AddLaws32(Add32(f, x), r, z);
    AddLaws32(r, f, x);
    AddLaws32(Add32(r, f), x, z);
    AddLaws32(x, z, Add32(r, f));
    AddLaws32(z, x, Add32(r, f));
    AddLaws32(Add32(r, f), z, x);
    AddLaws32(Add32(Add32(r, f), z), k, w);
    AddLaws32(k, w, z);
    AddLaws32(z, Add32(Add32(r, f), x), x);
  }

  /** With the registers renamed, one macro is one step. */
  lemma MacroIsStep(t: nat, v: bv32, w: bv32, x: bv32, y: bv32, z: bv32, word: bv32)
    ensures State(MacroSum(t, v, w, x, y, z, word), v, Rol32(w, 30), x, y) == Step(t, State(v, w, x, y, z), word)
  {
    hide Add32, Rol32, CodeLogic, Logic, Constant;
    LogicIsSame(t, w, x, y);
    FiveTerms(z, Logic(t, w, x, y), word, Constant(t), Rol32(v, 5));
  }

  // ----- byte order ---------------------------------------------------------

  /** blk0, a rotation by 24 and one by 8: the bytes of a native word turned round. */
  function Turn(x: bv32): bv32 {
    (((x << 24) | (x >> 8)) & 0xFF00FF00) | (((x << 8) | (x >> 24)) & 0x00FF00FF)
  }

  lemma TurnBytes(x: bv32)
    ensures Turn(x) == Word32(Byte32(x, 3), Byte32(x, 2), Byte32(x, 1), Byte32(x, 0))
  {
  }

  lemma BytesOfWord(a: bv8, b: bv8, c: bv8, d: bv8)
    ensures var x := Word32(a, b, c, d); Byte32(x, 0) == a && Byte32(x, 1) == b && Byte32(x, 2) == c && Byte32(x, 3) == d
  {
  }

  lemma TurnedWord(a: bv8, b: bv8, c: bv8, d: bv8)
    ensures Turn(Word32(d, c, b, a)) == Word32(a, b, c, d)
  {
    hide Turn, Word32, Byte32;
    TurnBytes(Word32(d, c, b, a));
    BytesOfWord(d, c, b, a);
  }

  lemma TurnedIsBigEndian(s: seq<bv8>)
    requires |s| == 4
    ensures Turn(LoadNative32(s)) == LoadBE32(s)
  {
    hide Turn, Word32;
    TurnedWord(s[0], s[1], s[2], s[3]);
  }

  lemma NativeBytes(s: seq<bv8>)
    requires |s| == 4
    ensures StoreNative32(LoadNative32(s)) == s
  {
    hide Word32, Byte32;
    BytesOfWord(s[3], s[2], s[1], s[0]);
  }

  lemma StoredIsLoaded(w: bv32)
    ensures |StoreNative32(w)| == 4 && LoadNative32(StoreNative32(w)) == w
  {
    hide Word32, Byte32;
    Load32(w);
  }
}
