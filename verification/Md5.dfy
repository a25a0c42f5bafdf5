/** MD5 (Lua/md5.c:33-134, 137-260): the transform is that of section 3.4 of RFC 1321, and a message in
    any pieces has the digest of the whole. */
module Md5 {
  import opened Sha2
  import opened Sha2Count
  import opened Sha2Words
  import opened BlockHash
  import Sha2Stream

  /** The constants of the 64 steps. */
  function TRow0(t: nat): bv32 {
    match t case 0 => 0xd76aa478 case 1 => 0xe8c7b756 case 2 => 0x242070db case 3 => 0xc1bdceee case 4 => 0xf57c0faf case 5 => 0x4787c62a
    case 6 => 0xa8304613 case 7 => 0xfd469501 case 8 => 0x698098d8 case 9 => 0x8b44f7af case 10 => 0xffff5bb1 case 11 => 0x895cd7be
    case 12 => 0x6b901122 case 13 => 0xfd987193 case 14 => 0xa679438e case _ => 0x49b40821
  }

  function TRow1(t: nat): bv32 {
    match t case 16 => 0xf61e2562 case 17 => 0xc040b340 case 18 => 0x265e5a51 case 19 => 0xe9b6c7aa case 20 => 0xd62f105d case 21 => 0x02441453
    case 22 => 0xd8a1e681 case 23 => 0xe7d3fbc8 case 24 => 0x21e1cde6 case 25 => 0xc33707d6 case 26 => 0xf4d50d87 case 27 => 0x455a14ed
    case 28 => 0xa9e3e905 case 29 => 0xfcefa3f8 case 30 => 0x676f02d9 case _ => 0x8d2a4c8a
  }

  function TRow2(t: nat): bv32 {
    match t case 32 => 0xfffa3942 case 33 => 0x8771f681 case 34 => 0x6d9d6122 case 35 => 0xfde5380c case 36 => 0xa4beea44 case 37 => 0x4bdecfa9
    case 38 => 0xf6bb4b60 case 39 => 0xbebfbc70 case 40 => 0x289b7ec6 case 41 => 0xeaa127fa case 42 => 0xd4ef3085 case 43 => 0x04881d05
    case 44 => 0xd9d4d039 case 45 => 0xe6db99e5 case 46 => 0x1fa27cf8 case _ => 0xc4ac5665
  }

  function TRow3(t: nat): bv32 {
    match t case 48 => 0xf4292244 case 49 => 0x432aff97 case 50 => 0xab9423a7 case 51 => 0xfc93a039 case 52 => 0x655b59c3 case 53 => 0x8f0ccc92
    case 54 => 0xffeff47d case 55 => 0x85845dd1 case 56 => 0x6fa87e4f case 57 => 0xfe2ce6e0 case 58 => 0xa3014314 case 59 => 0x4e0811a1
    case 60 => 0xf7537e82 case 61 => 0xbd3af235 case 62 => 0x2ad7d2bb case _ => 0xeb86d391
  }

  function Constant(t: nat): bv32 {
    if t < 16 then TRow0(t) else if t < 32 then TRow1(t) else if t < 48 then TRow2(t) else TRow3(t)
  }

  datatype State = State(a: bv32, b: bv32, c: bv32, d: bv32)

  // ----- section 3.4 of RFC 1321 --------------------------------------------

  function AuxF(x: bv32, y: bv32, z: bv32): bv32 { (x & y) | (!x & z) }

  function AuxG(x: bv32, y: bv32, z: bv32): bv32 { (x & z) | (y & !z) }

  function AuxH(x: bv32, y: bv32, z: bv32): bv32 { x ^ y ^ z }

  function AuxI(x: bv32, y: bv32, z: bv32): bv32 { y ^ (x | !z) }

  function Aux(i: nat, x: bv32, y: bv32, z: bv32): bv32 {
    if i < 16 then AuxF(x, y, z) else if i < 32 then AuxG(x, y, z) else if i < 48 then AuxH(x, y, z) else AuxI(x, y, z)
  }

  /** The index of the word that step `i` uses, as the four rounds list it. */
  function XIndex(i: nat): (k: nat)
    ensures i < 64 ==> k < 16
  {
    if i < 16 then i else if i < 32 then (5 * i + 1) % 16 else if i < 48 then (3 * i + 5) % 16 else 7 * i % 16
  }

  function ShiftOf(i: nat): (s: nat)
    ensures s < 32
  {
    var j := i % 4;
    if i < 16 then 7 + 5 * j
    else if i < 32 then (if j == 0 then 5 else if j == 1 then 9 else if j == 2 then 14 else 20)
    else if i < 48 then (if j == 0 then 4 else if j == 1 then 11 else if j == 2 then 16 else 23)
    else (if j == 0 then 6 else if j == 1 then 10 else if j == 2 then 15 else 21)
  }

  function Word(block: seq<bv8>, i: nat): bv32 {
    if |block| == BLOCK && i < 16 then LoadNative32(block[4 * i..4 * i + 4]) else 0
  }

  /** `a = b + ((a + F(b,c,d) + X[k] + T[i]) <<< s)`, after which the registers change places. */
  function Step(i: nat, r: State, x: bv32): State {
    State(r.d, Add32(r.b, Rol32(Add32(Add32(Add32(r.a, Aux(i, r.b, r.c, r.d)), x), Constant(i)), ShiftOf(i))), r.b, r.c)
  }

  function Steps(r: State, block: seq<bv8>, n: nat): State {
    if n == 0 then r else Step(n - 1, Steps(r, block, n - 1), Word(block, XIndex(n - 1)))
  }

  function HashBlock(h: State, block: seq<bv8>): State {
    var r := Steps(h, block, 64);
    State(Add32(h.a, r.a), Add32(h.b, r.b), Add32(h.c, r.c), Add32(h.d, r.d))
  }

  const INITIAL := State(0x67452301, 0xefcdab89, 0x98badcfe, 0x10325476)

  function LittleEndian(s: State): seq<bv8> {
    StoreNative32(s.a) + StoreNative32(s.b) + StoreNative32(s.c) + StoreNative32(s.d)
  }

  /** The digest of a message. */
  function Digest(m: seq<bv8>): seq<bv8> {
    LittleEndian(Absorbed(HashBlock, INITIAL, Padded(m, Native64(Word64(8 * |m|)))))
  }

  // ----- the code's step ----------------------------------------------------

  /** The source's F1, which F2 uses with its arguments turned. */
  function F1(x: bv32, y: bv32, z: bv32): bv32 { z ^ (x & (y ^ z)) }

  function F(i: nat, x: bv32, y: bv32, z: bv32): bv32 {
    if i < 16 then F1(x, y, z) else if i < 32 then F1(z, x, y) else if i < 48 then AuxH(x, y, z) else AuxI(x, y, z)
  }

  lemma Definitions(x: bv32, y: bv32, z: bv32)
    ensures F1(x, y, z) == z ^ (x & (y ^ z)) && AuxF(x, y, z) == (x & y) | (!x & z) && AuxG(x, y, z) == (x & z) | (y & !z)
  {
  }

  lemma FirstF(x: bv32, y: bv32, z: bv32)
    ensures z ^ (x & (y ^ z)) == (x & y) | (!x & z)
  {
  }

  lemma SecondF(x: bv32, y: bv32, z: bv32)
    ensures y ^ (z & (x ^ y)) == (x & z) | (y & !z)
  {
  }

  lemma F1IsAux(x: bv32, y: bv32, z: bv32)
    ensures F1(x, y, z) == AuxF(x, y, z) && F1(z, x, y) == AuxG(x, y, z)
  {
    hide F1, AuxF, AuxG;
    Definitions(x, y, z);
    Definitions(z, x, y);
    FirstF(x, y, z);
    SecondF(x, y, z);
  }

  lemma FIsAux(i: nat, x: bv32, y: bv32, z: bv32)
    ensures F(i, x, y, z) == Aux(i, x, y, z)
  {
    hide F1, AuxF, AuxG, AuxH, AuxI;
    F1IsAux(x, y, z);
  }

  /** MD5STEP. */
  function MacroStep(i: nat, w: bv32, x: bv32, y: bv32, z: bv32, data: bv32, s: nat): bv32
    requires s < 32
  {
    Add32(Rol32(Add32(w, Add32(F(i, x, y, z), data)), s), x)
  }

  lemma MacroIsStep(i: nat, w: bv32, x: bv32, y: bv32, z: bv32, xk: bv32)
    ensures State(z, MacroStep(i, w, x, y, z, Add32(xk, Constant(i)), ShiftOf(i)), x, y) == Step(i, State(w, x, y, z), xk)
  {
    hide Add32, Rol32, F, Aux, ShiftOf, Constant;
    FIsAux(i, x, y, z);
    var f, t := F(i, x, y, z), Constant(i);
    AddLaws32(w, f, Add32(xk, t));
    AddLaws32(Add32(w, f), xk, t);
    AddLaws32(x, Rol32(Add32(w, Add32(f, Add32(xk, t))), ShiftOf(i)), x);
  }

  // ----- the transform ------------------------------------------------------

  class Context {
    const state: array<bv32>
    var count: nat
    const buffer: array<bv8>
    ghost var message: seq<bv8>

    ghost predicate Shaped()
      reads this
    {
      state.Length == 4 && buffer.Length == BLOCK
    }

    ghost function Now(): State
      reads this, state
      requires Shaped()
    {
      State(state[0], state[1], state[2], state[3])
    }

    /** The context stands for the message `m`. */
    ghost predicate Holds(m: seq<bv8>)
      reads this, state, buffer
    {
      Shaped() && message == m && count == 8 * |m| % TWO64 && Keeps(HashBlock, INITIAL, Now(), buffer[..], m)
    }

    /** MD5Init. */
    constructor ()
      ensures Holds([]) && fresh(state) && fresh(buffer)
    {
      state := new bv32[4](_ => 0);
      buffer := new bv8[BLOCK](_ => 0);
      count := 0;
      message := [];
      new;
      hide HashBlock, Keeps;
      state[0], state[1], state[2], state[3] := 0x67452301, 0xefcdab89, 0x98badcfe, 0x10325476;
      NothingKept(HashBlock, INITIAL, buffer[..]);
    }

    method Transform(block: array<bv8>, off: nat)
      requires Shaped() && off + BLOCK <= block.Length
      modifies state
      ensures Now() == HashBlock(old(Now()), block[off..off + BLOCK])
    {
      hide Add32, Steps, HashBlock;
      ghost var data, init := block[off..off + BLOCK], Now();
      HashOfSteps(init, data);
      var a, b, c, d := state[0], state[1], state[2], state[3];
      var i := 0;
      ghost var turns := 0;
      while i < 64
        invariant i == 4 * turns && 0 <= turns <= 16 && State(a, b, c, d) == Steps(init, data, i)
        invariant Now() == init
      {
        a := OneStep(block, off, i, a, b, c, d, init);
        d := OneStep(block, off, i + 1, d, a, b, c, init);
        c := OneStep(block, off, i + 2, c, d, a, b, init);
        b := OneStep(block, off, i + 3, b, c, d, a, init);
        i, turns := i + 4, turns + 1;
      }
      state[0], state[1], state[2], state[3] := Add32(state[0], a), Add32(state[1], b), Add32(state[2], c), Add32(state[3], d);
    }

    /** MD5Update. */
    method Update(input: array<bv8>)
      requires Holds(message) && input != buffer
      modifies this, state, buffer
      ensures Holds(old(message) + input[..])
    {
      hide HashBlock, Keeps;
      ghost var m := message;
      Waiting(count, |m|);
      var have := count / 8 % BLOCK;
      var need := BLOCK - have;
      CountMore(count, |m|, input.Length);
      count := (count + 8 * input.Length) % TWO64;
      message := m + input[..];
      if input.Length < need {
        KeepAll(input, have, m);
      } else {
        var off := WholeInput(input, have, m);
        KeepTail(input, off, m);
      }
    }

    /** An input that does not fill the buffer. */
    method KeepAll(input: array<bv8>, have: nat, ghost m: seq<bv8>)
      requires Shaped() && input != buffer && have == |m| % BLOCK && input.Length < BLOCK - have
      requires Keeps(HashBlock, INITIAL, Now(), buffer[..], m)
      modifies buffer
      ensures Keeps(HashBlock, INITIAL, Now(), buffer[..], m + input[..])
    {
      hide HashBlock, Keeps;
      ghost var was, d := buffer[..], input[..];
      Sha2Stream.Copy(input, 0, buffer, have, input.Length, buffer[..have]);
      assert input[0..input.Length] == d && was[..have] == old(buffer[..have]);
      assert buffer[..][..have + input.Length] == buffer[..have + input.Length];
      KeepsRest(HashBlock, INITIAL, Now(), was, m, d, buffer[..]);
    }

    /** What is left of an input behind its last whole block. */
    method KeepTail(input: array<bv8>, off: nat, ghost m: seq<bv8>)
      requires Shaped() && input != buffer && off <= input.Length < off + BLOCK
      requires AtBoundary(HashBlock, INITIAL, Now(), m + input[..off])
      modifies buffer
      ensures Keeps(HashBlock, INITIAL, Now(), buffer[..], m + input[..])
    {
      hide HashBlock, Keeps, AtBoundary;
      var rest := input.Length - off;
      ghost var d := input[off..];
      Sha2Stream.Copy(input, off, buffer, 0, rest, []);
      assert input[off..off + rest] == d && [] + d == d;
      assert buffer[..][..rest] == buffer[..0 + rest];
      RestAfterBoundary(HashBlock, INITIAL, Now(), m + input[..off], d, buffer[..]);
      assert m + input[..off] + d == m + input[..];
    }

    /** The blocks of an update: first the one that the buffer starts, then those of the input itself. */
    method WholeInput(input: array<bv8>, have: nat, ghost m: seq<bv8>) returns (off: nat)
      requires Shaped() && input != buffer && have == |m| % BLOCK && input.Length >= BLOCK - have
      requires Keeps(HashBlock, INITIAL, Now(), buffer[..], m)
      modifies state, buffer
      ensures Shaped() && off <= input.Length < off + BLOCK && AtBoundary(HashBlock, INITIAL, Now(), m + input[..off])
    {
      hide HashBlock, Keeps, AtBoundary;
      off := 0;
      if have != 0 {
        off := BLOCK - have;
        FilledBlock(HashBlock, INITIAL, Now(), buffer[..], m, input[..off], buffer[..][..have] + input[..off]);
        Sha2Stream.Copy(input, 0, buffer, have, off, buffer[..have]);
        assert old(buffer[..])[..have] == old(buffer[..have]) && input[0..off] == input[..off];
        assert buffer[0..BLOCK] == buffer[..have + off];
        Transform(buffer, 0);
      } else {
        KeepsAtBoundary(HashBlock, INITIAL, Now(), buffer[..], m);
        assert m + input[..0] == m;
      }
      while input.Length - off >= BLOCK
        invariant off <= input.Length && AtBoundary(HashBlock, INITIAL, Now(), m + input[..off])
        decreases input.Length - off
      {
        BlockAtBoundary(HashBlock, INITIAL, Now(), m + input[..off], input[off..off + BLOCK]);
        assert m + input[..off] + input[off..off + BLOCK] == m + input[..off + BLOCK];
        Transform(input, off);
        off := off + BLOCK;
      }
    }

    /** MD5Final: PADDING is a one bit and zeros, as many as fill the block up to the length. */
    method Final() returns (digest: seq<bv8>)
      requires Holds(message)
      modifies this, state, buffer
      ensures digest == Digest(old(message))
    {
      hide HashBlock, Keeps, Padded, StoreNative32, Absorbed;
      ghost var m := message;
      var padding, lengthBytes := Ending(m);
      Update(padding);
      Update(lengthBytes);
      PaddedIsWhole(m, Native64(Word64(8 * |m|)));
      hide Native64, Word64;
      KeepsAtBoundary(HashBlock, INITIAL, Now(), buffer[..], message);
      BoundaryState(HashBlock, INITIAL, Now(), message);
      digest := StoreNative32(state[0]) + StoreNative32(state[1]) + StoreNative32(state[2]) + StoreNative32(state[3]);
    }

    /** The padding and the length for the message so far. */
    method Ending(ghost m: seq<bv8>) returns (padding: array<bv8>, lengthBytes: array<bv8>)
      requires Holds(m)
      ensures fresh(padding) && fresh(lengthBytes)
      ensures padding[..] == [0x80] + Zeros(ZeroPad(|m|)) && lengthBytes[..] == Native64(Word64(8 * |m|))
    {
      hide HashBlock, Keeps, Native64, Word64;
      Waiting(count, |m|);
      SameWord64(8 * |m|);
      lengthBytes := ArrayOf(Native64(Word64(count)));
      var padlen := BLOCK - count / 8 % BLOCK;
      if padlen < 1 + 8 { padlen := padlen + BLOCK; }
      padding := ArrayOf([0x80] + Zeros(padlen - 9));
    }

    /** One of the 64 lines of the source. */
    method OneStep(block: array<bv8>, off: nat, i: nat, w: bv32, x: bv32, y: bv32, z: bv32, ghost init: State) returns (w': bv32)
      requires off + BLOCK <= block.Length && i < 64 && State(w, x, y, z) == Steps(init, block[off..off + BLOCK], i)
      ensures State(z, w', x, y) == Steps(init, block[off..off + BLOCK], i + 1)
    {
      hide Add32, Step, MacroStep, ShiftOf, XIndex, LoadNative32, Constant;
      var k := XIndex(i);
      SliceOfSlice(block[..], off, BLOCK, 4 * k, 4 * k + 4);
      assert block[..][off..off + BLOCK] == block[off..off + BLOCK];
      assert block[..][off + 4 * k..off + 4 * k + 4] == block[off + 4 * k..off + 4 * k + 4];
      var xk := LoadNative32(block[off + 4 * k..off + 4 * k + 4]);
      w' := MacroStep(i, w, x, y, z, Add32(xk, Constant(i)), ShiftOf(i));
      MacroIsStep(i, w, x, y, z, xk);
    }
  }

  lemma HashOfSteps(h: State, block: seq<bv8>)
    ensures Steps(h, block, 0) == h
    ensures var r := Steps(h, block, 64);
      HashBlock(h, block) == State(Add32(h.a, r.a), Add32(h.b, r.b), Add32(h.c, r.c), Add32(h.d, r.d))
  {
    hide Add32, Step;
  }

  /** hashes.md5 over a message in pieces: the digest of RFC 1321 of the whole. */
  method Md5Of(pieces: seq<seq<bv8>>) returns (digest: seq<bv8>)
    ensures digest == Digest(Sha2Stream.Joined(pieces))
  {
    hide Digest, HashBlock, Keeps;
    var ctx := new Context();
    for i := 0 to |pieces|
      invariant fresh(ctx) && fresh(ctx.state) && fresh(ctx.buffer)
      invariant ctx.Holds(ctx.message) && ctx.message == Sha2Stream.Joined(pieces[..i])
    {
      var data := ArrayOf(pieces[i]);
      assert pieces[..i + 1][..i] == pieces[..i];
      ctx.Update(data);
    }
    assert pieces[..|pieces|] == pieces;
    digest := ctx.Final();
  }
}
