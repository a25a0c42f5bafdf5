/** SHA1Transform, SHA1Update and SHA1Final (Lua/sha1.c:38-179). The transform expands the schedule in the
    block that it is given, which may be the caller's. */
module Sha1Code {
  import opened BlockHash
  import opened Sha1
  import opened Sha2
  import opened Sha2Words
  import opened Sha2Transform
  import Sha2Stream

  function Least(a: nat, b: nat): nat {
    if a < b then a else b
  }

  /** Word `i` of the block as the host reads it. */
  function WordAt(s: seq<bv8>, off: nat, i: nat): bv32
    requires off + BLOCK <= |s| && i < 16
  {
    LoadNative32(s[off + 4 * i..off + 4 * i + 4])
  }

  /** The block at step `t`: the last sixteen words of the schedule in their slots, and behind them the
      part of the data that is not read yet. */
  ghost predicate Prepared(s: seq<bv8>, off: nat, data: seq<bv8>, ring: seq<bv32>, t: nat) {
    && |data| == BLOCK && off + BLOCK <= |s| && |ring| == 16
    && (forall i :: 0 <= i < t <= i + 16 ==> ring[Slot(i)] == Schedule1(data, i))
    && (forall i :: 0 <= i < Least(t, 16) ==> WordAt(s, off, i) == ring[i])
    && (forall k :: 4 * Least(t, 16) <= k < BLOCK ==> s[off + k] == data[k])
  }

  /** Writing a word leaves the others and everything outside it alone. */
  ghost predicate Written(s: seq<bv8>, s': seq<bv8>, off: nat, i: nat, w: bv32) {
    && off + BLOCK <= |s| == |s'| && i < 16 && WordAt(s', off, i) == w
    && (forall j :: 0 <= j < 16 && j != i ==> WordAt(s', off, j) == WordAt(s, off, j))
    && (forall k :: 0 <= k < |s| && !(off + 4 * i <= k < off + 4 * i + 4) ==> s'[k] == s[k])
  }

  method StoreWord(block: array<bv8>, off: nat, i: nat, w: bv32)
    requires off + BLOCK <= block.Length && i < 16
    modifies block
    ensures Written(old(block[..]), block[..], off, i, w)
  {
    hide StoreNative32, LoadNative32;
    StoredIsLoaded(w);
    ghost var before := block[..];
    var bytes := StoreNative32(w);
    var at := off + 4 * i;
    block[at], block[at + 1], block[at + 2], block[at + 3] := bytes[0], bytes[1], bytes[2], bytes[3];
    ghost var after := block[..];
    assert after[at..at + 4] == bytes;
    forall j | 0 <= j < 16 && j != i ensures WordAt(after, off, j) == WordAt(before, off, j) {
      assert after[off + 4 * j..off + 4 * j + 4] == before[off + 4 * j..off + 4 * j + 4];
    }
  }

  /** blk0. */
  method TakeWord(block: array<bv8>, off: nat, t: nat, ghost data: seq<bv8>, ghost ring0: seq<bv32>) returns (w: bv32, ghost ring: seq<bv32>)
    requires t < 16 && Prepared(block[..], off, data, ring0, t) && off + BLOCK <= block.Length
    modifies block
    ensures w == Schedule1(data, t) && Prepared(block[..], off, data, ring, t + 1)
    ensures forall k :: 0 <= k < block.Length && !(off <= k < off + BLOCK) ==> block[k] == old(block[k])
  {
    hide LoadNative32, LoadBE32, Turn;
    ghost var s := block[..];
    var bytes := block[off + 4 * t..off + 4 * t + 4];
    assert bytes == data[4 * t..4 * t + 4];
    TurnedIsBigEndian(bytes);
    w := Turn(LoadNative32(bytes));
    StoreWord(block, off, t, w);
    ring := ring0[t := w];
    TakenIsPrepared(s, block[..], off, data, ring0, t, w);
  }

  lemma OwnSlot(i: nat)
    requires i < 16
    ensures Slot(i) == i
  {
  }

  lemma TakenIsPrepared(s: seq<bv8>, s': seq<bv8>, off: nat, data: seq<bv8>, ring: seq<bv32>, t: nat, w: bv32)
    requires t < 16 && Prepared(s, off, data, ring, t) && w == Schedule1(data, t) && Written(s, s', off, t, w)
    ensures Prepared(s', off, data, ring[t := w], t + 1)
  {
    hide WordAt, Schedule1, Slot;
    var ring' := ring[t := w];
    forall i | 0 <= i < t + 1 <= i + 16 ensures ring'[Slot(i)] == Schedule1(data, i) {
      OwnSlot(i);
    }
    forall i | 0 <= i < t + 1 ensures WordAt(s', off, i) == ring'[i] {
      if i < t { assert WordAt(s, off, i) == ring[i]; }
    }
    forall k | 4 * (t + 1) <= k < BLOCK ensures s'[off + k] == data[k] {
      assert s[off + k] == data[k];
    }
  }

  /** blk. */
  method ExpandWord(block: array<bv8>, off: nat, t: nat, ghost data: seq<bv8>, ghost ring0: seq<bv32>) returns (w: bv32, ghost ring: seq<bv32>)
    requires t >= 16 && Prepared(block[..], off, data, ring0, t) && off + BLOCK <= block.Length
    modifies block
    ensures w == Schedule1(data, t) && Prepared(block[..], off, data, ring, t + 1)
    ensures forall k :: 0 <= k < block.Length && !(off <= k < off + BLOCK) ==> block[k] == old(block[k])
  {
    hide WordAt, Mix, Schedule1, Prepared;
    ghost var s := block[..];
    RingHolds(s, off, data, ring0, t);
    w := Mix(WordAt(block[..], off, Slot(t + 13)), WordAt(block[..], off, Slot(t + 8)),
             WordAt(block[..], off, Slot(t + 2)), WordAt(block[..], off, Slot(t)));
    StoreWord(block, off, Slot(t), w);
    ring := ring0[Slot(t) := w];
    ExpandedIsPrepared(s, block[..], off, data, ring0, t, w);
  }

  lemma RingHolds(s: seq<bv8>, off: nat, data: seq<bv8>, ring: seq<bv32>, t: nat)
    requires t >= 16 && Prepared(s, off, data, ring, t) && off + BLOCK <= |s|
    ensures |ring| == 16 && |data| == BLOCK
    ensures Mix(WordAt(s, off, Slot(t + 13)), WordAt(s, off, Slot(t + 8)), WordAt(s, off, Slot(t + 2)), WordAt(s, off, Slot(t))) == Schedule1(data, t)
  {
    hide WordAt, Mix, Slot;
    SlotsOf(t);
    assert ring[Slot(t - 3)] == Schedule1(data, t - 3) && ring[Slot(t - 8)] == Schedule1(data, t - 8);
    assert ring[Slot(t - 14)] == Schedule1(data, t - 14) && ring[Slot(t - 16)] == Schedule1(data, t - 16);
  }

  lemma SlotsOf(t: nat)
    requires t >= 16
    ensures Slot(t + 13) == Slot(t - 3) && Slot(t + 8) == Slot(t - 8) && Slot(t + 2) == Slot(t - 14) && Slot(t) == Slot(t - 16)
    ensures Slot(t) < 16 && Slot(t + 13) < 16 && Slot(t + 8) < 16 && Slot(t + 2) < 16
  {
  }

  lemma ExpandedIsPrepared(s: seq<bv8>, s': seq<bv8>, off: nat, data: seq<bv8>, ring: seq<bv32>, t: nat, w: bv32)
    requires t >= 16 && Prepared(s, off, data, ring, t) && w == Schedule1(data, t) && Written(s, s', off, Slot(t), w)
    ensures Prepared(s', off, data, ring[Slot(t) := w], t + 1)
  {
    hide WordAt, Schedule1, Slot;
    var ring' := ring[Slot(t) := w];
    forall i | 0 <= i < t + 1 <= i + 16 ensures ring'[Slot(i)] == Schedule1(data, i) {
      if i < t { OtherSlot(i, t); }
    }
  }

  lemma NothingPrepared(s: seq<bv8>, off: nat, ring: seq<bv32>)
    requires off + BLOCK <= |s| && |ring| == 16
    ensures Prepared(s, off, s[off..off + BLOCK], ring, 0)
  {
  }

  /** One of the 80 macro calls of the source: of its five registers the last and the second change. */
  method Line(block: array<bv8>, off: nat, t: nat, v: bv32, w: bv32, x: bv32, y: bv32, z: bv32,
              ghost data: seq<bv8>, ghost ring0: seq<bv32>, ghost init: State) returns (z': bv32, w': bv32, ghost ring: seq<bv32>)
    requires off + BLOCK <= block.Length && |data| == BLOCK && Prepared(block[..], off, data, ring0, t)
    requires State(v, w, x, y, z) == Steps(init, data, t)
    modifies block
    ensures Prepared(block[..], off, data, ring, t + 1) && State(z', v, w', x, y) == Steps(init, data, t + 1)
    ensures forall k :: 0 <= k < block.Length && !(off <= k < off + BLOCK) ==> block[k] == old(block[k])
  {
    hide Prepared, MacroSum, Step, Rol32, Schedule1;
    var word;
    if t < 16 {
      word, ring := TakeWord(block, off, t, data, ring0);
    } else {
      word, ring := ExpandWord(block, off, t, data, ring0);
    }
    z' := MacroSum(t, v, w, x, y, z, word);
    w' := Rol32(w, 30);
    MacroIsStep(t, v, w, x, y, z, word);
  }

  /** Five macro calls, after which the registers have their names again. */
  method FiveLines(block: array<bv8>, off: nat, t: nat, a0: bv32, b0: bv32, c0: bv32, d0: bv32, e0: bv32,
                   ghost data: seq<bv8>, ghost ring0: seq<bv32>, ghost init: State)
    returns (a: bv32, b: bv32, c: bv32, d: bv32, e: bv32, ghost ring: seq<bv32>)
    requires off + BLOCK <= block.Length && |data| == BLOCK && Prepared(block[..], off, data, ring0, t)
    requires State(a0, b0, c0, d0, e0) == Steps(init, data, t)
    modifies block
    ensures Prepared(block[..], off, data, ring, t + 5) && State(a, b, c, d, e) == Steps(init, data, t + 5)
    ensures forall k :: 0 <= k < block.Length && !(off <= k < off + BLOCK) ==> block[k] == old(block[k])
  {
    hide Prepared, Steps;
    a, b, c, d, e := a0, b0, c0, d0, e0;
    e, b, ring := Line(block, off, t, a, b, c, d, e, data, ring0, init);
    d, a, ring := Line(block, off, t + 1, e, a, b, c, d, data, ring, init);
    c, e, ring := Line(block, off, t + 2, d, e, a, b, c, data, ring, init);
    b, d, ring := Line(block, off, t + 3, c, d, e, a, b, data, ring, init);
    a, c, ring := Line(block, off, t + 4, b, c, d, e, a, data, ring, init);
  }

  lemma HashOfSteps(h: State, block: seq<bv8>)
    requires |block| == BLOCK
    ensures Steps(h, block, 0) == h && HashBlock(h, block) == AddState(h, Steps(h, block, 80))
  {
    hide Step;
  }

  /** What the transform leaves in the block: the last sixteen words of the schedule. */
  lemma PreparedIsOverwritten(s: seq<bv8>, off: nat, data: seq<bv8>, ring: seq<bv32>)
    requires Prepared(s, off, data, ring, 80)
    ensures s[off..off + BLOCK] == LastWords(data, 0)
  {
    hide WordAt, Schedule1;
    forall i | 0 <= i < 16 ensures WordAt(s, off, i) == Schedule1(data, 64 + i) {
      assert Slot(64 + i) == i;
    }
    WordsAreBytes(s, off, data, 0);
  }

  lemma {:induction false} WordsAreBytes(s: seq<bv8>, off: nat, data: seq<bv8>, i: nat)
    requires |data| == BLOCK && off + BLOCK <= |s| && i <= 16
    requires forall k :: 0 <= k < 16 ==> WordAt(s, off, k) == Schedule1(data, 64 + k)
    ensures s[off + 4 * i..off + BLOCK] == LastWords(data, i)
    decreases 16 - i
  {
    hide Schedule1, LoadNative32, StoreNative32;
    if i < 16 {
      WordsAreBytes(s, off, data, i + 1);
      var at := off + 4 * i;
      assert WordAt(s, off, i) == Schedule1(data, 64 + i);
      NativeBytes(s[at..at + 4]);
      assert s[at..off + BLOCK] == s[at..at + 4] + s[at + 4..off + BLOCK];
    }
  }

  class Context {
    const state: array<bv32>
    var count: nat
    const buffer: array<bv8>
    ghost var message: seq<bv8>

    ghost predicate Shaped()
      reads this
    {
      state.Length == 5 && buffer.Length == BLOCK
    }

    ghost function Now(): State
      reads this, state
      requires Shaped()
    {
      State(state[0], state[1], state[2], state[3], state[4])
    }

    /** The state and the buffer follow the message. The counter is right modulo the bits of a block, which is
        all that the next update needs. */
    ghost predicate Follows(m: seq<bv8>)
      reads this, state, buffer
    {
      Shaped() && message == m && count < TWO64 && count % 512 == 8 * |m| % 512 && Keeps(HashBlock, INITIAL, Now(), buffer[..], m)
    }

    /** The counter is right altogether. */
    ghost predicate Counted()
      reads this
    {
      count == 8 * |message| % TWO64
    }

    constructor ()
      ensures Follows([]) && Counted() && message == [] && fresh(state) && fresh(buffer)
    {
      state := new bv32[5](_ => 0);
      buffer := new bv8[BLOCK](_ => 0);
      count := 0;
      message := [];
      new;
      hide HashBlock, Keeps;
      state[0], state[1], state[2], state[3], state[4] := 0x67452301, 0xEFCDAB89, 0x98BADCFE, 0x10325476, 0xC3D2E1F0;
      NothingKept(HashBlock, INITIAL, buffer[..]);
    }

    /** SHA1Transform: `block` is overwritten, whoever owns it. */
    method Transform(block: array<bv8>, off: nat)
      requires Shaped() && off + BLOCK <= block.Length
      modifies state, block
      ensures Now() == HashBlock(old(Now()), old(block[off..off + BLOCK]))
      ensures block[off..off + BLOCK] == LastWords(old(block[off..off + BLOCK]), 0)
      ensures forall k :: 0 <= k < block.Length && !(off <= k < off + BLOCK) ==> block[k] == old(block[k])
    {
      hide Prepared, Steps, HashBlock, LastWords, Add32;
      ghost var data, init := block[off..off + BLOCK], Now();
      HashOfSteps(init, data);
      var a, b, c, d, e := state[0], state[1], state[2], state[3], state[4];
      ghost var ring: seq<bv32> := seq(16, i => a);
      assert block[..][off..off + BLOCK] == data;
      NothingPrepared(block[..], off, ring);
      var t := 0;
      ghost var turns := 0;
      while t < 80
        invariant t == 5 * turns && 0 <= turns <= 16 && Now() == init
        invariant Prepared(block[..], off, data, ring, t) && State(a, b, c, d, e) == Steps(init, data, t)
        invariant forall k :: 0 <= k < block.Length && !(off <= k < off + BLOCK) ==> block[k] == old(block[k])
      {
        a, b, c, d, e, ring := FiveLines(block, off, t, a, b, c, d, e, data, ring, init);
        t, turns := t + 5, turns + 1;
      }
      PreparedIsOverwritten(block[..], off, data, ring);
      assert block[..][off..off + BLOCK] == block[off..off + BLOCK];
      state[0], state[1], state[2], state[3], state[4] :=
        Add32(state[0], a), Add32(state[1], b), Add32(state[2], c), Add32(state[3], d), Add32(state[4], e);
    }

    /** The block that the buffer starts and the front of the data fills up. */
    method FirstBlock(data: array<bv8>, j: nat, ghost m: seq<bv8>) returns (i: nat)
      requires Shaped() && data != buffer && j == |m| % BLOCK && j + data.Length > 63
      requires Keeps(HashBlock, INITIAL, Now(), buffer[..], m)
      modifies state, buffer
      ensures Shaped() && i == BLOCK - j <= data.Length
      ensures AtBoundary(HashBlock, INITIAL, Now(), m + data[..][..i])
    {
      hide HashBlock, Keeps, AtBoundary, LastWords;
      ghost var d := data[..];
      i := BLOCK - j;
      FilledBlock(HashBlock, INITIAL, Now(), buffer[..], m, d[..i], buffer[..][..j] + d[..i]);
      Sha2Stream.Copy(data, 0, buffer, j, i, buffer[..j]);
      assert old(buffer[..])[..j] == old(buffer[..j]) && data[0..i] == d[..i];
      assert buffer[0..BLOCK] == buffer[..j + i];
      Transform(buffer, 0);
    }

    /** The blocks of an update: first the one that the buffer starts, then those of the data itself, which are lost. */
    method WholeInput(data: array<bv8>, j: nat, ghost m: seq<bv8>) returns (i: nat)
      requires Shaped() && data != buffer && j == |m| % BLOCK && j + data.Length > 63
      requires Keeps(HashBlock, INITIAL, Now(), buffer[..], m)
      modifies state, buffer, data
      ensures Shaped() && i <= data.Length < i + BLOCK
      ensures AtBoundary(HashBlock, INITIAL, Now(), m + old(data[..])[..i])
      ensures data[..] == AfterUpdate(j, old(data[..])) && data[i..] == old(data[..])[i..]
    {
      hide HashBlock, Keeps, AtBoundary, LastWords, Overwritten;
      ghost var d := data[..];
      i := FirstBlock(data, j, m);
      ghost var first := i;
      assert data[..i] == d[..i] && d[..i] + Overwritten(d[i..]) == AfterUpdate(j, d);
      while i + 63 < data.Length
        invariant first <= i <= data.Length
        invariant AtBoundary(HashBlock, INITIAL, Now(), m + d[..i])
        invariant data[..i] + Overwritten(d[i..]) == AfterUpdate(j, d) && data[i..] == d[i..]
        decreases data.Length - i
      {
        i := NextBlock(data, i, AfterUpdate(j, d), m, d);
      }
      LastBytes(data[..], d, i, AfterUpdate(j, d));
    }

    /** A block of the data: it is hashed where it stands. */
    method NextBlock(data: array<bv8>, i0: nat, ghost all: seq<bv8>, ghost m: seq<bv8>, ghost d: seq<bv8>) returns (i: nat)
      requires Shaped() && data != buffer && i0 + BLOCK <= data.Length == |d|
      requires AtBoundary(HashBlock, INITIAL, Now(), m + d[..i0])
      requires data[..i0] + Overwritten(d[i0..]) == all && data[i0..] == d[i0..]
      modifies state, data
      ensures i == i0 + BLOCK && AtBoundary(HashBlock, INITIAL, Now(), m + d[..i])
      ensures data[..i] + Overwritten(d[i..]) == all && data[i..] == d[i..]
    {
      hide HashBlock, AtBoundary, LastWords, Overwritten;
      i := i0 + BLOCK;
      ghost var block := d[i0..i];
      ghost var before := data[..];
      assert data[i0..i] == data[i0..][..BLOCK] == d[i0..][..BLOCK] == block;
      BlockAtBoundary(HashBlock, INITIAL, Now(), m + d[..i0], block);
      assert m + d[..i0] + block == m + d[..i];
      Transform(data, i0);
      OverwrittenNext(d, i0);
      ghost var after := data[..];
      assert data[i0..i] == LastWords(block, 0);
      assert after[..i0] == before[..i0];
      assert data[..i] == data[..i0] + data[i0..i];
      assert data[i..] == d[i..] by {
        forall k | i <= k < data.Length ensures after[k] == d[k] { assert before[i0..][k - i0] == d[i0..][k - i0]; }
      }
    }

    /** Data that does not fill the buffer. */
    method KeepAll(data: array<bv8>, j: nat, ghost m: seq<bv8>)
      requires Shaped() && data != buffer && j == |m| % BLOCK && j + data.Length <= 63
      requires Keeps(HashBlock, INITIAL, Now(), buffer[..], m)
      modifies buffer
      ensures Keeps(HashBlock, INITIAL, Now(), buffer[..], m + data[..])
    {
      hide HashBlock, Keeps;
      ghost var was, d := buffer[..], data[..];
      Sha2Stream.Copy(data, 0, buffer, j, data.Length, buffer[..j]);
      assert data[0..data.Length] == d && was[..j] == old(buffer[..j]);
      assert buffer[..][..j + data.Length] == buffer[..j + data.Length];
      KeepsRest(HashBlock, INITIAL, Now(), was, m, d, buffer[..]);
    }

    method KeepTail(data: array<bv8>, i: nat, ghost m: seq<bv8>, ghost d: seq<bv8>)
      requires Shaped() && data != buffer && i <= data.Length < i + BLOCK && |d| == data.Length && data[i..] == d[i..]
      requires AtBoundary(HashBlock, INITIAL, Now(), m + d[..i])
      modifies buffer
      ensures Keeps(HashBlock, INITIAL, Now(), buffer[..], m + d)
    {
      hide HashBlock, Keeps, AtBoundary;
      var rest := data.Length - i;
      Sha2Stream.Copy(data, i, buffer, 0, rest, []);
      assert data[i..i + rest] == d[i..] && [] + d[i..] == d[i..];
      assert buffer[..][..rest] == buffer[..0 + rest];
      RestAfterBoundary(HashBlock, INITIAL, Now(), m + d[..i], d[i..], buffer[..]);
      assert m + d[..i] + d[i..] == m + d;
    }

    /** SHA1Update: `len << 3` is a 32-bit number. Data that reaches into a second block is overwritten. */
    method Update(data: array<bv8>)
      requires Follows(message) && data != buffer && data.Length < WORD32 - 63
      modifies this, state, buffer, data
      ensures Follows(old(message) + old(data[..]))
      ensures count == (old(count) + 8 * data.Length % WORD32) % TWO64
      ensures data[..] == AfterUpdate(old(|message|) % BLOCK, old(data[..]))
    {
      hide HashBlock, Keeps, AtBoundary;
      ghost var m, d := message, data[..];
      Position(count, |m|);
      var j := count / 8 % BLOCK;
      StillInPosition(count, |m|, data.Length);
      count := (count + 8 * data.Length % WORD32) % TWO64;
      message := m + d;
      if j + data.Length > 63 {
        var i := WholeInput(data, j, m);
        KeepTail(data, i, m, d);
      } else {
        KeepAll(data, j, m);
      }
    }

    /** One byte of padding after the other until the length fits. */
    method PadOut(ghost m: seq<bv8>)
      requires Follows(m)
      modifies this, state, buffer
      ensures Follows(m + ([0x80] + Zeros(ZeroPad(|m|))))
    {
      hide HashBlock, Keeps;
      var one := ArrayOf([0x80]);
      Update(one);
      ghost var zeros := 0;
      PaddedSoFar(m);
      while count / 8 % BLOCK * 8 != 448
        invariant Follows(message) && 0 <= zeros <= ZeroPad(|m|) && message == m + ([0x80] + Zeros(zeros))
        decreases ZeroPad(|m|) - zeros
      {
        Position(count, |message|);
        var zero := ArrayOf([0]);
        Update(zero);
        MoreZeros(m, zeros);
        zeros := zeros + 1;
      }
      Position(count, |message|);
      LastZero(|m|, zeros);
    }

    /** SHA1Final: the length is the counter as it was before the padding. */
    method Final() returns (digest: seq<bv8>)
      requires Follows(message)
      modifies this, state, buffer
      ensures digest == DigestWith(old(message), Bytes64(Word64(old(count))))
      ensures old(Counted()) ==> digest == Digest(old(message))
    {
      hide HashBlock, Keeps, Padded, Bytes64, Word64, Absorbed, StoreBE32;
      ghost var m := message;
      ghost var length := Bytes64(Word64(count));
      SameWord64(8 * |m|);
      var finalcount := ArrayOf(Bytes64(Word64(count)));
      PadOut(m);
      Update(finalcount);
      PaddedIsWhole(m, length);
      KeepsAtBoundary(HashBlock, INITIAL, Now(), buffer[..], message);
      BoundaryState(HashBlock, INITIAL, Now(), message);
      digest := StoreBE32(state[0]) + StoreBE32(state[1]) + StoreBE32(state[2]) + StoreBE32(state[3]) + StoreBE32(state[4]);
    }
  }

  const WORD32: nat := 0x1_0000_0000

  lemma Rest512(x: nat, q: nat, r: nat)
    requires x == 512 * q + r && r < 512
    ensures x % 512 == r
  {
  }

  lemma Position(count: nat, n: nat)
    requires count % 512 == 8 * n % 512
    ensures count / 8 % BLOCK == n % BLOCK
  {
    var q, r := n / BLOCK, n % BLOCK;
    Rest512(8 * n, q, 8 * r);
    var p := count / 512;
    assert count == 512 * p + 8 * r;
    RestIs(count / 8, p, r);
  }

  lemma StillInPosition(count: nat, n: nat, len: nat)
    requires count % 512 == 8 * n % 512
    ensures (count + 8 * len % WORD32) % TWO64 % 512 == 8 * (n + len) % 512
  {
    var x := 8 * len % WORD32;
    var k := 8 * len / WORD32;
    assert 8 * len == k * WORD32 + x;
    var y := (count + x) % TWO64;
    var l := (count + x) / TWO64;
    assert count + x == l * TWO64 + y;
    var p, r := 8 * n / 512, 8 * n % 512;
    var c := count / 512;
    var s, t := (r + x) / 512, (r + x) % 512;
    assert 8 * (n + len) == 512 * (p + k * (WORD32 / 512) + s) + t;
    Rest512(8 * (n + len), p + k * (WORD32 / 512) + s, t);
    assert y == 512 * (c + s - l * (TWO64 / 512)) + t;
    Rest512(y, c + s - l * (TWO64 / 512), t);
  }

  /** The counter stays right in an update if and only if the update is shorter than 2^29 bytes. */
  lemma CountStaysRightIff(count: nat, n: nat, len: nat)
    requires count == 8 * n % TWO64 && len < WORD32
    ensures (count + 8 * len % WORD32) % TWO64 == 8 * (n + len) % TWO64 <==> len < 0x2000_0000
  {
    CountMore(count, n, len);
    var x := 8 * len % WORD32;
    if len >= 0x2000_0000 {
      assert 0 < 8 * len - x < TWO64;
      Apart(count + x, count + 8 * len);
    }
  }

  lemma Apart(x: nat, y: nat)
    requires x < y < x + TWO64
    ensures x % TWO64 != y % TWO64
  {
    var a, b := x / TWO64, y / TWO64;
    assert y - x == (b - a) * TWO64 + (y % TWO64 - x % TWO64);
  }

  lemma LastBytes(s: seq<bv8>, d: seq<bv8>, i: nat, all: seq<bv8>)
    requires i <= |s| == |d| < i + BLOCK && s[..i] + Overwritten(d[i..]) == all && s[i..] == d[i..]
    ensures s == all
  {
    assert s == s[..i] + s[i..];
  }

  lemma PaddedSoFar(m: seq<bv8>)
    ensures m + [0x80] == m + ([0x80] + Zeros(0))
  {
  }

  lemma MoreZeros(m: seq<bv8>, n: nat)
    ensures m + ([0x80] + Zeros(n)) + [0] == m + ([0x80] + Zeros(n + 1))
  {
    assert Zeros(n + 1) == Zeros(n) + [0];
  }

  lemma LastZero(n: nat, k: nat)
    requires k <= ZeroPad(n) && (n + 1 + k) % BLOCK == 56
    ensures k == ZeroPad(n)
  {
  }
}
