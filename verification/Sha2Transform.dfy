/** SHA256Transform and SHA512Transform (Lua/sha2.c:293-449, 579-735): a 16-word circular schedule
    that lives in the context's own buffer, in the plain and in the unrolled form. Both functions
    are written alike, so they are one here, over the word size. */
module Sha2Transform {
  import opened Sha2

  /** The slot of the circular schedule that word `t` uses. */
  function Slot(t: nat): (i: nat)
    ensures i < 16
  {
    t % 16
  }

  /** The sixteen words before word `j` of the schedule. */
  ghost predicate Ring<W>(o: Ops<W>, ring: seq<W>, block: seq<bv8>, j: nat)
    requires |block| == BlockLength(o)
  {
    |ring| == 16 && forall t :: 0 <= t < j <= t + 16 ==> ring[Slot(t)] == Schedule(o, block, t)
  }

  /** What the code adds up for word `j`. */
  function NextWord<W>(o: Ops<W>, ring: seq<W>, j: nat): W
    requires |ring| == 16
  {
    o.add(ring[Slot(j)], o.add(o.add(o.sigma1(ring[Slot(j + 14)]), ring[Slot(j + 9)]), o.sigma0(ring[Slot(j + 1)])))
  }

  lemma OtherSlot(t: nat, j: nat)
    requires t < j <= t + 15
    ensures Slot(t) != Slot(j)
  {
  }

  lemma RingStep<W(!new)>(o: Ops<W>, ring: seq<W>, block: seq<bv8>, j: nat)
    requires Lawful(o) && |block| == BlockLength(o) && j >= 16 && Ring(o, ring, block, j)
    ensures NextWord(o, ring, j) == Schedule(o, block, j)
    ensures Ring(o, ring[Slot(j) := Schedule(o, block, j)], block, j + 1)
  {
    hide Lawful;
    RingWords(o, ring, block, j);
    Commutes(o, ring[Slot(j)], o.add(o.add(o.sigma1(ring[Slot(j + 14)]), ring[Slot(j + 9)]), o.sigma0(ring[Slot(j + 1)])));
    assert NextWord(o, ring, j) == Schedule(o, block, j);
    hide Schedule, NextWord, Slot;
    var w := Schedule(o, block, j);
    forall t | 0 <= t < j + 1 <= t + 16 ensures ring[Slot(j) := w][Slot(t)] == Schedule(o, block, t) {
      if t < j { OtherSlot(t, j); }
    }
  }

  lemma RingWords<W>(o: Ops<W>, ring: seq<W>, block: seq<bv8>, j: nat)
    requires |block| == BlockLength(o) && j >= 16 && Ring(o, ring, block, j)
    ensures ring[Slot(j + 14)] == Schedule(o, block, j - 2) && ring[Slot(j + 9)] == Schedule(o, block, j - 7)
    ensures ring[Slot(j + 1)] == Schedule(o, block, j - 15) && ring[Slot(j)] == Schedule(o, block, j - 16)
  {
    hide Schedule;
    assert Slot(j + 14) == Slot(j - 2) && Slot(j + 9) == Slot(j - 7) && Slot(j + 1) == Slot(j - 15) && Slot(j) == Slot(j - 16);
  }

  /** One use of the unrolled macro: it changes two registers and leaves the others in place. */
  function Macro<W>(o: Ops<W>, r: Regs<W>, k: W, w: W): (W, W) {
    var t1 := T1(o, r, k, w);
    (o.add(r.d, t1), o.add(o.add(t1, o.bigSigma0(r.a)), o.maj(r.a, r.b, r.c)))
  }

  /** With the registers renamed, one use of the macro is one round. */
  lemma MacroIsRound<W(!new)>(o: Ops<W>, r: Regs<W>, k: W, w: W)
    requires Lawful(o)
    ensures Round(o, r, k, w) == Regs(Macro(o, r, k, w).1, r.a, r.b, r.c, Macro(o, r, k, w).0, r.e, r.f, r.g)
  {
    hide Lawful, T1;
    Associates(o, T1(o, r, k, w), o.bigSigma0(r.a), o.maj(r.a, r.b, r.c));
  }

  lemma OffStep<W>(o: Ops<W>, i: nat)
    ensures Off(o, i + 1) == Off(o, i) + Off(o, 1) && (Off(o, 1) == 4 || Off(o, 1) == 8) && Off(o, 16) == BlockLength(o) && Off(o, 0) == 0
    ensures i < 16 ==> Off(o, i + 1) <= BlockLength(o)
  {
  }

  lemma OffOrder<W>(o: Ops<W>, i: nat, j: nat)
    requires i < j
    ensures Off(o, i + 1) <= Off(o, j)
  {
  }

  class Context<W(!new)> {
    const o: Ops<W>
    const state: array<W>
    var bitcountLow: nat
    var bitcountHigh: nat
    const buffer: array<bv8>

    /** Everything that has been hashed. */
    ghost var message: seq<bv8>

    constructor (o: Ops<W>, initial: seq<W>)
      requires |initial| == 8
      ensures this.o == o && Shaped() && fresh(state) && fresh(buffer)
      ensures bitcountLow == bitcountHigh == 0 && message == [] && state[..] == initial
    {
      this.o := o;
      state := new W[8](i requires 0 <= i < 8 => initial[i]);
      buffer := new bv8[128](_ => 0);
      bitcountLow, bitcountHigh := 0, 0;
      message := [];
      new;
      assert state[..] == initial;
    }

    ghost predicate Shaped()
      reads this
    {
      state.Length == 8 && buffer.Length == 128 && (state as object) != (buffer as object)
    }

    ghost function State(): Regs<W>
      reads this, state
      requires Shaped()
    {
      Regs(state[0], state[1], state[2], state[3], state[4], state[5], state[6], state[7])
    }

    /** The words in the buffer, as the host stores them. */
    ghost predicate Holds(ring: seq<W>, n: nat)
      reads this, buffer
      requires Shaped()
    {
      n <= 16 <= |ring| && forall i :: 0 <= i < n ==> WordAt(i) == ring[i]
    }

    function WordAt(i: nat): W
      reads this, buffer
      requires Shaped() && i < 16
    {
      OffStep(o, i);
      o.loadNative(buffer[Off(o, i)..Off(o, i + 1)])
    }

    method StoreWord(i: nat, w: W)
      requires Shaped() && Lawful(o) && i < 16
      modifies buffer
      ensures WordAt(i) == w
      ensures forall j :: 0 <= j < 16 && j != i ==> WordAt(j) == old(WordAt(j))
      ensures forall k :: 0 <= k < 128 && !(Off(o, i) <= k < Off(o, i + 1)) ==> buffer[k] == old(buffer[k])
    {
      OffStep(o, i);
      var bytes := o.storeNative(w);
      var at := Off(o, i);
      for b := 0 to |bytes|
        invariant forall k :: 0 <= k < b ==> buffer[at + k] == bytes[k]
        invariant forall k :: 0 <= k < 128 && !(at <= k < at + |bytes|) ==> buffer[k] == old(buffer[k])
      {
        buffer[at + b] := bytes[b];
      }
      assert buffer[at..Off(o, i + 1)] == bytes;
      forall j | 0 <= j < 16 && j != i ensures WordAt(j) == old(WordAt(j)) {
        OffStep(o, j);
        if j < i { OffOrder(o, j, i); } else { OffOrder(o, i, j); }
        assert buffer[Off(o, j)..Off(o, j + 1)] == old(buffer[Off(o, j)..Off(o, j + 1)]);
      }
    }

    /** The bytes of the block from word `j` on are still in `data`. */
    ghost predicate Unread(data: array<bv8>, off: nat, block: seq<bv8>, j: nat)
      reads data
    {
      && off + BlockLength(o) <= data.Length && |block| == BlockLength(o)
      && forall k :: Off(o, j) <= k < BlockLength(o) ==> data[off + k] == block[k]
    }

    /** Moves word `j` of the block into the schedule. `data` may be the buffer itself: the word that
        is overwritten is the one just read. */
    method TakeWord(data: array<bv8>, off: nat, j: nat, ghost block: seq<bv8>) returns (w: W)
      requires Shaped() && Lawful(o) && j < 16 && Unread(data, off, block, j) && (data == buffer ==> off == 0)
      modifies buffer
      ensures w == Schedule(o, block, j) && WordAt(j) == w
      ensures forall i :: 0 <= i < 16 && i != j ==> WordAt(i) == old(WordAt(i))
      ensures Unread(data, off, block, j + 1)
      ensures data == buffer || unchanged(data)
    {
      hide Lawful, WordAt;
      OffStep(o, j);
      w := o.loadBE(data[off + Off(o, j)..off + Off(o, j + 1)]);
      assert data[off + Off(o, j)..off + Off(o, j + 1)] == block[Off(o, j)..Off(o, j + 1)];
      StoreWord(j, w);
    }

    /** The message expansion in place: word `j` takes the slot of word `j - 16`. */
    method ExpandWord(j: nat, ghost ring: seq<W>, ghost block: seq<bv8>) returns (w: W)
      requires Shaped() && Lawful(o) && j >= 16 && |block| == BlockLength(o) && Ring(o, ring, block, j) && Holds(ring, 16)
      modifies buffer
      ensures w == Schedule(o, block, j) && Ring(o, ring[Slot(j) := w], block, j + 1) && Holds(ring[Slot(j) := w], 16)
    {
      hide Lawful, Schedule, WordAt;
      var s0 := WordAt(Slot(j + 1));
      s0 := o.sigma0(s0);
      var s1 := WordAt(Slot(j + 14));
      s1 := o.sigma1(s1);
      w := o.add(WordAt(Slot(j)), o.add(o.add(s1, WordAt(Slot(j + 9))), s0));
      RingStep(o, ring, block, j);
      hide Slot;
      StoreWord(Slot(j), w);
    }

    method AddState(r: Regs<W>)
      requires Shaped() && Lawful(o)
      modifies state
      ensures State() == AddRegs(o, old(State()), r)
    {
      hide Lawful;
      CommuteRegs(o, State(), r);
      state[0], state[1], state[2], state[3], state[4], state[5], state[6], state[7] :=
        o.add(state[0], r.a), o.add(state[1], r.b), o.add(state[2], r.c), o.add(state[3], r.d),
        o.add(state[4], r.e), o.add(state[5], r.f), o.add(state[6], r.g), o.add(state[7], r.h);
    }

    /** `j` words of the block are in the schedule, and `r` has seen them. */
    ghost predicate Loaded(data: array<bv8>, off: nat, init: Regs<W>, block: seq<bv8>, ring: seq<W>, j: nat, r: Regs<W>)
      reads this, data, buffer
      requires Shaped()
    {
      && j <= 16 && |ring| == 16 && |block| == BlockLength(o) && Unread(data, off, block, j)
      && Holds(ring, j) && (forall t :: 0 <= t < j ==> ring[t] == Schedule(o, block, t))
      && r == Rounds(o, init, block, j)
    }

    /** The schedule is at word `j`, and `r` has seen the words before it. */
    ghost predicate Turning(init: Regs<W>, block: seq<bv8>, ring: seq<W>, j: nat, r: Regs<W>)
      reads this, buffer
      requires Shaped()
    {
      |block| == BlockLength(o) && 16 <= j && Holds(ring, 16) && Ring(o, ring, block, j) && r == Rounds(o, init, block, j)
    }

    /** The start of rounds 0 to 15 of both forms. */
    method LoadRound(data: array<bv8>, off: nat, j: nat, ghost init: Regs<W>, ghost block: seq<bv8>, ghost ring0: seq<W>, ghost r: Regs<W>)
      returns (w: W, ghost ring: seq<W>)
      requires Shaped() && Lawful(o) && j < 16 && Loaded(data, off, init, block, ring0, j, r) && (data == buffer ==> off == 0)
      modifies buffer
      ensures Loaded(data, off, init, block, ring, j + 1, Round(o, r, o.k(j), w))
    {
      hide Lawful, Schedule, Round, WordAt, Unread;
      w := TakeWord(data, off, j, block);
      ring := ring0[j := w];
    }

    /** The start of the other rounds of both forms. */
    method TurnRound(j: nat, ghost init: Regs<W>, ghost block: seq<bv8>, ghost ring0: seq<W>, ghost r: Regs<W>)
      returns (w: W, ghost ring: seq<W>)
      requires Shaped() && Lawful(o) && Turning(init, block, ring0, j, r)
      modifies buffer
      ensures Turning(init, block, ring, j + 1, Round(o, r, o.k(j), w))
    {
      hide Lawful, Schedule, Round, WordAt;
      w := ExpandWord(j, ring0, block);
      ring := ring0[Slot(j) := w];
    }

    lemma AllLoaded(data: array<bv8>, off: nat, init: Regs<W>, block: seq<bv8>, ring: seq<W>, r: Regs<W>)
      requires Shaped() && Loaded(data, off, init, block, ring, 16, r)
      ensures Turning(init, block, ring, 16, r)
    {
      hide Schedule, WordAt, Rounds;
      FullRing(o, ring, block);
    }

    lemma NoneLoaded(data: array<bv8>, off: nat, init: Regs<W>, ring: seq<W>)
      requires Shaped() && off + BlockLength(o) <= data.Length && |ring| == 16
      ensures Loaded(data, off, init, data[off..off + BlockLength(o)], ring, 0, init)
    {
      OffStep(o, 0);
    }

    /** Rounds 0 to 15, which read the block. */
    method FirstRounds(data: array<bv8>, off: nat, init: Regs<W>, ghost block: seq<bv8>) returns (r: Regs<W>, ghost ring: seq<W>)
      requires Shaped() && Lawful(o) && off + BlockLength(o) <= data.Length && (data == buffer ==> off == 0)
      requires block == data[off..off + BlockLength(o)]
      modifies buffer
      ensures Turning(init, block, ring, 16, r)
    {
      hide Lawful, Round, Loaded, Turning;
      r := init;
      ring := seq(16, i => r.a);
      NoneLoaded(data, off, init, ring);
      var j := 0;
      while j < 16
        invariant 0 <= j <= 16 && Loaded(data, off, init, block, ring, j, r)
      {
        var w;
        w, ring := LoadRound(data, off, j, init, block, ring, r);
        r := PlainRound(r, j, w);
        j := j + 1;
      }
      AllLoaded(data, off, init, block, ring, r);
    }

    /** The other rounds, which use the circular schedule. */
    method OtherRounds(r0: Regs<W>, ghost init: Regs<W>, ghost ring0: seq<W>, ghost block: seq<bv8>) returns (r: Regs<W>)
      requires Shaped() && Lawful(o) && Turning(init, block, ring0, 16, r0)
      modifies buffer
      ensures |block| == BlockLength(o) && r == Rounds(o, init, block, o.rounds)
    {
      hide Lawful, Round, Turning;
      var _ := RoundsAtLeast16();
      ghost var ring := ring0;
      r := r0;
      var j := 16;
      while j < o.rounds
        invariant 16 <= j <= o.rounds && Turning(init, block, ring, j, r)
      {
        var w;
        w, ring := TurnRound(j, init, block, ring, r);
        r := PlainRound(r, j, w);
        j := j + 1;
      }
      AllTurned(init, block, ring, j, r);
    }

    lemma AllTurned(init: Regs<W>, block: seq<bv8>, ring: seq<W>, j: nat, r: Regs<W>)
      requires Shaped() && Turning(init, block, ring, j, r)
      ensures |block| == BlockLength(o) && r == Rounds(o, init, block, j)
    {
      hide Rounds;
    }

    /** The plain form. The buffer is used up, whether or not it held the block. */
    method Transform(data: array<bv8>, off: nat)
      requires Shaped() && Lawful(o) && off + BlockLength(o) <= data.Length && (data == buffer ==> off == 0)
      requires (data as object) != (state as object)
      modifies state, buffer
      ensures State() == Compress(o, old(State()), old(data[off..off + BlockLength(o)]))
    {
      hide Lawful, Rounds, Turning;
      ghost var block := data[off..off + BlockLength(o)];
      var init := Regs(state[0], state[1], state[2], state[3], state[4], state[5], state[6], state[7]);
      var r, ring := FirstRounds(data, off, init, block);
      r := OtherRounds(r, init, ring, block);
      AddState(r);
    }

    // ----- the unrolled form --------------------------------------------------

    /** One use of ROUND_0_TO_15: of its eight registers only the fourth and the last change. */
    method LoadMacro(data: array<bv8>, off: nat, j: nat, a: W, b: W, c: W, d: W, e: W, f: W, g: W, h: W,
                     ghost init: Regs<W>, ghost block: seq<bv8>, ghost ring0: seq<W>)
      returns (d': W, h': W, ghost ring: seq<W>)
      requires Shaped() && Lawful(o) && j < 16 && (data == buffer ==> off == 0)
      requires Loaded(data, off, init, block, ring0, j, Regs(a, b, c, d, e, f, g, h))
      modifies buffer
      ensures Loaded(data, off, init, block, ring, j + 1, Regs(h', a, b, c, d', e, f, g))
    {
      hide Lawful, Round, Loaded;
      ghost var r := Regs(a, b, c, d, e, f, g, h);
      var w;
      w, ring := LoadRound(data, off, j, init, block, ring0, r);
      d', h' := UseMacro(a, b, c, d, e, f, g, h, j, w);
      MacroIsRound(o, r, o.k(j), w);
    }

    /** One use of ROUND. */
    method TurnMacro(j: nat, a: W, b: W, c: W, d: W, e: W, f: W, g: W, h: W,
                     ghost init: Regs<W>, ghost block: seq<bv8>, ghost ring0: seq<W>)
      returns (d': W, h': W, ghost ring: seq<W>)
      requires Shaped() && Lawful(o) && Turning(init, block, ring0, j, Regs(a, b, c, d, e, f, g, h))
      modifies buffer
      ensures Turning(init, block, ring, j + 1, Regs(h', a, b, c, d', e, f, g))
    {
      hide Lawful, Round, Turning;
      ghost var r := Regs(a, b, c, d, e, f, g, h);
      var w;
      w, ring := TurnRound(j, init, block, ring0, r);
      d', h' := UseMacro(a, b, c, d, e, f, g, h, j, w);
      MacroIsRound(o, r, o.k(j), w);
    }

    method UseMacro(a: W, b: W, c: W, d: W, e: W, f: W, g: W, h: W, j: nat, w: W) returns (d': W, h': W)
      ensures (d', h') == Macro(o, Regs(a, b, c, d, e, f, g, h), o.k(j), w)
    {
      var t1 := o.add(o.add(o.add(o.add(h, o.bigSigma1(e)), o.ch(e, f, g)), o.k(j)), w);
      d' := o.add(d, t1);
      h' := o.add(o.add(t1, o.bigSigma0(a)), o.maj(a, b, c));
    }

    /** Half a turn of the first unrolled loop: the other half is the same with the registers four places on. */
    method FourLoads(data: array<bv8>, off: nat, j: nat, a0: W, b0: W, c0: W, d0: W, e0: W, f0: W, g0: W, h0: W,
                     ghost init: Regs<W>, ghost block: seq<bv8>, ghost ring0: seq<W>)
      returns (a: W, b: W, c: W, d: W, e: W, f: W, g: W, h: W, ghost ring: seq<W>)
      requires Shaped() && Lawful(o) && j + 4 <= 16 && (data == buffer ==> off == 0)
      requires Loaded(data, off, init, block, ring0, j, Regs(a0, b0, c0, d0, e0, f0, g0, h0))
      modifies buffer
      ensures Loaded(data, off, init, block, ring, j + 4, Regs(e, f, g, h, a, b, c, d))
    {
      hide Lawful, Loaded;
      a, b, c, d, e, f, g, h := a0, b0, c0, d0, e0, f0, g0, h0;
      d, h, ring := LoadMacro(data, off, j, a, b, c, d, e, f, g, h, init, block, ring0);
      c, g, ring := LoadMacro(data, off, j + 1, h, a, b, c, d, e, f, g, init, block, ring);
      b, f, ring := LoadMacro(data, off, j + 2, g, h, a, b, c, d, e, f, init, block, ring);
      a, e, ring := LoadMacro(data, off, j + 3, f, g, h, a, b, c, d, e, init, block, ring);
    }

    /** Half a turn of the second unrolled loop. */
    method FourTurns(j: nat, a0: W, b0: W, c0: W, d0: W, e0: W, f0: W, g0: W, h0: W,
                     ghost init: Regs<W>, ghost block: seq<bv8>, ghost ring0: seq<W>)
      returns (a: W, b: W, c: W, d: W, e: W, f: W, g: W, h: W, ghost ring: seq<W>)
      requires Shaped() && Lawful(o) && Turning(init, block, ring0, j, Regs(a0, b0, c0, d0, e0, f0, g0, h0))
      modifies buffer
      ensures Turning(init, block, ring, j + 4, Regs(e, f, g, h, a, b, c, d))
    {
      hide Lawful, Turning;
      a, b, c, d, e, f, g, h := a0, b0, c0, d0, e0, f0, g0, h0;
      d, h, ring := TurnMacro(j, a, b, c, d, e, f, g, h, init, block, ring0);
      c, g, ring := TurnMacro(j + 1, h, a, b, c, d, e, f, g, init, block, ring);
      b, f, ring := TurnMacro(j + 2, g, h, a, b, c, d, e, f, init, block, ring);
      a, e, ring := TurnMacro(j + 3, f, g, h, a, b, c, d, e, init, block, ring);
    }

    /** The first two turns of the unrolled loop. */
    method FirstUnrolled(data: array<bv8>, off: nat, init: Regs<W>, ghost block: seq<bv8>) returns (r: Regs<W>, ghost ring: seq<W>)
      requires Shaped() && Lawful(o) && off + BlockLength(o) <= data.Length && (data == buffer ==> off == 0)
      requires block == data[off..off + BlockLength(o)]
      modifies buffer
      ensures Turning(init, block, ring, 16, r)
    {
      hide Lawful, Loaded, Turning;
      var Regs(a, b, c, d, e, f, g, h) := init;
      ring := seq(16, i => a);
      NoneLoaded(data, off, init, ring);
      var j := 0;
      while j < 16
        invariant (j == 0 || j == 8 || j == 16) && Loaded(data, off, init, block, ring, j, Regs(a, b, c, d, e, f, g, h))
      {
        a, b, c, d, e, f, g, h, ring := FourLoads(data, off, j, a, b, c, d, e, f, g, h, init, block, ring);
        e, f, g, h, a, b, c, d, ring := FourLoads(data, off, j + 4, e, f, g, h, a, b, c, d, init, block, ring);
        j := j + 8;
      }
      r := Regs(a, b, c, d, e, f, g, h);
      AllLoaded(data, off, init, block, ring, r);
    }

    method OtherUnrolled(r0: Regs<W>, ghost init: Regs<W>, ghost ring0: seq<W>, ghost block: seq<bv8>) returns (r: Regs<W>)
      requires Shaped() && Lawful(o) && Turning(init, block, ring0, 16, r0)
      modifies buffer
      ensures |block| == BlockLength(o) && r == Rounds(o, init, block, o.rounds)
    {
      hide Lawful, Turning, Rounds;
      ghost var left := RoundsAtLeast16();
      var Regs(a, b, c, d, e, f, g, h) := r0;
      ghost var ring := ring0;
      var j := 16;
      while j < o.rounds
        invariant 16 <= j && j + 8 * left == o.rounds && left >= 0 && Turning(init, block, ring, j, Regs(a, b, c, d, e, f, g, h))
      {
        a, b, c, d, e, f, g, h, ring := FourTurns(j, a, b, c, d, e, f, g, h, init, block, ring);
        e, f, g, h, a, b, c, d, ring := FourTurns(j + 4, e, f, g, h, a, b, c, d, init, block, ring);
        j, left := j + 8, left - 1;
      }
      assert j == o.rounds;
      r := Regs(a, b, c, d, e, f, g, h);
      AllTurned(init, block, ring, j, r);
    }

    /** The unrolled form, to the same contract as the plain one. */
    method TransformUnrolled(data: array<bv8>, off: nat)
      requires Shaped() && Lawful(o) && off + BlockLength(o) <= data.Length && (data == buffer ==> off == 0)
      requires (data as object) != (state as object)
      modifies state, buffer
      ensures State() == Compress(o, old(State()), old(data[off..off + BlockLength(o)]))
    {
      hide Lawful, Rounds, Turning;
      ghost var block := data[off..off + BlockLength(o)];
      var init := Regs(state[0], state[1], state[2], state[3], state[4], state[5], state[6], state[7]);
      var r, ring := FirstUnrolled(data, off, init, block);
      r := OtherUnrolled(r, init, ring, block);
      AddState(r);
    }

    lemma RoundsAtLeast16() returns (turns: nat)
      requires Lawful(o)
      ensures o.rounds == 16 + 8 * turns
    {
      turns := (o.rounds - 16) / 8;
    }

    /** The assignments of the plain form. */
    method PlainRound(r: Regs<W>, j: nat, w: W) returns (next: Regs<W>)
      ensures next == Round(o, r, o.k(j), w)
    {
      var Regs(a, b, c, d, e, f, g, h) := r;
      var t1 := o.add(o.add(o.add(o.add(h, o.bigSigma1(e)), o.ch(e, f, g)), o.k(j)), w);
      var t2 := o.add(o.bigSigma0(a), o.maj(a, b, c));
      h := g;
      g := f;
      f := e;
      e := o.add(d, t1);
      d := c;
      c := b;
      b := a;
      a := o.add(t1, t2);
      next := Regs(a, b, c, d, e, f, g, h);
    }
  }

  lemma CommuteRegs<W(!new)>(o: Ops<W>, h: Regs<W>, r: Regs<W>)
    requires Lawful(o)
    ensures AddRegs(o, h, r) == Regs(o.add(h.a, r.a), o.add(h.b, r.b), o.add(h.c, r.c), o.add(h.d, r.d),
      o.add(h.e, r.e), o.add(h.f, r.f), o.add(h.g, r.g), o.add(h.h, r.h))
  {
    hide Lawful;
    Commutes(o, h.a, r.a);
    Commutes(o, h.b, r.b);
    Commutes(o, h.c, r.c);
    Commutes(o, h.d, r.d);
    Commutes(o, h.e, r.e);
    Commutes(o, h.f, r.f);
    Commutes(o, h.g, r.g);
    Commutes(o, h.h, r.h);
  }

  lemma FullRing<W>(o: Ops<W>, ring: seq<W>, block: seq<bv8>)
    requires |ring| == 16 && |block| == BlockLength(o) && forall t :: 0 <= t < 16 ==> ring[t] == Schedule(o, block, t)
    ensures Ring(o, ring, block, 16)
  {
    hide Schedule;
    assert forall t :: 0 <= t < 16 ==> Slot(t) == t;
  }
}
