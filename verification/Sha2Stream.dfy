/** SHA256Update, SHA256Final and their 64-bit counterparts (Lua/sha2.c:453-560, 739-903): a message
    that comes in any pieces has the hash of section 6 of FIPS 180-4. */
module Sha2Stream {
  import opened Sha2
  import opened Sha2Count
  import opened Sha2Transform

  /** How much of a message of `n` bytes is in whole blocks. */
  function Whole<W>(o: Ops<W>, n: nat): (w: nat)
    ensures w <= n && w % BlockLength(o) == 0 && n - w == n % BlockLength(o)
  {
    n - n % BlockLength(o)
  }

  /** The state has absorbed the whole blocks of the message `m`, and the buffer holds the rest. */
  ghost predicate Holds<W(!new)>(ctx: Context<W>, initial: Regs<W>, m: seq<bv8>)
    reads ctx, ctx.state, ctx.buffer
  {
    && ctx.Shaped() && Lawful(ctx.o) && ctx.message == m
    && Counted(ctx.o.wide, ctx.bitcountLow, ctx.bitcountHigh, |m|)
    && ctx.State() == Absorb(ctx.o, initial, m[..Whole(ctx.o, |m|)])
    && ctx.buffer[..|m| % BlockLength(ctx.o)] == m[Whole(ctx.o, |m|)..]
  }

  /** SHA256Init and the like. */
  method Init<W(!new)>(o: Ops<W>, initial: seq<W>) returns (ctx: Context<W>)
    requires Lawful(o) && |initial| == 8
    ensures fresh(ctx) && fresh(ctx.state) && fresh(ctx.buffer) && ctx.o == o && Holds(ctx, FromWords(initial), [])
  {
    hide Lawful;
    ctx := new Context(o, initial);
    InitialState(ctx, initial);
  }

  function FromWords<W>(s: seq<W>): Regs<W>
    requires |s| == 8
  {
    Regs(s[0], s[1], s[2], s[3], s[4], s[5], s[6], s[7])
  }

  lemma InitialState<W(!new)>(ctx: Context<W>, initial: seq<W>)
    requires ctx.Shaped() && |initial| == 8 && ctx.state[..] == initial
    ensures ctx.State() == FromWords(initial)
  {
    assert forall i :: 0 <= i < 8 ==> ctx.state[i] == ctx.state[..][i];
  }

  lemma BlockAbsorbed<W>(o: Ops<W>, initial: Regs<W>, m: seq<bv8>, block: seq<bv8>)
    requires |m| % BlockLength(o) == 0 && |block| == BlockLength(o)
    ensures Absorb(o, initial, m + block) == Compress(o, Absorb(o, initial, m), block)
    ensures |m + block| % BlockLength(o) == 0
  {
    hide Compress, Absorb;
    AbsorbConcat(o, initial, m, block);
    AbsorbBlock(o, Absorb(o, initial, m), block);
  }

  /** bcopy behind the `used` bytes `s` of the buffer. */
  method Copy(data: array<bv8>, off: nat, buffer: array<bv8>, used: nat, n: nat, ghost s: seq<bv8>)
    requires data != buffer && off + n <= data.Length && used + n <= buffer.Length && buffer[..used] == s
    modifies buffer
    ensures buffer[..used + n] == s + data[off..off + n]
  {
    assert s + data[off..off] == s;
    for i := 0 to n
      invariant buffer[..used + i] == s + data[off..off + i]
    {
      ghost var before := buffer[..used + i];
      buffer[used + i] := data[off + i];
      assert buffer[..used + i] == before;
      assert buffer[..used + i + 1] == before + [data[off + i]];
      assert data[off..off + i + 1] == data[off..off + i] + [data[off + i]];
    }
  }

  method Count<W(!new)>(ctx: Context<W>, bytes: nat)
    requires Counted(ctx.o.wide, ctx.bitcountLow, ctx.bitcountHigh, |ctx.message|) && bytes < 0x1000
    modifies ctx`bitcountLow, ctx`bitcountHigh
    ensures Counted(ctx.o.wide, ctx.bitcountLow, ctx.bitcountHigh, |ctx.message| + bytes)
  {
    var low, high := AddCount(ctx.o.wide, ctx.bitcountLow, ctx.bitcountHigh, |ctx.message|, bytes);
    ctx.bitcountLow, ctx.bitcountHigh := low, high;
  }

  /** Nothing waits in the buffer. */
  ghost predicate AtBlock<W(!new)>(ctx: Context<W>, initial: Regs<W>, m: seq<bv8>)
    reads ctx, ctx.state, ctx.buffer
  {
    && ctx.Shaped() && Lawful(ctx.o) && ctx.message == m && |m| % BlockLength(ctx.o) == 0
    && Counted(ctx.o.wide, ctx.bitcountLow, ctx.bitcountHigh, |m|)
    && ctx.State() == Absorb(ctx.o, initial, m)
  }

  lemma AtBlockHolds<W(!new)>(ctx: Context<W>, initial: Regs<W>, m: seq<bv8>)
    requires AtBlock(ctx, initial, m)
    ensures Holds(ctx, initial, m)
  {
    hide Lawful, Absorb;
    assert m[..Whole(ctx.o, |m|)] == m && m[Whole(ctx.o, |m|)..] == [];
  }

  /** The first part of an update, when the buffer gets full: the buffer itself is the block. */
  method FillBuffer<W(!new)>(ctx: Context<W>, data: array<bv8>, used: nat, ghost initial: Regs<W>, ghost m: seq<bv8>) returns (off: nat)
    requires Holds(ctx, initial, m) && used == |m| % BlockLength(ctx.o) > 0 && data.Length >= BlockLength(ctx.o) - used
    requires data != ctx.buffer && (data as object) != (ctx.state as object)
    modifies ctx, ctx.state, ctx.buffer
    ensures off == BlockLength(ctx.o) - used && AtBlock(ctx, initial, m + data[..off])
  {
    hide Lawful, Absorb, Compress, Counted, Whole, BlockLength;
    off := BlockLength(ctx.o) - used;
    ghost var w := Whole(ctx.o, |m|);
    ghost var d := data[..off];
    ghost var block := m[w..] + d;
    Cut(m, w, d);
    Copy(data, 0, ctx.buffer, used, off, m[w..]);
    assert data[0..off] == d;
    Count(ctx, off);
    ctx.message := m + d;
    AbsorbBuffer(ctx, initial, m[..w], block);
  }

  /** Hashes the full buffer. */
  method AbsorbBuffer<W(!new)>(ctx: Context<W>, ghost initial: Regs<W>, ghost whole: seq<bv8>, ghost block: seq<bv8>)
    requires ctx.Shaped() && Lawful(ctx.o) && |whole| % BlockLength(ctx.o) == 0 && ctx.State() == Absorb(ctx.o, initial, whole)
    requires ctx.buffer[..BlockLength(ctx.o)] == block
    modifies ctx.state, ctx.buffer
    ensures ctx.State() == Absorb(ctx.o, initial, whole + block) && |whole + block| % BlockLength(ctx.o) == 0
  {
    hide Lawful, Absorb, Compress;
    BlockAbsorbed(ctx.o, initial, whole, block);
    assert ctx.buffer[0..BlockLength(ctx.o)] == block;
    ctx.Transform(ctx.buffer, 0);
  }

  lemma Cut(m: seq<bv8>, w: nat, d: seq<bv8>)
    requires w <= |m|
    ensures m[..w] + (m[w..] + d) == m + d
  {
  }

  /** Data that does not fill the buffer. */
  method KeepRest<W(!new)>(ctx: Context<W>, data: array<bv8>, off: nat, used: nat, ghost initial: Regs<W>, ghost m: seq<bv8>)
    requires Holds(ctx, initial, m) && used == |m| % BlockLength(ctx.o) && off <= data.Length && data.Length - off < BlockLength(ctx.o) - used
    requires data != ctx.buffer && (data as object) != (ctx.state as object)
    modifies ctx, ctx.buffer
    ensures Holds(ctx, initial, m + data[off..])
  {
    hide Lawful, Absorb, Compress, Counted, Whole, BlockLength;
    ghost var w := Whole(ctx.o, |m|);
    var len := data.Length - off;
    RestGrows(ctx.o, m, data[off..]);
    Copy(data, off, ctx.buffer, used, len, m[w..]);
    assert data[off..off + len] == data[off..];
    Count(ctx, len);
    ctx.message := m + data[off..];
  }

  lemma RestGrows<W>(o: Ops<W>, m: seq<bv8>, d: seq<bv8>)
    requires |m| % BlockLength(o) + |d| < BlockLength(o)
    ensures var w := Whole(o, |m|);
      Whole(o, |m + d|) == w && |m + d| % BlockLength(o) == |m| % BlockLength(o) + |d| && (m + d)[..w] == m[..w] && (m + d)[w..] == m[w..] + d
  {
    SameWhole(o, |m|, |d|);
    hide Whole, BlockLength;
  }

  lemma SameWhole<W>(o: Ops<W>, n: nat, len: nat)
    requires n % BlockLength(o) + len < BlockLength(o)
    ensures Whole(o, n + len) == Whole(o, n) && (n + len) % BlockLength(o) == n % BlockLength(o) + len
  {
  }

  /** One whole block in the middle of an update. */
  method OneBlock<W(!new)>(ctx: Context<W>, data: array<bv8>, off: nat, ghost initial: Regs<W>, ghost m: seq<bv8>)
    requires off + BlockLength(ctx.o) <= data.Length && AtBlock(ctx, initial, m)
    requires data != ctx.buffer && (data as object) != (ctx.state as object)
    modifies ctx, ctx.state, ctx.buffer
    ensures AtBlock(ctx, initial, m + data[off..off + BlockLength(ctx.o)])
  {
    hide Lawful, Absorb, Compress, Counted;
    ghost var block := data[off..off + BlockLength(ctx.o)];
    BlockAbsorbed(ctx.o, initial, m, block);
    ctx.Transform(data, off);
    Count(ctx, BlockLength(ctx.o));
    ctx.message := m + block;
  }

  /** All whole blocks in the middle of an update. */
  method WholeBlocks<W(!new)>(ctx: Context<W>, data: array<bv8>, off0: nat, ghost initial: Regs<W>, ghost m: seq<bv8>) returns (off: nat)
    requires off0 <= data.Length && AtBlock(ctx, initial, m + data[..off0])
    requires data != ctx.buffer && (data as object) != (ctx.state as object)
    modifies ctx, ctx.state, ctx.buffer
    ensures off <= data.Length && data.Length - off < BlockLength(ctx.o) && AtBlock(ctx, initial, m + data[..off])
  {
    hide AtBlock;
    off := off0;
    while data.Length - off >= BlockLength(ctx.o)
      invariant off <= data.Length && AtBlock(ctx, initial, m + data[..off])
      decreases data.Length - off
    {
      OneBlock(ctx, data, off, initial, m + data[..off]);
      assert m + data[..off] + data[off..off + BlockLength(ctx.o)] == m + data[..off + BlockLength(ctx.o)];
      off := off + BlockLength(ctx.o);
    }
  }

  /** SHA256Update and SHA512Update. */
  method Update<W(!new)>(ctx: Context<W>, data: array<bv8>, ghost initial: Regs<W>)
    requires Holds(ctx, initial, ctx.message)
    requires data != ctx.buffer && (data as object) != (ctx.state as object)
    modifies ctx, ctx.state, ctx.buffer
    ensures Holds(ctx, initial, old(ctx.message) + data[..])
  {
    hide Holds, AtBlock;
    ghost var m := ctx.message;
    assert m + data[..0] == m && m + [] == m && data[..data.Length] == data[..];
    if data.Length == 0 { return; }
    HoldsCounted(ctx, initial, m);
    UsedSpace(ctx.o.wide, ctx.bitcountLow, ctx.bitcountHigh, |m|);
    var used := ctx.bitcountLow / 8 % BlockLength(ctx.o);
    var off := 0;
    if used > 0 {
      if data.Length >= BlockLength(ctx.o) - used {
        off := FillBuffer(ctx, data, used, initial, m);
      } else {
        KeepRest(ctx, data, 0, used, initial, m);
        assert data[0..] == data[..];
        return;
      }
    } else {
      HoldsAtBlock(ctx, initial, m);
    }
    off := WholeBlocks(ctx, data, off, initial, m);
    AtBlockHolds(ctx, initial, m + data[..off]);
    assert m + data[..off] + data[off..] == m + data[..];
    if data.Length - off > 0 {
      AtBlockLength(ctx, initial, m + data[..off]);
      KeepRest(ctx, data, off, 0, initial, m + data[..off]);
    } else {
      assert m + data[..off] == m + data[..];
    }
  }

  lemma HoldsCounted<W(!new)>(ctx: Context<W>, initial: Regs<W>, m: seq<bv8>)
    requires Holds(ctx, initial, m)
    ensures Counted(ctx.o.wide, ctx.bitcountLow, ctx.bitcountHigh, |m|)
  {
    hide Lawful, Absorb, Counted;
  }

  lemma HoldsAtBlock<W(!new)>(ctx: Context<W>, initial: Regs<W>, m: seq<bv8>)
    requires Holds(ctx, initial, m) && |m| % BlockLength(ctx.o) == 0
    ensures AtBlock(ctx, initial, m)
  {
    hide Lawful, Absorb, Counted;
    assert m[..Whole(ctx.o, |m|)] == m;
  }

  lemma AtBlockLength<W(!new)>(ctx: Context<W>, initial: Regs<W>, m: seq<bv8>)
    requires AtBlock(ctx, initial, m)
    ensures |m| % BlockLength(ctx.o) == 0
  {
    hide Lawful, Absorb, Counted;
  }

  // ----- the end of a message -----------------------------------------------

  /** What the last blocks hold in front of the length. */
  function Front<W>(o: Ops<W>, m: seq<bv8>): (f: seq<bv8>)
    ensures |f| == if |m| % BlockLength(o) + 1 <= ShortBlock(o) then ShortBlock(o) else BlockLength(o) + ShortBlock(o)
  {
    m[Whole(o, |m|)..] + [0x80] + Zeros(PadZeros(o, |m|))
  }

  /** What the last blocks hold behind the whole blocks of the message. */
  function Ending<W>(o: Ops<W>, m: seq<bv8>): (e: seq<bv8>)
    ensures |e| == |Front(o, m)| + BlockLength(o) - ShortBlock(o)
  {
    Front(o, m) + LengthBytes(o, |m|)
  }

  lemma PadIsEnding<W>(o: Ops<W>, m: seq<bv8>)
    ensures Pad(o, m) == m[..Whole(o, |m|)] + Ending(o, m)
  {
    hide LengthBytes, PadZeros, Whole, BlockLength;
    var w, z, l := Whole(o, |m|), Zeros(PadZeros(o, |m|)), LengthBytes(o, |m|);
    assert m == m[..w] + m[w..];
    Regroup(m[..w], m[w..], [0x80], z, l);
  }

  lemma Regroup(a: seq<bv8>, b: seq<bv8>, c: seq<bv8>, d: seq<bv8>, e: seq<bv8>)
    ensures a + b + c + d + e == a + (b + c + d + e)
  {
  }

  /** The last one or two blocks complete the padded message. */
  lemma EndingAbsorbed<W>(o: Ops<W>, initial: Regs<W>, m: seq<bv8>)
    ensures var h, e, n := Absorb(o, initial, m[..Whole(o, |m|)]), Ending(o, m), BlockLength(o);
      Absorb(o, initial, Pad(o, m)) == if |e| == n then Compress(o, h, e) else Compress(o, Compress(o, h, e[..n]), e[n..])
  {
    hide Compress, Absorb, Pad;
    var h, e, n := Absorb(o, initial, m[..Whole(o, |m|)]), Ending(o, m), BlockLength(o);
    PadIsEnding(o, m);
    AbsorbConcat(o, initial, m[..Whole(o, |m|)], e);
    if |e| == n {
      AbsorbBlock(o, h, e);
    } else {
      AbsorbConcat(o, h, e[..n], e[n..]);
      AbsorbBlock(o, h, e[..n]);
      AbsorbBlock(o, Compress(o, h, e[..n]), e[n..]);
      assert e[..n] + e[n..] == e;
    }
  }

  /** bzero. */
  method Zero(buffer: array<bv8>, from: nat, to: nat)
    requires from <= to <= buffer.Length
    modifies buffer
    ensures buffer[..to] == old(buffer[..from]) + Zeros(to - from)
  {
    for i := from to to
      invariant buffer[..i] == old(buffer[..from]) + Zeros(i - from)
    {
      ghost var before := buffer[..i];
      buffer[i] := 0;
      assert buffer[..i] == before && buffer[..i + 1] == before + [0];
      assert Zeros(i + 1 - from) == Zeros(i - from) + [0];
    }
  }

  /** A native store of a 64-bit word behind the bytes `s`. */
  method Store64(buffer: array<bv8>, at: nat, x: bv64, ghost s: seq<bv8>)
    requires at + 8 <= buffer.Length && buffer[..at] == s
    modifies buffer
    ensures buffer[..at + 8] == s + Native64(x)
  {
    hide Native64;
    var bytes := Native64(x);
    assert bytes[..0] == [] && s + [] == s;
    for i := 0 to 8
      invariant buffer[..at + i] == s + bytes[..i]
    {
      ghost var before := buffer[..at + i];
      buffer[at + i] := bytes[i];
      assert buffer[..at + i] == before && buffer[..at + i + 1] == before + [bytes[i]];
      assert bytes[..i + 1] == bytes[..i] + [bytes[i]];
    }
    assert bytes[..8] == bytes;
  }

  /** The bit count behind the short block. */
  method StoreLength<W(!new)>(ctx: Context<W>, low: bv64, high: bv64, ghost s: seq<bv8>, ghost n: nat)
    requires ctx.Shaped() && |s| == ShortBlock(ctx.o) && ctx.buffer[..ShortBlock(ctx.o)] == s
    requires low == Reverse64(Word64(8 * n)) && (ctx.o.wide ==> high == Reverse64(Word64(8 * n / TWO64)))
    modifies ctx.buffer
    ensures ctx.buffer[..BlockLength(ctx.o)] == s + LengthBytes(ctx.o, n)
  {
    hide Native64, Reverse64, Word64, Bytes64;
    ReversedIsBigEndian(Word64(8 * n));
    ReversedIsBigEndian(Word64(8 * n / TWO64));
    if ctx.o.wide {
      Store64(ctx.buffer, ShortBlock(ctx.o), high, s);
      Store64(ctx.buffer, ShortBlock(ctx.o) + 8, low, s + Native64(high));
      assert s + Native64(high) + Native64(low) == s + (Native64(high) + Native64(low));
    } else {
      Store64(ctx.buffer, ShortBlock(ctx.o), low, s);
    }
  }

  lemma CountWord(wide: bool, low: nat, high: nat, n: nat)
    requires Counted(wide, low, high, n)
    ensures Word64(low) == Word64(8 * n) && (wide ==> Word64(high) == Word64(8 * n / TWO64))
  {
  }

  /** The padding in front of the length: in the same block when it fits, else the block is hashed and
      another one is started. */
  method PrepareLast<W(!new)>(ctx: Context<W>, used0: nat, ghost m: seq<bv8>)
    requires ctx.Shaped() && Lawful(ctx.o) && used0 == |m| % BlockLength(ctx.o) && ctx.buffer[..used0] == m[Whole(ctx.o, |m|)..]
    modifies ctx.state, ctx.buffer
    ensures var f, short := Front(ctx.o, m), ShortBlock(ctx.o);
      && ctx.buffer[..short] == f[|f| - short..]
      && ctx.State() == if |f| == short then old(ctx.State()) else Compress(ctx.o, old(ctx.State()), f[..BlockLength(ctx.o)])
  {
    hide Lawful, Compress, Whole;
    var n, short := BlockLength(ctx.o), ShortBlock(ctx.o);
    ghost var rest := m[Whole(ctx.o, |m|)..];
    ghost var f := Front(ctx.o, m);
    var used := used0;
    if used > 0 {
      MarkEnd(ctx.buffer, used, rest);
      used := used + 1;
      if used <= short {
        Zero(ctx.buffer, used, short);
        assert f[|f| - short..] == f;
      } else {
        AnotherBlock(ctx, used, rest + [0x80]);
        SplitZeros(rest + [0x80], n - used, short);
      }
    } else {
      MarkStart(ctx.buffer, short);
      assert rest == [] && f[|f| - short..] == f;
    }
  }

  /** No room for the length: this block is filled up with zeros and hashed, and the next one starts with zeros. */
  method AnotherBlock<W(!new)>(ctx: Context<W>, used: nat, ghost s: seq<bv8>)
    requires ctx.Shaped() && Lawful(ctx.o) && ShortBlock(ctx.o) < used <= BlockLength(ctx.o) && ctx.buffer[..used] == s
    modifies ctx.state, ctx.buffer
    ensures ctx.buffer[..ShortBlock(ctx.o)] == Zeros(ShortBlock(ctx.o))
    ensures ctx.State() == Compress(ctx.o, old(ctx.State()), s + Zeros(BlockLength(ctx.o) - used))
  {
    hide Lawful, Compress;
    var n, short := BlockLength(ctx.o), ShortBlock(ctx.o);
    if used < n { Zero(ctx.buffer, used, n); }
    assert ctx.buffer[0..n] == s + Zeros(n - used);
    ctx.Transform(ctx.buffer, 0);
    Zero(ctx.buffer, 0, if ctx.o.wide then n - 2 else short);
    AllZeros(ctx.buffer, if ctx.o.wide then n - 2 else short, short);
  }

  method MarkStart(buffer: array<bv8>, short: nat)
    requires 0 < short <= buffer.Length
    modifies buffer
    ensures buffer[..short] == [0x80] + Zeros(short - 1)
  {
    Zero(buffer, 0, short);
    assert forall k :: 0 <= k < short ==> buffer[..short][k] == 0;
    buffer[0] := 0x80;
  }

  method MarkEnd(buffer: array<bv8>, used: nat, ghost rest: seq<bv8>)
    requires used < buffer.Length && buffer[..used] == rest
    modifies buffer
    ensures buffer[..used + 1] == rest + [0x80]
  {
    buffer[used] := 0x80;
    assert buffer[..used] == rest;
  }

  lemma SplitZeros(s: seq<bv8>, a: nat, b: nat)
    ensures (s + Zeros(a + b))[..|s| + a] == s + Zeros(a) && (s + Zeros(a + b))[|s| + a..] == Zeros(b)
  {
  }

  lemma AllZeros(buffer: array<bv8>, n: nat, short: nat)
    requires short <= n <= buffer.Length && buffer[..n] == [] + Zeros(n)
    ensures buffer[..short] == Zeros(short)
  {
    assert buffer[..short] == buffer[..n][..short];
  }

  /** SHA512Last and the first part of SHA256Final. */
  method Last<W(!new)>(ctx: Context<W>, ghost initial: Regs<W>, ghost m: seq<bv8>)
    requires Holds(ctx, initial, m)
    modifies ctx.state, ctx.buffer
    ensures ctx.State() == Absorb(ctx.o, initial, Pad(ctx.o, m))
  {
    hide Lawful, Compress, Absorb, Counted, LengthBytes, Whole, Front, Pad, Word64, Reverse64;
    ghost var n, f, l := BlockLength(ctx.o), Front(ctx.o, m), LengthBytes(ctx.o, |m|);
    UsedSpace(ctx.o.wide, ctx.bitcountLow, ctx.bitcountHigh, |m|);
    CountWord(ctx.o.wide, ctx.bitcountLow, ctx.bitcountHigh, |m|);
    var used := ctx.bitcountLow / 8 % BlockLength(ctx.o);
    var low, high := Reverse64(Word64(ctx.bitcountLow)), Reverse64(Word64(ctx.bitcountHigh));
    PrepareLast(ctx, used, m);
    StoreLength(ctx, low, high, f[|f| - ShortBlock(ctx.o)..], |m|);
    assert ctx.buffer[0..n] == ctx.buffer[..n];
    ctx.Transform(ctx.buffer, 0);
    EndingAbsorbed(ctx.o, initial, m);
    EndingParts(f, l, n, ShortBlock(ctx.o));
  }

  lemma EndingParts(f: seq<bv8>, l: seq<bv8>, n: nat, short: nat)
    requires |l| == n - short && (|f| == short || |f| == n + short)
    ensures |f| == short ==> f[|f| - short..] + l == f + l
    ensures |f| == n + short ==> (f + l)[..n] == f[..n] && (f + l)[n..] == f[|f| - short..] + l
  {
  }

  /** SHA256Final, SHA512Final and SHA384Final, which give eight words or six. */
  method Final<W(!new)>(ctx: Context<W>, words: nat, ghost initial: Regs<W>) returns (digest: seq<bv8>)
    requires Holds(ctx, initial, ctx.message) && words <= 8
    modifies ctx.state, ctx.buffer
    ensures digest == Hash(ctx.o, initial, words, ctx.message)
  {
    hide Holds, Absorb, Pad;
    ghost var o, m := ctx.o, ctx.message;
    HoldsShape(ctx, initial, m);
    hide Lawful;
    Last(ctx, initial, m);
    ghost var all := Words(ctx.State());
    digest := [];
    assert all[..0] == [];
    for j := 0 to words
      invariant ctx.Shaped() && ctx.o == o && forall i :: j <= i < 8 ==> ctx.state[i] == all[i]
      invariant digest == BigEndian(o, all[..j])
    {
      StoredReverse(o, ctx.state[j]);
      BigEndianGrows(o, all[..j], all[j]);
      assert all[..j + 1] == all[..j] + [all[j]];
      ctx.state[j] := ctx.o.reverse(ctx.state[j]);
      digest := digest + ctx.o.storeNative(ctx.state[j]);
    }
  }

  lemma HoldsShape<W(!new)>(ctx: Context<W>, initial: Regs<W>, m: seq<bv8>)
    requires Holds(ctx, initial, m)
    ensures ctx.Shaped() && Lawful(ctx.o)
  {
    hide Lawful, Absorb, Counted;
  }

  lemma StoredReverse<W(!new)>(o: Ops<W>, w: W)
    requires Lawful(o)
    ensures o.storeNative(o.reverse(w)) == o.storeBE(w)
  {
  }

  lemma {:induction false} BigEndianGrows<W>(o: Ops<W>, s: seq<W>, w: W)
    ensures BigEndian(o, s + [w]) == BigEndian(o, s) + o.storeBE(w)
  {
    if s == [] {
      assert [w][1..] == [] && s + [w] == [w];
    } else {
      assert (s + [w])[1..] == s[1..] + [w];
      BigEndianGrows(o, s[1..], w);
    }
  }

  function Joined(pieces: seq<seq<bv8>>): seq<bv8> {
    if pieces == [] then [] else Joined(pieces[..|pieces| - 1]) + pieces[|pieces| - 1]
  }

  /** Init, one update for each piece, Final: however the message is cut, the result is its hash. */
  method HashOfPieces<W(!new)>(o: Ops<W>, initial: seq<W>, words: nat, pieces: seq<seq<bv8>>) returns (digest: seq<bv8>)
    requires Lawful(o) && |initial| == 8 && words <= 8
    ensures digest == Hash(o, FromWords(initial), words, Joined(pieces))
  {
    hide Lawful, Holds;
    var ctx := Init(o, initial);
    HoldsMessage(ctx, FromWords(initial), []);
    for i := 0 to |pieces|
      invariant fresh(ctx) && fresh(ctx.state) && fresh(ctx.buffer) && ctx.o == o
      invariant ctx.message == Joined(pieces[..i]) && Holds(ctx, FromWords(initial), ctx.message)
    {
      var data := new bv8[|pieces[i]|](k requires 0 <= k < |pieces[i]| => pieces[i][k]);
      assert data[..] == pieces[i];
      Update(ctx, data, FromWords(initial));
      HoldsMessage(ctx, FromWords(initial), Joined(pieces[..i]) + pieces[i]);
      assert pieces[..i + 1][..i] == pieces[..i];
    }
    assert pieces[..|pieces|] == pieces;
    digest := Final(ctx, words, FromWords(initial));
  }

  lemma HoldsMessage<W(!new)>(ctx: Context<W>, initial: Regs<W>, m: seq<bv8>)
    requires Holds(ctx, initial, m)
    ensures ctx.message == m
  {
    hide Lawful, Absorb, Counted;
  }
}
