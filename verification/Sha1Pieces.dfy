/** hashes.sha1 fed in pieces (Lua/sha1.c:124-206). An update overwrites the Lua string that it is given,
    so a string that is given twice need not be the same string the second time. */
module Sha1Pieces {
  import opened BlockHash
  import opened Sha1
  import opened Sha1Code
  import opened Sha2Words

  predicate Within(uses: seq<nat>, n: nat) {
    forall i :: 0 <= i < |uses| ==> uses[i] < n
  }

  /** The strings that `uses` names, one after the other. */
  function Joined(strings: seq<seq<bv8>>, uses: seq<nat>): seq<bv8>
    requires Within(uses, |strings|)
  {
    if uses == [] then [] else strings[uses[0]] + Joined(strings, uses[1..])
  }

  /** The message that is hashed: each update reads a string as the updates before have left it. */
  function Fed(strings: seq<seq<bv8>>, uses: seq<nat>, m: seq<bv8>): seq<bv8>
    requires Within(uses, |strings|)
    decreases |uses|
  {
    if uses == [] then m
    else
      var d := strings[uses[0]];
      Fed(strings[uses[0] := AfterUpdate(|m| % BLOCK, d)], uses[1..], m + d)
  }

  /** Only updates that leave their string as it is are followed by another one with the same string.
      `n` bytes have gone before. */
  predicate NoneSpoilt(strings: seq<seq<bv8>>, uses: seq<nat>, n: nat)
    requires Within(uses, |strings|)
    decreases |uses|
  {
    uses == [] ||
    var d := strings[uses[0]];
    (uses[0] in uses[1..] ==> AfterUpdate(n % BLOCK, d) == d) && NoneSpoilt(strings, uses[1..], n + |d|)
  }

  // ----- blocks that survive ------------------------------------------------

  function ZeroBytes(n: nat): (s: seq<bv8>)
    ensures |s| == n
  {
    seq(n, _ => 0)
  }

  /** All whole blocks are zero. */
  predicate ZeroBlocks(d: seq<bv8>)
    decreases |d|
  {
    |d| < BLOCK || (d[..BLOCK] == ZeroBytes(BLOCK) && ZeroBlocks(d[BLOCK..]))
  }

  lemma ZeroLoaded(s: seq<bv8>)
    requires |s| == 4 && forall k :: 0 <= k < 4 ==> s[k] == 0
    ensures LoadBE32(s) == 0
  {
  }

  lemma MixZeros()
    ensures Mix(0, 0, 0, 0) == 0
  {
  }

  lemma {:induction false} ZeroSchedule(t: nat)
    ensures Schedule1(ZeroBytes(BLOCK), t) == 0
    decreases t
  {
    hide Mix, LoadBE32;
    if t < 16 {
      ZeroLoaded(ZeroBytes(BLOCK)[4 * t..4 * t + 4]);
    } else {
      ZeroSchedule(t - 3);
      ZeroSchedule(t - 8);
      ZeroSchedule(t - 14);
      ZeroSchedule(t - 16);
      MixZeros();
    }
  }

  lemma {:induction false} ZeroLastWords(i: nat)
    requires i <= 16
    ensures LastWords(ZeroBytes(BLOCK), i) == ZeroBytes(4 * (16 - i))
    decreases 16 - i
  {
    hide Schedule1, StoreNative32;
    if i < 16 {
      ZeroSchedule(64 + i);
      ZeroStored();
      ZeroLastWords(i + 1);
      assert [0, 0, 0, 0] + ZeroBytes(4 * (15 - i)) == ZeroBytes(4 * (16 - i));
    }
  }

  lemma {:induction false} ZeroBlocksSurvive(d: seq<bv8>)
    requires ZeroBlocks(d)
    ensures Overwritten(d) == d
    decreases |d|
  {
    hide LastWords;
    if |d| >= BLOCK {
      ZeroLastWords(0);
      ZeroBlocksSurvive(d[BLOCK..]);
    }
  }

  /** An update leaves a string as it is whose whole blocks behind the first one are zero. */
  lemma ZerosAreKept(j: nat, d: seq<bv8>)
    requires j < BLOCK && (j + |d| >= BLOCK ==> ZeroBlocks(d[BLOCK - j..]))
    ensures AfterUpdate(j, d) == d
  {
    hide Overwritten, ZeroBlocks;
    if j + |d| >= BLOCK {
      ZeroBlocksSurvive(d[BLOCK - j..]);
      assert d == d[..BLOCK - j] + d[BLOCK - j..];
    }
  }

  /** A string that is used again fills no whole block behind the first one, or only with zeros. */
  predicate NoneReused(strings: seq<seq<bv8>>, uses: seq<nat>, n: nat)
    requires Within(uses, |strings|)
    decreases |uses|
  {
    uses == [] ||
    var d, j := strings[uses[0]], n % BLOCK;
    (uses[0] in uses[1..] && j + |d| >= BLOCK ==> ZeroBlocks(d[BLOCK - j..])) && NoneReused(strings, uses[1..], n + |d|)
  }

  lemma {:induction false} NoneReusedIsUnspoilt(strings: seq<seq<bv8>>, uses: seq<nat>, n: nat)
    requires Within(uses, |strings|) && NoneReused(strings, uses, n)
    ensures NoneSpoilt(strings, uses, n)
    decreases |uses|
  {
    hide AfterUpdate, ZeroBlocks;
    if uses != [] {
      var d := strings[uses[0]];
      var j := n % BLOCK;
      if uses[0] in uses[1..] { ZerosAreKept(j, d); }
      NoneReusedIsUnspoilt(strings, uses[1..], n + |d|);
    }
  }

  /** A string that does not reach into a second block has no such block. */
  lemma ShortHasNoBlocks(d: seq<bv8>, j: nat)
    requires j < BLOCK <= j + |d| < 2 * BLOCK
    ensures ZeroBlocks(d[BLOCK - j..])
  {
  }

  /** A string that is not used any more does not matter. */
  lemma {:induction false} UnusedDoesNotMatter(strings: seq<seq<bv8>>, uses: seq<nat>, m: seq<bv8>, u: nat, s: seq<bv8>)
    requires Within(uses, |strings|) && u < |strings| && u !in uses
    ensures Fed(strings[u := s], uses, m) == Fed(strings, uses, m)
    decreases |uses|
  {
    hide AfterUpdate;
    if uses != [] {
      var d := strings[uses[0]];
      var next := strings[uses[0] := AfterUpdate(|m| % BLOCK, d)];
      assert strings[u := s][uses[0] := AfterUpdate(|m| % BLOCK, d)] == next[u := s];
      UnusedDoesNotMatter(next, uses[1..], m + d, u, s);
    }
  }

  lemma {:induction false} FedStarts(strings: seq<seq<bv8>>, uses: seq<nat>, m: seq<bv8>)
    requires Within(uses, |strings|)
    ensures m <= Fed(strings, uses, m)
    decreases |uses|
  {
    hide AfterUpdate;
    if uses != [] {
      var d := strings[uses[0]];
      FedStarts(strings[uses[0] := AfterUpdate(|m| % BLOCK, d)], uses[1..], m + d);
      assert m <= m + d;
    }
  }

  /** A string that has changed and is used spoils the message. */
  lemma {:induction false} SpoiltIsDifferent(strings: seq<seq<bv8>>, now: seq<seq<bv8>>, uses: seq<nat>, m: seq<bv8>, u: nat)
    requires |now| == |strings| && (forall v :: 0 <= v < |now| ==> |now[v]| == |strings[v]|) && Within(uses, |strings|)
    requires u in uses && now[u] != strings[u]
    ensures Fed(now, uses, m) != m + Joined(strings, uses)
    decreases |uses|
  {
    hide AfterUpdate;
    var v := uses[0];
    var next := now[v := AfterUpdate(|m| % BLOCK, now[v])];
    var rest := Joined(strings, uses[1..]);
    if now[v] == strings[v] {
      SpoiltIsDifferent(strings, next, uses[1..], m + now[v], u);
      assert m + (now[v] + rest) == m + now[v] + rest;
    } else {
      FedStarts(next, uses[1..], m + now[v]);
      var k := DifferAt(now[v], strings[v]);
      assert (m + now[v])[|m| + k] != (m + (strings[v] + rest))[|m| + k];
    }
  }

  lemma DifferAt(x: seq<bv8>, y: seq<bv8>) returns (k: nat)
    requires |x| == |y| && x != y
    ensures k < |x| && x[k] != y[k]
  {
    k :| 0 <= k < |x| && x[k] != y[k];
  }

  /** The message is the strings as they were if and only if no update spoils a string that is used again. */
  lemma {:induction false} FedIsJoinedIff(strings: seq<seq<bv8>>, uses: seq<nat>, m: seq<bv8>)
    requires Within(uses, |strings|)
    ensures Fed(strings, uses, m) == m + Joined(strings, uses) <==> NoneSpoilt(strings, uses, |m|)
    decreases |uses|
  {
    hide AfterUpdate;
    if uses == [] {
      assert m + [] == m;
    } else {
      var u, rest := uses[0], uses[1..];
      var d := strings[u];
      var after := AfterUpdate(|m| % BLOCK, d);
      assert m + (d + Joined(strings, rest)) == m + d + Joined(strings, rest);
      FedIsJoinedIff(strings, rest, m + d);
      if after == d {
        assert strings[u := after] == strings;
      } else if u in rest {
        SpoiltIsDifferent(strings, strings[u := after], rest, m + d, u);
      } else {
        UnusedDoesNotMatter(strings, rest, m + d, u, after);
      }
    }
  }

  // ----- a string that does not survive -------------------------------------

  /** The words of the schedule of a block of ones that are ones again. */
  predicate IsOnes(t: nat) {
    t < 16 || 19 <= t <= 21 || t == 24 || 28 <= t <= 30 || t == 34 || t == 37 || t == 43 || t == 48 || 50 <= t <= 51
    || t == 54 || t == 56 || 58 <= t <= 59 || 61 <= t <= 62
  }

  lemma OnesRecur(t: nat)
    requires 16 <= t <= 64
    ensures IsOnes(t) <==> (((IsOnes(t - 3) != IsOnes(t - 8)) != IsOnes(t - 14)) != IsOnes(t - 16))
  {
  }

  function Ones(b: bool): bv32 { if b then 0xFFFF_FFFF else 0 }

  lemma MixOnes(a: bool, b: bool, c: bool, d: bool)
    ensures Mix(Ones(a), Ones(b), Ones(c), Ones(d)) == Ones(((a != b) != c) != d)
  {
  }

  function OnesString(n: nat): (s: seq<bv8>)
    ensures |s| == n
  {
    seq(n, _ => 0xFF)
  }

  lemma OnesLoaded(s: seq<bv8>)
    requires |s| == 4 && forall k :: 0 <= k < 4 ==> s[k] == 0xFF
    ensures LoadBE32(s) == Ones(true)
  {
  }

  lemma {:induction false} OnesSchedule(t: nat)
    requires t <= 64
    ensures Schedule1(OnesString(BLOCK), t) == Ones(IsOnes(t))
    decreases t
  {
    hide Mix, Ones, IsOnes, LoadBE32;
    if t < 16 {
      OnesLoaded(OnesString(BLOCK)[4 * t..4 * t + 4]);
      FirstWordsAreOnes(t);
    } else {
      OnesSchedule(t - 3);
      OnesSchedule(t - 8);
      OnesSchedule(t - 14);
      OnesSchedule(t - 16);
      MixOnes(IsOnes(t - 3), IsOnes(t - 8), IsOnes(t - 14), IsOnes(t - 16));
      OnesRecur(t);
    }
  }

  lemma FirstWordsAreOnes(t: nat)
    requires t < 16
    ensures IsOnes(t)
  {
  }

  lemma ZeroStored()
    ensures StoreNative32(0) == [0, 0, 0, 0]
  {
  }

  /** The same 128 bytes of ones given twice: the second time they are other bytes. */
  lemma ReusedStringIsSpoilt()
    ensures var s := OnesString(2 * BLOCK);
      && Joined([s], [0, 0]) == s + s
      && Fed([s], [0, 0], []) == s + AfterUpdate(0, s) != s + s
  {
    hide Schedule1, LastWords, StoreNative32;
    var s := OnesString(2 * BLOCK);
    var after := AfterUpdate(0, s);
    assert s[BLOCK..][..BLOCK] == OnesString(BLOCK);
    OnesSchedule(64);
    FirstOfLastWords(OnesString(BLOCK));
    ZeroStored();
    assert after[BLOCK] == 0 != s[BLOCK];
    UsedTwice(s, after);
    assert (s + after)[|s| + BLOCK] != (s + s)[|s| + BLOCK];
  }

  lemma FirstOfLastWords(block: seq<bv8>)
    requires |block| == BLOCK
    ensures LastWords(block, 0)[..4] == StoreNative32(Schedule1(block, 64))
  {
    hide Schedule1;
  }

  lemma UsedTwice(s: seq<bv8>, after: seq<bv8>)
    requires |s| == 2 * BLOCK && after == AfterUpdate(0, s)
    ensures Joined([s], [0, 0]) == s + s && Fed([s], [0, 0], []) == s + after
  {
    hide AfterUpdate;
    assert [0, 0][1..] == [0] && [0][1..] == [];
    assert Joined([s], []) == [];
    assert Joined([s], [0]) == s + [];
    assert [] + s == s;
    var later := AfterUpdate(|s| % BLOCK, after);
    assert [s][0 := after] == [after] && [after][0 := later] == [later];
    assert Fed([later], [], s + after) == s + after;
    assert Fed([after], [0], s) == s + after;
  }

  // ----- the library --------------------------------------------------------

  function Contents(strings: seq<array<bv8>>): (s: seq<seq<bv8>>)
    reads strings
    ensures |s| == |strings| && forall i :: 0 <= i < |s| ==> s[i] == strings[i][..]
    decreases |strings|
  {
    if strings == [] then [] else Contents(strings[..|strings| - 1]) + [strings[|strings| - 1][..]]
  }

  predicate Distinct(strings: seq<array<bv8>>) {
    forall i, j :: 0 <= i < j < |strings| ==> strings[i] != strings[j]
  }

  lemma FedNext(strings: seq<seq<bv8>>, uses: seq<nat>, k: nat, m: seq<bv8>)
    requires Within(uses, |strings|) && k < |uses|
    ensures Within(uses[k..], |strings|) && Within(uses[k + 1..], |strings|)
    ensures var d := strings[uses[k]];
      Fed(strings, uses[k..], m) == Fed(strings[uses[k] := AfterUpdate(|m| % BLOCK, d)], uses[k + 1..], m + d)
  {
    hide AfterUpdate;
    assert uses[k..][0] == uses[k] && uses[k..][1..] == uses[k + 1..];
  }

  /** One update with one of the strings. */
  method FeedOne(ctx: Context, strings: seq<array<bv8>>, u: nat)
    requires Distinct(strings) && u < |strings| && strings[u].Length < 0x2000_0000
    requires ctx.Follows(ctx.message) && ctx.Counted() && ctx.buffer !in strings
    modifies ctx, ctx.state, ctx.buffer, strings[u]
    ensures ctx.Follows(ctx.message) && ctx.Counted() && ctx.message == old(ctx.message) + old(Contents(strings))[u]
    ensures Contents(strings) == old(Contents(strings))[u := AfterUpdate(old(|ctx.message|) % BLOCK, old(Contents(strings))[u])]
  {
    hide HashBlock, Keeps, AfterUpdate;
    CountStaysRightIff(ctx.count, |ctx.message|, strings[u].Length);
    ctx.Update(strings[u]);
  }

  /** One update for each use of a string, each string shorter than 2^29 bytes: the digest is that of the
      message which is fed. */
  method Sha1Of(strings: seq<array<bv8>>, uses: seq<nat>) returns (digest: seq<bv8>)
    requires Distinct(strings) && forall i :: 0 <= i < |strings| ==> strings[i].Length < 0x2000_0000
    requires Within(uses, |strings|)
    modifies strings
    ensures digest == Digest(Fed(old(Contents(strings)), uses, []))
    ensures NoneReused(old(Contents(strings)), uses, 0) ==> digest == Digest(Joined(old(Contents(strings)), uses))
  {
    hide Digest, DigestWith, HashBlock, Keeps, AfterUpdate, Fed, NoneSpoilt, NoneReused, Contents;
    ghost var before := Contents(strings);
    var ctx := new Context();
    assert uses[0..] == uses;
    for k := 0 to |uses|
      invariant fresh(ctx) && fresh(ctx.state) && fresh(ctx.buffer)
      invariant ctx.Follows(ctx.message) && ctx.Counted()
      invariant Within(uses[k..], |strings|) && Fed(Contents(strings), uses[k..], ctx.message) == Fed(before, uses, [])
    {
      FedNext(Contents(strings), uses, k, ctx.message);
      FeedOne(ctx, strings, uses[k]);
    }
    assert uses[|uses|..] == [];
    FedNothing(Contents(strings), ctx.message);
    digest := ctx.Final();
    JoinedIsFed(before, uses);
  }

  lemma JoinedIsFed(strings: seq<seq<bv8>>, uses: seq<nat>)
    requires Within(uses, |strings|)
    ensures NoneReused(strings, uses, 0) ==> Fed(strings, uses, []) == Joined(strings, uses)
  {
    hide Joined, Fed, NoneReused, NoneSpoilt;
    FedIsJoinedIff(strings, uses, []);
    if NoneReused(strings, uses, 0) { NoneReusedIsUnspoilt(strings, uses, 0); }
    assert [] + Joined(strings, uses) == Joined(strings, uses);
  }

  lemma FedNothing(strings: seq<seq<bv8>>, m: seq<bv8>)
    ensures Fed(strings, [], m) == m
  {
  }
}
