/** Hashes of 64-byte blocks, as SHA-1 and MD5 are: section 5.1.1 of FIPS 180-4 and sections 3.1 to 3.4 of
    RFC 1321. */
module BlockHash {
  import opened Sha2

  const BLOCK := 64

  /** All whole blocks of the data. */
  function Absorbed<S>(f: (S, seq<bv8>) -> S, h: S, data: seq<bv8>): S
    decreases |data|
  {
    if |data| < BLOCK then h else Absorbed(f, f(h, data[..BLOCK]), data[BLOCK..])
  }

  lemma {:induction false} AbsorbedConcat<S>(f: (S, seq<bv8>) -> S, h: S, x: seq<bv8>, y: seq<bv8>)
    requires |x| % BLOCK == 0
    ensures Absorbed(f, h, x + y) == Absorbed(f, Absorbed(f, h, x), y)
    decreases |x|
  {
    if |x| == 0 {
      assert x + y == y;
    } else {
      assert (x + y)[..BLOCK] == x[..BLOCK] && (x + y)[BLOCK..] == x[BLOCK..] + y;
      AbsorbedConcat(f, f(h, x[..BLOCK]), x[BLOCK..], y);
    }
  }

  /** The next block of a message that is whole so far. */
  lemma AbsorbedNext<S>(f: (S, seq<bv8>) -> S, h: S, x: seq<bv8>, block: seq<bv8>)
    requires |x| % BLOCK == 0 && |block| == BLOCK
    ensures Absorbed(f, h, x + block) == f(Absorbed(f, h, x), block) && |x + block| % BLOCK == 0
  {
    AbsorbedConcat(f, h, x, block);
    assert block[..BLOCK] == block && block[BLOCK..] == [];
  }

  function WholeBlocks(n: nat): (w: nat)
    ensures w <= n && w % BLOCK == 0 && n - w == n % BLOCK
  {
    n - n % BLOCK
  }

  /** The least number of zero bytes that leaves room for eight bytes. */
  function ZeroPad(n: nat): (z: nat)
    ensures (n + 1 + z) % BLOCK == 56 && z < BLOCK
  {
    (119 - n % BLOCK) % BLOCK
  }

  function Padded(m: seq<bv8>, length: seq<bv8>): seq<bv8> {
    m + [0x80] + Zeros(ZeroPad(|m|)) + length
  }

  /** The bytes that wait in the buffer, read off the 64-bit counter of bits. */
  lemma Waiting(count: nat, n: nat)
    requires count == 8 * n % TWO64
    ensures count / 8 % BLOCK == n % BLOCK
  {
    var q := 8 * n / TWO64;
    var x := n - q * (TWO64 / 8);
    assert count == 8 * x && count / 8 == x;
    assert n == BLOCK * (q * (TWO64 / 512)) + x;
    SameRest(q * (TWO64 / 512), x);
  }

  lemma SameRest(y: nat, x: nat)
    ensures (BLOCK * y + x) % BLOCK == x % BLOCK
  {
    RestIs(BLOCK * y + x, y + x / BLOCK, x % BLOCK);
  }

  lemma RestIs(x: nat, q: nat, r: nat)
    requires x == BLOCK * q + r && r < BLOCK
    ensures x % BLOCK == r
  {
  }

  lemma CountMore(count: nat, n: nat, len: nat)
    requires count == 8 * n % TWO64
    ensures (count + 8 * len) % TWO64 == 8 * (n + len) % TWO64
  {
    var q := 8 * n / TWO64;
    assert 8 * (n + len) == q * TWO64 + (count + 8 * len);
    var k, r := (count + 8 * len) / TWO64, (count + 8 * len) % TWO64;
    RestOfCount(8 * (n + len), q + k, r);
  }

  lemma RestOfCount(x: nat, q: nat, r: nat)
    requires x == q * TWO64 + r && r < TWO64
    ensures x % TWO64 == r
  {
  }

  // ----- a context with a 64-byte buffer -------------------------------------

  /** `state` has absorbed the whole blocks of `m`, and the buffer starts with the rest. */
  ghost predicate Keeps<S>(f: (S, seq<bv8>) -> S, initial: S, state: S, buffer: seq<bv8>, m: seq<bv8>) {
    && |buffer| == BLOCK
    && state == Absorbed(f, initial, m[..WholeBlocks(|m|)])
    && buffer[..|m| % BLOCK] == m[WholeBlocks(|m|)..]
  }

  lemma NothingKept<S>(f: (S, seq<bv8>) -> S, initial: S, buffer: seq<bv8>)
    requires |buffer| == BLOCK
    ensures Keeps(f, initial, initial, buffer, [])
  {
  }

  /** Data that fits behind the rest. */
  lemma KeepsRest<S>(f: (S, seq<bv8>) -> S, initial: S, state: S, buffer: seq<bv8>, m: seq<bv8>, d: seq<bv8>, buffer': seq<bv8>)
    requires Keeps(f, initial, state, buffer, m) && |m| % BLOCK + |d| < BLOCK && |buffer'| == BLOCK
    requires buffer'[..|m| % BLOCK + |d|] == buffer[..|m| % BLOCK] + d
    ensures Keeps(f, initial, state, buffer', m + d)
  {
    hide Absorbed;
    var w := WholeBlocks(|m|);
    RestIs(|m| + |d|, w / BLOCK, |m| % BLOCK + |d|);
    assert WholeBlocks(|m + d|) == w;
    assert (m + d)[..w] == m[..w] && (m + d)[w..] == m[w..] + d;
  }

  /** At a block boundary the buffer does not matter. */
  ghost predicate AtBoundary<S>(f: (S, seq<bv8>) -> S, initial: S, state: S, m: seq<bv8>) {
    |m| % BLOCK == 0 && state == Absorbed(f, initial, m)
  }

  /** The block that the rest and the front of the data make up. */
  lemma FilledBlock<S>(f: (S, seq<bv8>) -> S, initial: S, state: S, buffer: seq<bv8>, m: seq<bv8>, d: seq<bv8>, block: seq<bv8>)
    requires Keeps(f, initial, state, buffer, m) && |m| % BLOCK + |d| == BLOCK && block == buffer[..|m| % BLOCK] + d
    ensures AtBoundary(f, initial, f(state, block), m + d)
  {
    hide Absorbed;
    var w := WholeBlocks(|m|);
    AbsorbedNext(f, initial, m[..w], block);
    assert m[..w] + block == m + d;
  }

  lemma BoundaryKeeps<S>(f: (S, seq<bv8>) -> S, initial: S, state: S, buffer: seq<bv8>, m: seq<bv8>)
    requires AtBoundary(f, initial, state, m) && |buffer| == BLOCK
    ensures Keeps(f, initial, state, buffer, m)
  {
    hide Absorbed;
    assert m[..WholeBlocks(|m|)] == m && m[WholeBlocks(|m|)..] == [];
  }

  lemma KeepsAtBoundary<S>(f: (S, seq<bv8>) -> S, initial: S, state: S, buffer: seq<bv8>, m: seq<bv8>)
    requires Keeps(f, initial, state, buffer, m) && |m| % BLOCK == 0
    ensures AtBoundary(f, initial, state, m)
  {
    hide Absorbed;
    assert m[..WholeBlocks(|m|)] == m;
  }

  /** Less than a block behind a boundary. */
  lemma RestAfterBoundary<S>(f: (S, seq<bv8>) -> S, initial: S, state: S, m: seq<bv8>, d: seq<bv8>, buffer: seq<bv8>)
    requires AtBoundary(f, initial, state, m) && |d| < BLOCK && |buffer| == BLOCK && buffer[..|d|] == d
    ensures Keeps(f, initial, state, buffer, m + d)
  {
    hide Absorbed, AtBoundary;
    AtBoundaryLength(f, initial, state, m);
    BoundaryKeeps(f, initial, state, buffer, m);
    hide Keeps;
    assert buffer[..0] + d == d;
    KeepsRest(f, initial, state, buffer, m, d, buffer);
  }

  lemma BoundaryState<S>(f: (S, seq<bv8>) -> S, initial: S, state: S, m: seq<bv8>)
    requires AtBoundary(f, initial, state, m)
    ensures state == Absorbed(f, initial, m)
  {
  }

  lemma AtBoundaryLength<S>(f: (S, seq<bv8>) -> S, initial: S, state: S, m: seq<bv8>)
    requires AtBoundary(f, initial, state, m)
    ensures |m| % BLOCK == 0
  {
  }

  /** One more block at a boundary. */
  lemma BlockAtBoundary<S>(f: (S, seq<bv8>) -> S, initial: S, state: S, m: seq<bv8>, block: seq<bv8>)
    requires AtBoundary(f, initial, state, m) && |block| == BLOCK
    ensures AtBoundary(f, initial, f(state, block), m + block)
  {
    hide Absorbed;
    AbsorbedNext(f, initial, m, block);
  }

  lemma SliceOfSlice(s: seq<bv8>, off: nat, n: nat, i: nat, j: nat)
    requires off + n <= |s| && i <= j <= n
    ensures s[off..off + n][i..j] == s[off + i..off + j]
  {
    var a, b := s[off..off + n][i..j], s[off + i..off + j];
    assert |a| == |b| && forall k :: 0 <= k < |a| ==> a[k] == b[k];
  }

  lemma PaddedIsWhole(m: seq<bv8>, length: seq<bv8>)
    requires |length| == 8
    ensures |Padded(m, length)| % BLOCK == 0
    ensures Padded(m, length) == m + ([0x80] + Zeros(ZeroPad(|m|))) + length
  {
    var z := Zeros(ZeroPad(|m|));
    assert m + ([0x80] + z) + length == m + [0x80] + z + length;
    assert |Padded(m, length)| == |m| + 1 + ZeroPad(|m|) + 8;
  }

  lemma SameWord64(n: nat)
    ensures Word64(n % TWO64) == Word64(n)
  {
  }

  /** The bytes as an array of their own. */
  method ArrayOf(s: seq<bv8>) returns (a: array<bv8>)
    ensures fresh(a) && a[..] == s
  {
    a := new bv8[|s|](i requires 0 <= i < |s| => s[i]);
    assert a[..] == s;
  }
}
