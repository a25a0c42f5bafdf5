/** The ROM search of the 1-Wire master (Lua/sensor.c).

    A ROM is the sequence of its 64 bits in the order in which they travel on the
    bus: byte 0 first, least significant bit first. */
module OneWire {

  const CMD_SEARCHROM: bv8 := 0xF0

  type Rom = s: seq<bool> | |s| == 64 witness seq(64, _ => false)

  // ----- what the search means ----------------------------------------------

  /** Some device continues the bits `p`. */
  predicate Branch(D: set<Rom>, p: seq<bool>) {
    exists y :: y in D && p <= y
  }

  /** Lexicographic order of the bits as they are sent. */
  ghost predicate Less(x: Rom, y: Rom) {
    exists i :: LessAt(x, y, i)
  }

  ghost predicate LessAt(x: Rom, y: Rom, i: int) {
    0 <= i < 64 && (forall j :: 0 <= j < i ==> x[j] == y[j]) && !x[i] && y[i]
  }

  /** The bit written after the prefix `p` was walked. */
  function Direction(D: set<Rom>, prev: Rom, last: nat, p: seq<bool>): bool
    requires |p| < 64
  {
    var k := |p| + 1;
    if Branch(D, p + [false]) && Branch(D, p + [true]) then
      if k < last then prev[k - 1] else k == last
    else
      Branch(D, p + [true])
  }

  /** The ROM reached from the prefix `p`. */
  function Walk(D: set<Rom>, prev: Rom, last: nat, p: seq<bool>): (r: Rom)
    requires |p| <= 64
    ensures p <= r
    decreases 64 - |p|
  {
    if |p| == 64 then p else Walk(D, prev, last, p + [Direction(D, prev, last, p)])
  }

  /** The deepest 1-based position up to `k` where `x` took 0 although a 1-branch exists; 0 if there is none. */
  function LastZero(D: set<Rom>, x: seq<bool>, k: nat): (z: nat)
    requires k <= |x|
    ensures z <= k
    ensures z > 0 ==> !x[z - 1] && Branch(D, x[..z - 1] + [true])
    ensures forall j :: z <= j < k ==> x[j] || !Branch(D, x[..j] + [true])
  {
    if k == 0 then 0
    else if !x[k - 1] && Branch(D, x[..k - 1] + [true]) then k
    else LastZero(D, x, k - 1)
  }

  predicate ZeroFamily(x: Rom) {
    x[..8] == [false, false, false, false, false, false, false, false]
  }

  datatype SearchState = SearchState(rom: Rom, last: nat, done: bool, family: nat)

  function ResetState(s: SearchState): SearchState {
    s.(last := 0, done := false, family := 0)
  }

  /** One call of the search with command 0xF0: the returned flag and the new state. */
  function SearchStep(D: set<Rom>, s: SearchState): (bool, SearchState) {
    if s.done || D == {} then (false, ResetState(s))
    else
      var r := Walk(D, s.rom, s.last, []);
      if ZeroFamily(r) then (false, ResetState(s.(rom := r)))
      else
        var z := LastZero(D, r, 64);
        var f := LastZero(D, r, 8);
        (true, SearchState(r, z, z == 0, if f > 0 then f else s.family))
  }

  /** Call number `n` after power-up state `s`: First, then `n` times Next. */
  function Call(D: set<Rom>, s: SearchState, n: nat): (bool, SearchState) {
    if n == 0 then SearchStep(D, ResetState(s)) else SearchStep(D, Call(D, s, n - 1).1)
  }

  // ----- order --------------------------------------------------------------

  lemma {:induction false} Trichotomy(x: Rom, y: Rom, k: nat)
    requires k <= 64 && forall j :: 0 <= j < k ==> x[j] == y[j]
    ensures x == y || Less(x, y) || Less(y, x)
    decreases 64 - k
  {
    if k < 64 {
      if x[k] == y[k] {
        Trichotomy(x, y, k + 1);
      } else {
        assert LessAt(x, y, k) || LessAt(y, x, k);
      }
    }
  }

  lemma LessIsAsymmetric(x: Rom, y: Rom)
    requires Less(x, y)
    ensures !Less(y, x) && x != y
  {
    var i :| LessAt(x, y, i);
  }

  lemma LessIsTransitive(x: Rom, y: Rom, z: Rom)
    requires Less(x, y) && Less(y, z)
    ensures Less(x, z)
  {
    var i :| LessAt(x, y, i);
    var j :| LessAt(y, z, j);
    assert LessAt(x, z, if i < j then i else j);
  }

  ghost predicate IsMin(D: set<Rom>, m: Rom) {
    m in D && forall y :: y in D && y != m ==> Less(m, y)
  }

  lemma {:induction false} MinExists(D: set<Rom>) returns (m: Rom)
    requires D != {}
    ensures IsMin(D, m)
    decreases |D|
  {
    var d :| d in D;
    if D == {d} {
      m := d;
    } else {
      var E := D - {d};
      assert D == E + {d};
      var e := MinExists(E);
      Trichotomy(d, e, 0);
      m := if Less(d, e) then d else e;
      forall y | y in D && y != m ensures Less(m, y) {
        if y != d && y != e && m == d { LessIsTransitive(d, e, y); }
      }
    }
  }

  /** The devices in search order. */
  ghost function Sorted(D: set<Rom>): seq<Rom>
    decreases |D|
  {
    if D == {} then []
    else
      assert exists m :: IsMin(D, m) by { var m := MinExists(D); }
      var m :| IsMin(D, m);
      [m] + Sorted(D - {m})
  }

  lemma {:induction false} SortedProperties(D: set<Rom>)
    ensures |Sorted(D)| == |D|
    ensures forall y :: y in D <==> y in Sorted(D)
    ensures forall i, j :: 0 <= i < j < |D| ==> Less(Sorted(D)[i], Sorted(D)[j])
    decreases |D|
  {
    if D != {} {
      var L := Sorted(D);
      var m := L[0];
      var E := D - {m};
      assert IsMin(D, m) && L == [m] + Sorted(E);
      SortedProperties(E);
      assert D == E + {m};
      forall i, j | 0 <= i < j < |D| ensures Less(L[i], L[j]) {
        assert L[j] == Sorted(E)[j - 1];
        if i == 0 { assert L[j] in E; } else { assert L[i] == Sorted(E)[i - 1]; }
      }
    }
  }

  // ----- what one walk finds ------------------------------------------------

  lemma BranchStep(D: set<Rom>, p: seq<bool>)
    requires |p| < 64 && Branch(D, p)
    ensures Branch(D, p + [false]) || Branch(D, p + [true])
  {
    var y :| y in D && p <= y;
    if y[|p|] {
      assert p + [true] <= y;
    } else {
      assert p + [false] <= y;
    }
  }

  lemma {:induction false} WalkFinds(D: set<Rom>, prev: Rom, last: nat, p: seq<bool>)
    requires |p| <= 64 && Branch(D, p)
    ensures Walk(D, prev, last, p) in D
    decreases 64 - |p|
  {
    if |p| < 64 {
      BranchStep(D, p);
      WalkFinds(D, prev, last, p + [Direction(D, prev, last, p)]);
    } else {
      var y :| y in D && p <= y;
      assert y == p;
    }
  }

  /** Past the last discrepancy the walk takes the least device. */
  lemma {:induction false} WalkTakesLeast(D: set<Rom>, prev: Rom, last: nat, p: seq<bool>, y: Rom)
    requires last <= |p| <= 64 && y in D && p <= y
    ensures var r := Walk(D, prev, last, p); y == r || Less(r, y)
    decreases 64 - |p|
  {
    if |p| < 64 {
      var d := Direction(D, prev, last, p);
      var r := Walk(D, prev, last, p);
      assert p + [y[|p|]] <= y;
      assert Branch(D, p + [y[|p|]]);
      if y[|p|] == d {
        WalkTakesLeast(D, prev, last, p + [d], y);
      } else {
        assert !d && p + [d] <= r;
        assert r[..|p|] == p == y[..|p|] && r[|p|] == d;
        assert LessAt(r, y, |p|);
      }
    }
  }

  /** Before the last discrepancy the walk repeats the previous ROM; there it turns to 1. */
  lemma {:induction false} WalkRepeats(D: set<Rom>, x: Rom, last: nat, k: nat)
    requires x in D && 0 < last <= 64 && !x[last - 1] && Branch(D, x[..last - 1] + [true])
    requires k < last
    ensures Walk(D, x, last, x[..k]) == Walk(D, x, last, x[..last - 1] + [true])
    decreases last - k
  {
    var p := x[..k];
    assert x[..k + 1] == p + [x[k]];
    assert Branch(D, p + [x[k]]);
    if k < last - 1 {
      assert Direction(D, x, last, p) == x[k];
      WalkRepeats(D, x, last, k + 1);
    } else {
      assert Direction(D, x, last, p);
    }
  }

  /** A device after `x` branches off at a position that LastZero has not passed. */
  lemma LaterDevicesBranchOff(D: set<Rom>, x: Rom, y: Rom, i: int)
    requires y in D && LessAt(x, y, i)
    ensures i < LastZero(D, x, 64)
  {
    assert x[..i] + [true] <= y;
    assert Branch(D, x[..i] + [true]);
  }

  lemma FirstIsLeast(D: set<Rom>, prev: Rom)
    requires D != {}
    ensures IsMin(D, Walk(D, prev, 0, []))
  {
    var d :| d in D;
    assert [] <= d;
    WalkFinds(D, prev, 0, []);
    forall y | y in D && y != Walk(D, prev, 0, []) ensures Less(Walk(D, prev, 0, []), y) {
      assert [] <= y;
      WalkTakesLeast(D, prev, 0, [], y);
    }
  }

  ghost predicate IsNext(D: set<Rom>, x: Rom, r: Rom) {
    r in D && Less(x, r) && forall y :: y in D && Less(x, y) && y != r ==> Less(r, y)
  }

  lemma NextIsSuccessor(D: set<Rom>, x: Rom)
    requires x in D && LastZero(D, x, 64) > 0
    ensures IsNext(D, x, Walk(D, x, LastZero(D, x, 64), []))
  {
    var last := LastZero(D, x, 64);
    var p := x[..last - 1] + [true];
    var r := Walk(D, x, last, []);
    assert x[..0] == [];
    WalkRepeats(D, x, last, 0);
    assert r == Walk(D, x, last, p) && p <= r;
    WalkFinds(D, x, last, p);
    assert forall j :: 0 <= j < last ==> r[j] == p[j];
    assert LessAt(x, r, last - 1);
    forall y | y in D && Less(x, y) && y != r ensures Less(r, y) {
      NothingBetween(D, x, p, r, y);
    }
  }

  lemma NothingBetween(D: set<Rom>, x: Rom, p: seq<bool>, r: Rom, y: Rom)
    requires var last := LastZero(D, x, 64); last > 0 && p == x[..last - 1] + [true] && r == Walk(D, x, last, p)
    requires y in D && Less(x, y) && y != r
    ensures Less(r, y)
  {
    var last := LastZero(D, x, 64);
    var i :| LessAt(x, y, i);
    LaterDevicesBranchOff(D, x, y, i);
    if i == last - 1 {
      assert p <= y;
      WalkTakesLeast(D, x, last, p, y);
    } else {
      assert forall j :: 0 <= j < last ==> r[j] == p[j];
      assert LessAt(r, y, i);
    }
  }

  lemma LastHasNoSuccessor(D: set<Rom>, x: Rom, y: Rom)
    requires LastZero(D, x, 64) == 0 && y in D
    ensures !Less(x, y)
  {
    if Less(x, y) {
      var i :| LessAt(x, y, i);
      LaterDevicesBranchOff(D, x, y, i);
    }
  }

  // ----- the enumeration ----------------------------------------------------

  /** Call `n` has found device `n` and keeps its deepest branch. */
  ghost predicate FindsAt(D: set<Rom>, s: SearchState, n: nat) {
    && n < |D| == |Sorted(D)| && Call(D, s, n).0 && Call(D, s, n).1.rom == Sorted(D)[n]
    && Call(D, s, n).1.last == LastZero(D, Sorted(D)[n], 64)
    && Call(D, s, n).1.done == (Call(D, s, n).1.last == 0)
  }

  lemma FirstFinds(D: set<Rom>, s: SearchState)
    requires D != {} && forall r :: r in D ==> !ZeroFamily(r)
    ensures FindsAt(D, s, 0)
  {
    SortedProperties(D);
    FirstIsLeast(D, s.rom);
    var r := Walk(D, s.rom, 0, []);
    if r != Sorted(D)[0] { LessIsAsymmetric(r, Sorted(D)[0]); }
    hide Sorted, Walk, Less, LastZero;
  }

  lemma NextFinds(D: set<Rom>, s: SearchState, n: nat)
    requires D != {} && n + 1 < |D| && (forall r :: r in D ==> !ZeroFamily(r)) && FindsAt(D, s, n)
    ensures FindsAt(D, s, n + 1)
  {
    SortedProperties(D);
    hide Walk, LastZero, ZeroFamily, SearchStep;
    var x, y := Sorted(D)[n], Sorted(D)[n + 1];
    if LastZero(D, x, 64) == 0 { LastHasNoSuccessor(D, x, y); }
    NextIsSuccessor(D, x);
    SuccessorInSorted(D, n, Walk(D, x, LastZero(D, x, 64), []));
    hide Sorted, Less;
    StepFinds(D, Call(D, s, n).1, y);
  }

  lemma StepFinds(D: set<Rom>, st: SearchState, y: Rom)
    requires D != {} && !st.done && y in D && !ZeroFamily(y) && Walk(D, st.rom, st.last, []) == y
    ensures var r := SearchStep(D, st); r.0 && r.1.rom == y && r.1.last == LastZero(D, y, 64) && r.1.done == (r.1.last == 0)
  {
    hide Walk, LastZero, ZeroFamily;
  }

  lemma NothingMore(D: set<Rom>, s: SearchState, n: nat)
    requires n + 1 == |D| && FindsAt(D, s, n)
    ensures !Call(D, s, n + 1).0 && Call(D, s, n + 1).1 == ResetState(Call(D, s, n + 1).1)
  {
    SortedProperties(D);
    var x := Sorted(D)[n];
    if LastZero(D, x, 64) != 0 {
      NextIsSuccessor(D, x);
      SuccessorInSorted(D, n, Walk(D, x, LastZero(D, x, 64), []));
    }
    hide Walk, LastZero, Sorted, Less;
  }

  /** While every family byte is non-zero, call n returns the n-th device, and the
      call after the last one returns 0 with the search state reset. */
  lemma {:induction false} Enumerates(D: set<Rom>, s: SearchState, n: nat)
    requires D != {} && n <= |D| && forall r :: r in D ==> !ZeroFamily(r)
    ensures n < |D| ==> FindsAt(D, s, n)
    ensures n == |D| ==> !Call(D, s, n).0 && Call(D, s, n).1 == ResetState(Call(D, s, n).1)
  {
    hide FindsAt, Sorted, ZeroFamily;
    if n == 0 {
      FirstFinds(D, s);
    } else {
      Enumerates(D, s, n - 1);
      if n < |D| {
        NextFinds(D, s, n - 1);
      } else {
        NothingMore(D, s, n - 1);
      }
    }
  }

  lemma SuccessorInSorted(D: set<Rom>, n: nat, r: Rom)
    requires n < |D| == |Sorted(D)| && IsNext(D, Sorted(D)[n], r)
    ensures n + 1 < |D| && r == Sorted(D)[n + 1]
  {
    SortedProperties(D);
    var L := Sorted(D);
    var m :| 0 <= m < |L| && L[m] == r;
    if m <= n {
      LessIsAsymmetric(L[n], r);
    } else if m > n + 1 {
      LessIsAsymmetric(L[n + 1], r);
    }
  }

  /** A device with a zero family byte is the least of all, so the very first call gives up. */
  lemma ZeroFamilyStopsSearch(D: set<Rom>, s: SearchState, z: Rom)
    requires z in D && ZeroFamily(z)
    ensures !Call(D, s, 0).0 && Call(D, s, 0).1 == ResetState(Call(D, s, 0).1)
  {
    FirstIsLeast(D, s.rom);
    var r := Walk(D, s.rom, 0, []);
    if r != z {
      var i :| LessAt(r, z, i);
      assert z[..8][if i < 8 then i else 0] == z[if i < 8 then i else 0];
      assert r[..8] == z[..8];
    }
  }

  /** The search lists the bus exactly when no device has a zero family byte. */
  lemma EnumerationIsCompleteIff(D: set<Rom>, s: SearchState)
    requires D != {}
    ensures |Sorted(D)| == |D|
    ensures (forall n :: 0 <= n < |D| ==> Call(D, s, n).0 && Call(D, s, n).1.rom == Sorted(D)[n])
      <==> (forall r :: r in D ==> !ZeroFamily(r))
  {
    SortedProperties(D);
    if forall r :: r in D ==> !ZeroFamily(r) {
      forall n | 0 <= n < |D| ensures Call(D, s, n).0 && Call(D, s, n).1.rom == Sorted(D)[n] {
        Enumerates(D, s, n);
      }
    } else {
      var z :| z in D && ZeroFamily(z);
      ZeroFamilyStopsSearch(D, s, z);
      assert !Call(D, s, 0).0;
    }
  }

  /** What the search reports: the devices in order, or nothing when one of them has a zero family byte. */
  ghost function Reported(D: set<Rom>): seq<Rom> {
    if exists z :: z in D && ZeroFamily(z) then [] else Sorted(D)
  }

  /** Call n returns the n-th reported device; the call after the last returns 0 and resets the search. */
  lemma CallsReportDevices(D: set<Rom>, s: SearchState, n: nat)
    requires n <= |Reported(D)|
    ensures n < |Reported(D)| ==> Call(D, s, n).0 && Call(D, s, n).1.rom == Reported(D)[n]
    ensures n == |Reported(D)| ==> !Call(D, s, n).0 && Call(D, s, n).1 == ResetState(Call(D, s, n).1)
  {
    SortedProperties(D);
    if z :| z in D && ZeroFamily(z) {
      ZeroFamilyStopsSearch(D, s, z);
    } else if D != {} {
      Enumerates(D, s, n);
    }
  }
}
