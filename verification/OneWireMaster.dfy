/** The master's side of the ROM search: the OW_DEVICE fields are updated in place
    while the bits of the participating devices are read and written. */
module OneWireMaster {
  import opened OneWire

  newtype u8 = x: int | 0 <= x < 256

  // ----- bits of a byte -----------------------------------------------------

  function Mask(i: nat): bv8
    requires i < 8
  {
    if i == 0 then 1 else if i == 1 then 2 else if i == 2 then 4 else if i == 3 then 8
    else if i == 4 then 16 else if i == 5 then 32 else if i == 6 then 64 else 128
  }

  predicate Bit(b: bv8, i: nat)
    requires i < 8
  {
    b & Mask(i) != 0
  }

  predicate IsMask(m: bv8) {
    m == 1 || m == 2 || m == 4 || m == 8 || m == 16 || m == 32 || m == 64 || m == 128
  }

  lemma MaskedBit(b: bv8, m: bv8, n: bv8)
    requires IsMask(m) && IsMask(n)
    ensures ((b | m) & n != 0) == (m == n || b & n != 0)
    ensures ((b & !m) & n != 0) == (m != n && b & n != 0)
  {
  }

  lemma MasksDiffer(i: nat, j: nat)
    requires i < 8 && j < 8
    ensures IsMask(Mask(i)) && IsMask(Mask(j)) && (Mask(i) == Mask(j) <==> i == j)
  {
  }

  lemma ZeroByte(b: bv8)
    ensures b == 0 <==> forall i :: 0 <= i < 8 ==> !Bit(b, i)
  {
    if forall i :: 0 <= i < 8 ==> !Bit(b, i) {
      assert !Bit(b, 0) && !Bit(b, 1) && !Bit(b, 2) && !Bit(b, 3) && !Bit(b, 4) && !Bit(b, 5) && !Bit(b, 6) && !Bit(b, 7);
    }
  }

  /** The byte number and the mask point at bit `k`. */
  ghost predicate PointsAt(romByteNumber: nat, romByteMask: bv8, k: nat) {
    0 <= k - 8 * romByteNumber < 8 && romByteMask == Mask(k - 8 * romByteNumber)
  }

  /** Shifting the mask moves to the next bit; when it runs out, the next byte begins. */
  lemma NextMask(q: nat, m: bv8, k: nat)
    requires PointsAt(q, m, k)
    ensures if m << 1 == 0 then PointsAt(q + 1, 1, k + 1) else PointsAt(q, m << 1, k + 1)
  {
  }

  function RomOf(bytes: seq<bv8>): Rom
    requires |bytes| == 8
  {
    seq(64, k requires 0 <= k < 64 => Bit(bytes[k / 8], k % 8))
  }

  /** The first bits of `r` are `p`, the others are still those of `before`. */
  ghost predicate Overwritten(r: Rom, p: seq<bool>, before: Rom) {
    |p| <= 64 && forall j :: 0 <= j < 64 ==> r[j] == if j < |p| then p[j] else before[j]
  }

  function Written(b: bv8, m: bv8, d: bool): bv8 {
    if d then b | m else b & !m
  }

  lemma BitWritten(bytes: seq<bv8>, q: nat, i: nat, d: bool, q': nat, i': nat)
    requires |bytes| == 8 && q < 8 && q' < 8 && i < 8 && i' < 8
    ensures Bit(bytes[q := Written(bytes[q], Mask(i), d)][q'], i') == if q == q' && i == i' then d else Bit(bytes[q'], i')
  {
    MasksDiffer(i, i');
    MaskedBit(bytes[q], Mask(i), Mask(i'));
  }

  /** Setting or clearing one masked bit changes exactly that bit of the ROM. */
  lemma RomWrite(bytes: seq<bv8>, q: nat, i: nat, d: bool)
    requires |bytes| == 8 && q < 8 && i < 8
    ensures RomOf(bytes[q := Written(bytes[q], Mask(i), d)]) == RomOf(bytes)[8 * q + i := d]
  {
    var after := RomOf(bytes[q := Written(bytes[q], Mask(i), d)]);
    forall j {:trigger after[j]} | 0 <= j < 64 ensures after[j] == if j == 8 * q + i then d else RomOf(bytes)[j] {
      BitWritten(bytes, q, i, d, j / 8, j % 8);
    }
  }

  lemma RomOverwritten(bytes: seq<bv8>, q: nat, m: bv8, d: bool, p: seq<bool>, rom: Rom)
    requires |bytes| == 8 && |p| < 64 && PointsAt(q, m, |p|) && Overwritten(RomOf(bytes), p, rom)
    ensures Overwritten(RomOf(bytes[q := Written(bytes[q], m, d)]), p + [d], rom)
  {
    RomWrite(bytes, q, |p| - 8 * q, d);
  }

  lemma RomBitRead(bytes: seq<bv8>, q: nat, i: nat)
    requires |bytes| == 8 && q < 8 && i < 8
    ensures (bytes[q] & Mask(i) > 0) == RomOf(bytes)[8 * q + i]
  {
    assert (8 * q + i) / 8 == q;
  }

  lemma ZeroFamilyByte(bytes: seq<bv8>)
    requires |bytes| == 8
    ensures bytes[0] == 0 <==> ZeroFamily(RomOf(bytes))
  {
    var r := RomOf(bytes);
    ZeroByte(bytes[0]);
    assert forall i :: 0 <= i < 8 ==> r[..8][i] == Bit(bytes[0], i);
  }

  // ----- the bus ------------------------------------------------------------

  predicate AllHave(selected: set<Rom>, k: nat, b: bool)
    requires k < 64
  {
    forall y | y in selected :: y[k] == b
  }

  /** Devices that answer a search: each of the selected ones sends its bit, then the
      complement, then reads the direction and drops out when it differs. The line is a wired AND. */
  class Bus {
    const devices: set<Rom>
    var selected: set<Rom>
    var position: nat
    var slot: nat

    constructor (devices: set<Rom>)
      ensures this.devices == devices
    {
      this.devices := devices;
      selected, position, slot := {}, 0, 0;
    }

    /** Presence pulse: false (low) when a device is there. */
    method Reset() returns (bit: bool)
      modifies this
      ensures bit == (devices == {})
      ensures selected == {}
    {
      selected, position, slot := {}, 0, 0;
      bit := devices == {};
    }

    method WriteCommand(command: bv8)
      modifies this
      ensures selected == if command == 0xF0 then devices else {}
      ensures position == 0 && slot == 0
    {
      selected, position, slot := if command == 0xF0 then devices else {}, 0, 0;
    }

    method ReadBit() returns (bit: bool)
      requires position < 64
      modifies this`slot
      ensures slot == old(slot) + 1
      ensures bit == (old(slot) > 1 || AllHave(selected, position, old(slot) == 0))
    {
      bit := slot > 1 || AllHave(selected, position, slot == 0);
      slot := slot + 1;
    }

    method WriteBit(d: bool)
      requires position < 64 && slot == 2
      modifies this
      ensures selected == set y | y in old(selected) && y[old(position)] == d
      ensures position == old(position) + 1 && slot == 0
    {
      selected := set y | y in selected && y[position] == d;
      position, slot := position + 1, 0;
    }
  }

  ghost predicate Selects(selected: set<Rom>, D: set<Rom>, p: seq<bool>) {
    forall y :: y in selected <==> y in D && p <= y
  }

  lemma BranchOfLonger(D: set<Rom>, p: seq<bool>)
    requires |p| < 64
    ensures Branch(D, p) == (Branch(D, p + [false]) || Branch(D, p + [true]))
  {
    if Branch(D, p) { BranchStep(D, p); }
    forall y | y in D && (p + [false] <= y || p + [true] <= y) ensures p <= y {
    }
  }

  lemma ReadsTellBranches(selected: set<Rom>, D: set<Rom>, p: seq<bool>)
    requires |p| < 64 && Selects(selected, D, p)
    ensures AllHave(selected, |p|, true) <==> !Branch(D, p + [false])
    ensures AllHave(selected, |p|, false) <==> !Branch(D, p + [true])
  {
    forall y, b | y in D && p + [b] <= y ensures y in selected && y[|p|] == b {
      assert p <= y;
    }
    forall y | y in selected ensures Branch(D, p + [y[|p|]]) {
      if y[|p|] { assert p + [true] <= y; } else { assert p + [false] <= y; }
    }
  }

  lemma WriteNarrows(selected: set<Rom>, D: set<Rom>, p: seq<bool>, d: bool)
    requires |p| < 64 && Selects(selected, D, p)
    ensures Selects((set y | y in selected && y[|p|] == d), D, p + [d])
  {
    forall y: Rom ensures p + [d] <= y <==> p <= y && y[|p|] == d {
      if p <= y && y[|p|] == d { assert y[..|p| + 1] == p + [d]; }
      if p + [d] <= y { assert p <= y; }
    }
  }

  lemma {:induction false} LastZeroOfPrefix(D: set<Rom>, x: seq<bool>, y: seq<bool>, k: nat)
    requires k <= |x| && x <= y
    ensures LastZero(D, x, k) == LastZero(D, y, k)
  {
    if k > 0 {
      assert x[..k - 1] == y[..k - 1];
      LastZeroOfPrefix(D, x, y, k - 1);
    }
  }

  /** The walk after the prefix `p`: what is left to walk, the last zero and the family discrepancy. */
  ghost predicate Walked(D: set<Rom>, s: SearchState, p: seq<bool>, lastZero: nat, family: nat) {
    && |p| <= 64
    && Walk(D, s.rom, s.last, []) == Walk(D, s.rom, s.last, p)
    && lastZero == LastZero(D, p, |p|)
    && family == FamilyAfter(D, p, s.family)
  }

  lemma WalkBegins(D: set<Rom>, s: SearchState)
    ensures Walked(D, s, [], 0, s.family) && Overwritten(s.rom, [], s.rom) && Selects(D, D, []) && PointsAt(0, 1, 0)
    ensures D != {} ==> Branch(D, [])
  {
  }

  /** What the bit loop has found when it ends at once or after 64 bits. */
  lemma WalkEnds(D: set<Rom>, s: SearchState, p: seq<bool>, rom: Rom, lastZero: nat, family: nat)
    requires Overwritten(rom, p, s.rom) && Walked(D, s, p, lastZero, family)
    ensures p == [] ==> rom == s.rom && family == s.family
    ensures |p| == 64 && Branch(D, p) ==>
      rom == Walk(D, s.rom, s.last, []) && lastZero == LastZero(D, rom, 64) && family == FamilyAfter(D, rom, s.family)
  {
    if |p| == 64 {
      assert rom == p;
    }
  }

  lemma NoDevices(D: set<Rom>)
    ensures D == {} ==> forall p :: !Branch(D, p)
  {
  }

  lemma AllPointsAt(q: nat, m: bv8, k: nat)
    requires PointsAt(q, m, k) && k <= 64
    ensures q >= 8 <==> k == 64
  {
  }

  /** Extending the prefix by the chosen direction follows the walk and its last zero. */
  lemma WalkStep(D: set<Rom>, s: SearchState, p: seq<bool>, d: bool, lastZero: nat, family: nat)
    requires |p| < 64 && Branch(D, p) && Walked(D, s, p, lastZero, family)
    requires d == Direction(D, s.rom, s.last, p)
    ensures Branch(D, p + [d])
    ensures var recorded := !d && Branch(D, p + [true]);
      Walked(D, s, p + [d], if recorded then |p| + 1 else lastZero, if recorded && |p| < 8 then |p| + 1 else family)
  {
    BranchStep(D, p);
    assert (p + [d])[..|p|] == p;
    LastZeroOfPrefix(D, p, p + [d], |p|);
    LastZeroOfPrefix(D, p, p + [d], if |p| < 8 then |p| else 8);
  }

  // ----- the master ---------------------------------------------------------

  class Master {
    const bus: Bus
    const romNo: array<bv8>
    var lastDiscrepancy: u8
    var lastFamilyDiscrepancy: u8
    var lastDeviceFlag: bool

    constructor (bus: Bus)
      ensures Valid() && this.bus == bus && fresh(romNo)
    {
      this.bus := bus;
      romNo := new bv8[8];
      lastDiscrepancy, lastFamilyDiscrepancy, lastDeviceFlag := 0, 0, false;
    }

    ghost predicate Valid()
      reads this
    {
      romNo.Length == 8
    }

    function State(): SearchState
      requires romNo.Length == 8
      reads this, romNo
    {
      SearchState(RomOf(romNo[..]), lastDiscrepancy as nat, lastDeviceFlag, lastFamilyDiscrepancy as nat)
    }

    method ResetSearch()
      requires Valid()
      modifies this
      ensures Valid() && State() == ResetState(old(State()))
    {
      lastDiscrepancy := 0;
      lastDeviceFlag := false;
      lastFamilyDiscrepancy := 0;
    }

    method WriteDirection(d: bool, ghost D: set<Rom>, ghost p: seq<bool>)
      requires |p| < 64 && bus.position == |p| && bus.slot == 2 && Selects(bus.selected, D, p)
      modifies bus
      ensures bus.position == |p| + 1 && bus.slot == 0 && Selects(bus.selected, D, p + [d])
    {
      WriteNarrows(bus.selected, D, p, d);
      bus.WriteBit(d);
    }

    /** Sets or clears the masked bit of one byte of ROM_NO. */
    method WriteRomBit(romByteNumber: nat, romByteMask: bv8, d: bool)
      requires Valid() && romByteNumber < 8
      modifies romNo
      ensures romNo[..] == old(romNo[..])[romByteNumber := Written(old(romNo[romByteNumber]), romByteMask, d)]
    {
      if d {
        romNo[romByteNumber] := romNo[romByteNumber] | romByteMask;
      } else {
        romNo[romByteNumber] := romNo[romByteNumber] & !romByteMask;
      }
    }

    method RecordDirection(romByteNumber: nat, romByteMask: bv8, d: bool, ghost p: seq<bool>, ghost rom: Rom)
      requires Valid() && |p| < 64 && PointsAt(romByteNumber, romByteMask, |p|) && Overwritten(RomOf(romNo[..]), p, rom)
      modifies romNo
      ensures Overwritten(RomOf(romNo[..]), p + [d], rom)
    {
      RomOverwritten(romNo[..], romByteNumber, romByteMask, d, p, rom);
      WriteRomBit(romByteNumber, romByteMask, d);
    }

    /** A bit and its complement: a line that stays high tells that no device has the other value. */
    method ReadPair(ghost D: set<Rom>, ghost p: seq<bool>) returns (idBit: bool, cmpIdBit: bool)
      requires |p| < 64 && bus.position == |p| && bus.slot == 0 && Selects(bus.selected, D, p)
      modifies bus`slot
      ensures bus.slot == 2
      ensures idBit == !Branch(D, p + [false]) && cmpIdBit == !Branch(D, p + [true])
      ensures !(idBit && cmpIdBit) == Branch(D, p)
    {
      hide AllHave, Branch, Selects;
      BranchOfLonger(D, p);
      idBit := bus.ReadBit();
      cmpIdBit := bus.ReadBit();
      ReadsTellBranches(bus.selected, D, p);
    }

    /** The direction for one pair of reads; a 0 taken at a discrepancy is recorded. */
    method ChooseDirection(idBit: bool, cmpIdBit: bool, idBitNumber: u8, romByteNumber: nat, romByteMask: bv8,
                           lastZeroIn: u8, ghost D: set<Rom>, ghost s: SearchState, ghost p: seq<bool>)
      returns (searchDirection: bool, lastZero: u8)
      requires Valid() && |p| < 64 && idBitNumber as int == |p| + 1 && PointsAt(romByteNumber, romByteMask, |p|)
      requires idBit == !Branch(D, p + [false]) && cmpIdBit == !Branch(D, p + [true]) && Branch(D, p)
      requires Overwritten(RomOf(romNo[..]), p, s.rom) && Walked(D, s, p, lastZeroIn as nat, lastFamilyDiscrepancy as nat)
      requires lastDiscrepancy as nat == s.last
      modifies this`lastFamilyDiscrepancy
      ensures Branch(D, p + [searchDirection])
      ensures Walked(D, s, p + [searchDirection], lastZero as nat, lastFamilyDiscrepancy as nat)
    {
      BranchOfLonger(D, p);
      WalkStep(D, s, p, Direction(D, s.rom, s.last, p), lastZeroIn as nat, lastFamilyDiscrepancy as nat);
      lastZero := lastZeroIn;
      RomBitRead(romNo[..], romByteNumber, |p| - 8 * romByteNumber);
      if idBit != cmpIdBit {
        searchDirection := idBit;
      } else {
        if idBitNumber < lastDiscrepancy {
          searchDirection := romNo[romByteNumber] & romByteMask > 0;
        } else {
          searchDirection := idBitNumber == lastDiscrepancy;
        }
        if !searchDirection {
          lastZero := idBitNumber;
          if lastZero < 9 {
            lastFamilyDiscrepancy := lastZero;
          }
        }
      }
    }

    /** One round of the search loop: `answered` is false when no device drives the line. */
    method WalkBit(romByteNumber: nat, romByteMask: bv8, idBitNumber: u8, lastZeroIn: u8,
                   ghost D: set<Rom>, ghost s: SearchState, ghost p: seq<bool>)
      returns (answered: bool, lastZero: u8, ghost d: bool)
      requires Valid() && |p| < 64 && PointsAt(romByteNumber, romByteMask, |p|) && idBitNumber as int == |p| + 1
      requires bus.position == |p| && bus.slot == 0 && Selects(bus.selected, D, p)
      requires Overwritten(RomOf(romNo[..]), p, s.rom) && Walked(D, s, p, lastZeroIn as nat, lastFamilyDiscrepancy as nat)
      requires lastDiscrepancy as nat == s.last
      modifies this`lastFamilyDiscrepancy, romNo, bus
      ensures answered == Branch(D, p)
      ensures !answered ==> romNo[..] == old(romNo[..]) && lastFamilyDiscrepancy == old(lastFamilyDiscrepancy) && lastZero == lastZeroIn
      ensures answered ==> Branch(D, p + [d]) && Overwritten(RomOf(romNo[..]), p + [d], s.rom)
      ensures answered ==> Walked(D, s, p + [d], lastZero as nat, lastFamilyDiscrepancy as nat)
      ensures answered ==> bus.position == |p| + 1 && bus.slot == 0 && Selects(bus.selected, D, p + [d])
    {
      hide Walked, Selects, Overwritten, PointsAt, Branch;
      var idBit, cmpIdBit := ReadPair(D, p);
      if idBit && cmpIdBit {
        return false, lastZeroIn, false;
      }
      var searchDirection;
      searchDirection, lastZero := ChooseDirection(idBit, cmpIdBit, idBitNumber, romByteNumber, romByteMask, lastZeroIn, D, s, p);
      RecordDirection(romByteNumber, romByteMask, searchDirection, p, s.rom);
      WriteDirection(searchDirection, D, p);
      answered, d := true, searchDirection;
    }

    /** The do-while loop over the 64 bits; a bus that nobody answers ends it at once. */
    method WalkBits(ghost D: set<Rom>) returns (idBitNumber: u8, lastZero: u8)
      requires Valid() && !lastDeviceFlag
      requires bus.position == 0 && bus.slot == 0 && bus.selected == D
      modifies this`lastFamilyDiscrepancy, romNo, bus
      ensures idBitNumber == if D == {} then 1 else 65
      ensures D == {} ==> State() == old(State())
      ensures D != {} ==>
        var s := old(State()); var r := Walk(D, s.rom, s.last, []);
        lastZero as nat == LastZero(D, r, 64) && State() == s.(rom := r, family := FamilyAfter(D, r, s.family))
    {
      hide Walked, Selects, Overwritten, PointsAt, Branch, Walk, LastZero, FamilyAfter, RomOf;
      ghost var s := State();
      WalkBegins(D, s);
      var romByteNumber := 0;
      var romByteMask: bv8 := 1;
      idBitNumber, lastZero := 1, 0;
      ghost var p: seq<bool> := [];
      while romByteNumber < 8
        invariant |p| <= 64 && idBitNumber as int == |p| + 1 && PointsAt(romByteNumber, romByteMask, |p|)
        invariant bus.position == |p| && bus.slot == 0 && Selects(bus.selected, D, p)
        invariant if D == {} then p == [] else Branch(D, p)
        invariant Overwritten(RomOf(romNo[..]), p, s.rom)
        invariant Walked(D, s, p, lastZero as nat, lastFamilyDiscrepancy as nat)
        decreases 64 - |p|
      {
        AllPointsAt(romByteNumber, romByteMask, |p|);
        NoDevices(D);
        var answered;
        ghost var d;
        answered, lastZero, d := WalkBit(romByteNumber, romByteMask, idBitNumber, lastZero, D, s, p);
        if !answered {
          break;
        }
        idBitNumber := idBitNumber + 1;
        NextMask(romByteNumber, romByteMask, |p|);
        romByteMask := romByteMask << 1;
        if romByteMask == 0 {
          romByteNumber := romByteNumber + 1;
          romByteMask := 1;
        }
        p := p + [d];
      }
      WalkEnds(D, s, p, RomOf(romNo[..]), lastZero as nat, lastFamilyDiscrepancy as nat);
      if D != {} { AllPointsAt(romByteNumber, romByteMask, |p|); }
    }

    method Search(command: bv8) returns (found: bool)
      requires Valid()
      modifies this, romNo, bus
      ensures Valid()
      ensures (found, State()) == SearchStep(if command == 0xF0 then bus.devices else {}, old(State()))
    {
      found := false;
      if !lastDeviceFlag {
        var absent := bus.Reset();
        if absent {
          lastDiscrepancy := 0;
          lastDeviceFlag := false;
          lastFamilyDiscrepancy := 0;
          return false;
        }
        bus.WriteCommand(command);
        var idBitNumber, lastZero := WalkBits(if command == CMD_SEARCHROM then bus.devices else {});
        if !(idBitNumber < 65) {
          lastDiscrepancy := lastZero;
          if lastDiscrepancy == 0 {
            lastDeviceFlag := true;
          }
          found := true;
        }
      }
      ZeroFamilyByte(romNo[..]);
      if !found || romNo[0] == 0 {
        lastDiscrepancy := 0;
        lastDeviceFlag := false;
        lastFamilyDiscrepancy := 0;
        found := false;
      }
    }

    method First() returns (found: bool)
      requires Valid()
      modifies this, romNo, bus
      ensures Valid()
      ensures (found, State()) == Call(bus.devices, old(State()), 0)
    {
      ResetSearch();
      found := Search(CMD_SEARCHROM);
    }

    method Next() returns (found: bool)
      requires Valid()
      modifies this, romNo, bus
      ensures Valid()
      ensures (found, State()) == SearchStep(bus.devices, old(State()))
    {
      found := Search(CMD_SEARCHROM);
    }
  }

  const MAX_ONEWIRE_SENSORS := 2

  function FamilyCode(r: Rom): bv8 {
    (if r[0] then 0x01 else 0) | (if r[1] then 0x02 else 0) | (if r[2] then 0x04 else 0) | (if r[3] then 0x08 else 0)
    | (if r[4] then 0x10 else 0) | (if r[5] then 0x20 else 0) | (if r[6] then 0x40 else 0) | (if r[7] then 0x80 else 0)
  }

  lemma BitsMakeByte(b: bv8)
    ensures b == (b & 0x01) | (b & 0x02) | (b & 0x04) | (b & 0x08) | (b & 0x10) | (b & 0x20) | (b & 0x40) | (b & 0x80)
    ensures (b & 1 == 0 || b & 1 == 1) && (b & 2 == 0 || b & 2 == 2) && (b & 4 == 0 || b & 4 == 4) && (b & 8 == 0 || b & 8 == 8)
    ensures (b & 16 == 0 || b & 16 == 16) && (b & 32 == 0 || b & 32 == 32) && (b & 64 == 0 || b & 64 == 64) && (b & 128 == 0 || b & 128 == 128)
  {
  }

  lemma FamilyCodeOfBytes(bytes: seq<bv8>)
    requires |bytes| == 8
    ensures FamilyCode(RomOf(bytes)) == bytes[0]
  {
    BitsMakeByte(bytes[0]);
  }

  predicate ThermometerCode(code: bv8) {
    code == 0x28 || code == 0x10 || code == 0x22 || code == 0x42
  }

  ghost function Thermometers(roms: seq<Rom>): seq<Rom> {
    if roms == [] then []
    else
      var front := Thermometers(roms[..|roms| - 1]);
      if ThermometerCode(FamilyCode(roms[|roms| - 1])) then front + [roms[|roms| - 1]] else front
  }

  lemma {:induction false} ThermometersGrow(roms: seq<Rom>, n: nat)
    requires n <= |roms|
    ensures Thermometers(roms[..n]) <= Thermometers(roms)
    decreases |roms|
  {
    if n < |roms| {
      assert roms[..|roms| - 1][..n] == roms[..n];
      ThermometersGrow(roms[..|roms| - 1], n);
    } else {
      assert roms[..n] == roms;
    }
  }

  ghost predicate RowsHold(rows: seq<seq<bv8>>, roms: seq<Rom>) {
    |roms| <= |rows| && forall i :: 0 <= i < |roms| ==> |rows[i]| == 8 && RomOf(rows[i]) == roms[i]
  }

  lemma RowAdded(rows: seq<seq<bv8>>, roms: seq<Rom>, row: seq<bv8>)
    requires RowsHold(rows, roms) && |roms| < |rows| && |row| == 8
    ensures RowsHold(rows[|roms| := row], roms) && RowsHold(rows[|roms| := row], roms + [RomOf(row)])
  {
  }

  lemma ThermometersNext(roms: seq<Rom>, n: nat)
    requires n < |roms|
    ensures Thermometers(roms[..n + 1]) ==
      if ThermometerCode(FamilyCode(roms[n])) then Thermometers(roms[..n]) + [roms[n]] else Thermometers(roms[..n])
  {
    assert roms[..n + 1][..n] == roms[..n];
  }

  lemma KeptAreFirst(found: seq<Rom>, n: nat, all: bool)
    requires n <= |found| && |Thermometers(found[..n])| <= MAX_ONEWIRE_SENSORS
    requires if all then n == |found| else |Thermometers(found[..n])| == MAX_ONEWIRE_SENSORS
    ensures Thermometers(found[..n]) == FirstOf(Thermometers(found))
  {
    ThermometersGrow(found, n);
    assert found[..|found|] == found;
  }

  /** `st` and the returned flag are those of call number `n`, which reports device `n`. */
  ghost predicate Reporting(D: set<Rom>, s: SearchState, n: nat, found: bool, st: SearchState) {
    && n <= |Reported(D)|
    && Call(D, s, n).0 == found && Call(D, s, n).1 == st
    && found == (n < |Reported(D)|)
    && (found ==> st.rom == Reported(D)[n])
  }

  lemma ReportsDevice(D: set<Rom>, s: SearchState, n: nat, found: bool, st: SearchState)
    requires Reporting(D, s, n, found, st)
    ensures n <= |Reported(D)| && found == (n < |Reported(D)|) && (found ==> st.rom == Reported(D)[n])
  {
  }

  lemma FirstReports(D: set<Rom>, s: SearchState)
    ensures Reporting(D, s, 0, Call(D, s, 0).0, Call(D, s, 0).1)
  {
    CallsReportDevices(D, s, 0);
  }

  lemma SliceNext(roms: seq<Rom>, n: nat)
    requires n < |roms|
    ensures roms[..n + 1] == roms[..n] + [roms[n]]
  {
  }

  lemma CallNext(D: set<Rom>, s: SearchState, n: nat)
    ensures Call(D, s, n + 1) == SearchStep(D, Call(D, s, n).1)
  {
  }

  lemma NextReports(D: set<Rom>, s: SearchState, n: nat, st: SearchState)
    requires Reporting(D, s, n, true, st)
    ensures Reporting(D, s, n + 1, SearchStep(D, st).0, SearchStep(D, st).1)
  {
    CallNext(D, s, n);
    CallsReportDevices(D, s, n + 1);
  }

  ghost function FirstOf(roms: seq<Rom>): seq<Rom> {
    if |roms| < MAX_ONEWIRE_SENSORS then roms else roms[..MAX_ONEWIRE_SENSORS]
  }

  // ----- the tables as bytes -------------------------------------------------

  /** The first bytes of DS18S20, DS18B20, DS1822 and DS28EA00. */
  predicate IsThermometerRow(b: seq<bv8>) {
    |b| == 8 && (b[0] == 0x10 || b[0] == 0x28 || b[0] == 0x22 || b[0] == 0x42)
  }

  lemma ByteTells(b: seq<bv8>)
    requires |b| == 8
    ensures ThermometerCode(FamilyCode(RomOf(b))) <==> IsThermometerRow(b)
  {
    FamilyCodeOfBytes(b);
    hide RomOf, FamilyCode;
  }

  lemma RowHasEightBytes(b: seq<bv8>)
    requires IsThermometerRow(b)
    ensures |b| == 8
  {
  }

  lemma {:induction false} ThermometersAre(roms: seq<Rom>)
    ensures forall r :: r in Thermometers(roms) <==> r in roms && ThermometerCode(FamilyCode(r))
    decreases |roms|
  {
    hide FamilyCode, ThermometerCode;
    if roms != [] {
      var front, last := roms[..|roms| - 1], roms[|roms| - 1];
      ThermometersAre(front);
      assert roms == front + [last];
    }
  }

  ghost predicate Increasing(roms: seq<Rom>) {
    forall i, j :: 0 <= i < j < |roms| ==> Less(roms[i], roms[j])
  }

  lemma {:induction false} ThermometersIncrease(roms: seq<Rom>)
    requires Increasing(roms)
    ensures Increasing(Thermometers(roms))
    decreases |roms|
  {
    hide FamilyCode, ThermometerCode, Less;
    if roms != [] {
      var front, last := roms[..|roms| - 1], roms[|roms| - 1];
      ThermometersIncrease(front);
      ThermometersAre(front);
      forall r | r in Thermometers(front) ensures Less(r, last) {
        var i :| 0 <= i < |front| && front[i] == r;
        assert Less(roms[i], roms[|roms| - 1]);
      }
    }
  }

  lemma ReportedIncrease(D: set<Rom>)
    ensures Increasing(Reported(D))
  {
    SortedProperties(D);
    hide Less, Sorted;
  }

  /** The table holds the first devices of `all`, which are in the order of the search: each of them is there,
      or the table holds two that come before it. */
  lemma FirstAreThere(rows: seq<seq<bv8>>, n: nat, all: seq<Rom>)
    requires Increasing(all) && n == |FirstOf(all)| && RowsHold(rows, FirstOf(all))
    ensures n <= 2 <= |rows| || n < 2
    ensures forall i :: 0 <= i < n ==> |rows[i]| == 8 && RomOf(rows[i]) in all
    ensures n == 2 ==> Less(RomOf(rows[0]), RomOf(rows[1]))
    ensures forall r :: r in all ==>
      || (exists i :: 0 <= i < n && RomOf(rows[i]) == r)
      || (n == 2 && Less(RomOf(rows[0]), r) && Less(RomOf(rows[1]), r))
  {
    hide RomOf, Less;
    if n == 2 { assert Less(all[0], all[1]) && RomOf(rows[0]) == all[0] && RomOf(rows[1]) == all[1]; }
    forall r | r in all
      ensures (exists i :: 0 <= i < n && RomOf(rows[i]) == r) || (n == 2 && Less(RomOf(rows[0]), r) && Less(RomOf(rows[1]), r))
    {
      var k :| 0 <= k < |all| && all[k] == r;
      if k < n {
        assert RomOf(rows[k]) == FirstOf(all)[k] == r;
      } else {
        assert RomOf(rows[0]) == all[0] && RomOf(rows[1]) == all[1];
        assert Less(all[0], all[k]) && Less(all[1], all[k]);
      }
    }
  }

  /** The Lua entry points that fill the table of known devices. */
  class Sensors {
    const master: Master
    const owRoms: array<seq<bv8>>
    var owNumDev: nat

    constructor (master: Master)
      requires master.Valid()
      ensures Valid() && this.master == master
    {
      this.master := master;
      owRoms := new seq<bv8>[MAX_ONEWIRE_SENSORS];
      owNumDev := 0;
    }

    ghost predicate Valid()
      reads this, master
    {
      master.Valid() && owRoms.Length == MAX_ONEWIRE_SENSORS
    }

    ghost predicate Holds(roms: seq<Rom>)
      reads this, owRoms
    {
      |roms| == owNumDev <= owRoms.Length && RowsHold(owRoms[..], roms)
    }

    /** Copies the ROM just found into the given row. */
    method GetFullRom(row: nat, ghost roms: seq<Rom>)
      requires Valid() && row == |roms| < MAX_ONEWIRE_SENSORS && RowsHold(owRoms[..], roms)
      modifies owRoms
      ensures RowsHold(owRoms[..], roms) && RowsHold(owRoms[..], roms + [RomOf(master.romNo[..])])
      ensures owRoms[row] == master.romNo[..]
    {
      RowAdded(owRoms[..], roms, master.romNo[..]);
      owRoms[row] := master.romNo[..];
    }

    /** Copies the ROM just found and tells by its family code whether it is a thermometer's. */
    method GetThermometer(row: nat, ghost roms: seq<Rom>) returns (isThermometer: bool)
      requires Valid() && row == |roms| < MAX_ONEWIRE_SENSORS && RowsHold(owRoms[..], roms)
      modifies owRoms
      ensures RowsHold(owRoms[..], roms) && RowsHold(owRoms[..], roms + [RomOf(master.romNo[..])])
      ensures isThermometer == ThermometerCode(FamilyCode(RomOf(master.romNo[..])))
    {
      hide RomOf, FamilyCode, RowsHold, ThermometerCode;
      FamilyCodeOfBytes(master.romNo[..]);
      GetFullRom(row, roms);
      isThermometer := ThermometerCode(owRoms[row][0]);
    }

    /** A row for the device just found, which is given up again when it is no thermometer. */
    method CountThermometer(count0: nat, ghost roms: seq<Rom>) returns (count: nat, ghost kept: seq<Rom>)
      requires Valid() && count0 == |roms| < MAX_ONEWIRE_SENSORS && RowsHold(owRoms[..], roms)
      modifies owRoms
      ensures var rom := RomOf(master.romNo[..]); kept == if ThermometerCode(FamilyCode(rom)) then roms + [rom] else roms
      ensures count == |kept| <= MAX_ONEWIRE_SENSORS && RowsHold(owRoms[..], kept)
    {
      hide RomOf, FamilyCode, RowsHold, ThermometerCode;
      count, kept := count0 + 1, roms;
      var isThermometer := GetThermometer(count - 1, roms);
      if !isThermometer {
        count := count - 1;
      } else {
        kept := roms + [RomOf(master.romNo[..])];
      }
    }

    /** The first two devices of the bus, in search order. */
    method OwSearch()
      requires Valid()
      modifies this, owRoms, master, master.romNo, master.bus
      ensures Valid()
      ensures Holds(FirstOf(Reported(master.bus.devices)))
      ensures owNumDev <= 2 && (owNumDev == 2 ==> |owRoms[0]| == |owRoms[1]| == 8 && Less(RomOf(owRoms[0]), RomOf(owRoms[1])))
      ensures forall i :: 0 <= i < owNumDev ==> |owRoms[i]| == 8 && RomOf(owRoms[i]) in Reported(master.bus.devices)
      ensures forall r :: r in Reported(master.bus.devices) ==>
        || (exists i :: 0 <= i < owNumDev && RomOf(owRoms[i]) == r)
        || (owNumDev == 2 && Less(RomOf(owRoms[0]), r) && Less(RomOf(owRoms[1]), r))
    {
      FillFirst();
      ReportedIncrease(master.bus.devices);
      FirstAreThere(owRoms[..], owNumDev, Reported(master.bus.devices));
      hide RomOf, Less, FirstOf, RowsHold;
    }

    method FillFirst()
      requires Valid()
      modifies this, owRoms, master, master.romNo, master.bus
      ensures Valid()
      ensures Holds(FirstOf(Reported(master.bus.devices)))
    {
      hide SearchStep, Sorted, Reported;
      ghost var D, s := master.bus.devices, master.State();
      ghost var found := Reported(D);
      var count := 0;
      var owdev := master.First();
      FirstReports(D, s);
      while owdev
        invariant Valid() && Reporting(D, s, count, owdev, master.State()) && (count < MAX_ONEWIRE_SENSORS || !owdev)
        invariant RowsHold(owRoms[..], found[..count])
        decreases |found| - count
      {
        NextReports(D, s, count, master.State());
        SliceNext(found, count);
        count := count + 1;
        GetFullRom(count - 1, found[..count - 1]);
        owdev := master.Next();
        if count >= MAX_ONEWIRE_SENSORS { break; }
      }
      assert found[..count] == FirstOf(found);
      owNumDev := count;
    }

    /** The first two thermometers of the bus, in search order. */
    method Ds18b20Search()
      requires Valid()
      modifies this, owRoms, master, master.romNo, master.bus
      ensures Valid()
      ensures Holds(FirstOf(Thermometers(Reported(master.bus.devices))))
      ensures owNumDev <= 2 && (owNumDev == 2 ==> |owRoms[0]| == |owRoms[1]| == 8 && Less(RomOf(owRoms[0]), RomOf(owRoms[1])))
      ensures forall i :: 0 <= i < owNumDev ==> IsThermometerRow(owRoms[i]) && RomOf(owRoms[i]) in Reported(master.bus.devices)
      ensures forall b :: IsThermometerRow(b) && RomOf(b) in Reported(master.bus.devices) ==>
        || (exists i :: 0 <= i < owNumDev && RomOf(owRoms[i]) == RomOf(b))
        || (owNumDev == 2 && Less(RomOf(owRoms[0]), RomOf(b)) && Less(RomOf(owRoms[1]), RomOf(b)))
    {
      FillThermometers();
      ghost var found := Reported(master.bus.devices);
      ReportedIncrease(master.bus.devices);
      ThermometersIncrease(found);
      ThermometersAre(found);
      hide RomOf, Less, RowsHold, Thermometers, FamilyCode, ThermometerCode, IsThermometerRow, Reported, Increasing;
      FirstAreThere(owRoms[..], owNumDev, Thermometers(found));
      hide FirstOf;
      forall i | 0 <= i < owNumDev ensures IsThermometerRow(owRoms[i]) && RomOf(owRoms[i]) in found {
        assert owRoms[..][i] == owRoms[i];
        ByteTells(owRoms[i]);
      }
      forall b | IsThermometerRow(b) && RomOf(b) in found
        ensures (exists i :: 0 <= i < owNumDev && RomOf(owRoms[i]) == RomOf(b))
          || (owNumDev == 2 && Less(RomOf(owRoms[0]), RomOf(b)) && Less(RomOf(owRoms[1]), RomOf(b)))
      {
        RowHasEightBytes(b);
        ByteTells(b);
      }
    }

    method FillThermometers()
      requires Valid()
      modifies this, owRoms, master, master.romNo, master.bus
      ensures Valid()
      ensures Holds(FirstOf(Thermometers(Reported(master.bus.devices))))
    {
      hide SearchStep, Sorted, Reported;
      ghost var D, s := master.bus.devices, master.State();
      ghost var found := Reported(D);
      ghost var n := 0;
      ghost var kept := [];
      var count := 0;
      var owdev := master.First();
      FirstReports(D, s);
      assert found[..0] == [] && Thermometers([]) == [] && RowsHold(owRoms[..], kept);
      ReportsDevice(D, s, n, owdev, master.State());
      hide Call, Reporting, Thermometers, ThermometerCode, FamilyCode, RomOf, RowsHold, FirstOf;
      while owdev
        invariant Valid() && Reporting(D, s, n, owdev, master.State()) && count < MAX_ONEWIRE_SENSORS
        invariant n <= |found| && owdev == (n < |found|) && (owdev ==> master.State().rom == found[n])
        invariant kept == Thermometers(found[..n]) && count == |kept| && RowsHold(owRoms[..], kept)
        decreases |found| - n
      {
        NextReports(D, s, n, master.State());
        ThermometersNext(found, n);
        count, kept := CountThermometer(count, kept);
        n := n + 1;
        owdev := master.Next();
        ReportsDevice(D, s, n, owdev, master.State());
        if count >= MAX_ONEWIRE_SENSORS { break; }
      }
      KeptAreFirst(found, n, !owdev);
      owNumDev := count;
    }
  }

  ghost function FamilyAfter(D: set<Rom>, p: seq<bool>, before: nat): nat {
    var f := LastZero(D, p, if |p| < 8 then |p| else 8);
    if f > 0 then f else before
  }
}
