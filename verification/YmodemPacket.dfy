/** YMODEM packets as bytes: what the sender builds and what the receiver accepts (common/ymodem.c). */
module YmodemPacket {
  import opened Crc
  import opened CrcCode

  const SOH: bv8 := 0x01
  const STX: bv8 := 0x02
  const EOT: bv8 := 0x04
  const ACK: bv8 := 0x06
  const NAK: bv8 := 0x15
  const CA: bv8 := 0x18
  const CRC16: bv8 := 0x43
  const ABORT1: bv8 := 0x41
  const ABORT2: bv8 := 0x61

  const PACKET_HEADER := 3
  const PACKET_TRAILER := 2
  const PACKET_OVERHEAD := PACKET_HEADER + PACKET_TRAILER
  const PACKET_SIZE := 128
  const PACKET_1K_SIZE := 1024
  const FILE_SIZE_LENGTH := 16

  function Repeat(b: bv8, n: nat): (s: seq<bv8>)
    ensures |s| == n
  {
    seq(n, _ => b)
  }

  /** The payload lengths of the two packet headers. */
  function PayloadLength(header: bv8): nat {
    if header == SOH then PACKET_SIZE else PACKET_1K_SIZE
  }

  /** `bytes` is a whole packet that carries the sequence number `no` and `payload`. */
  ghost predicate IsPacket(bytes: seq<bv8>, header: bv8, no: bv8, payload: seq<bv8>) {
    && (header == SOH || header == STX)
    && |payload| == PayloadLength(header)
    && |bytes| == |payload| + PACKET_OVERHEAD
    && bytes[..PACKET_HEADER] == [header, no, !no]
    && bytes[PACKET_HEADER..PACKET_HEADER + |payload|] == payload
    && Checksum(bytes[PACKET_HEADER..]) == Zeros(16)
  }

  // ----- the trailer --------------------------------------------------------

  function HighByte(w: bv16): bv8 {
    (w >> 8) as bv8
  }

  function LowByte(w: bv16): bv8 {
    (w & 0xFF) as bv8
  }

  function LowWord(b: bv8): bv16 {
    b as bv16
  }

  lemma BytesOfWord(w: bv16)
    ensures XorWord(HighWord(HighByte(w)), LowWord(LowByte(w))) == w
  {
  }

  lemma TrailerBits(crc: bv16)
    ensures ByteBits(HighByte(crc)) + ByteBits(LowByte(crc)) == WordBits(crc)
  {
    BytesOfWord(crc);
    hide HighByte, LowByte, HighWord, LowWord, XorWord, WordBits, ByteBits;
    var hi, lo := HighByte(crc), LowByte(crc);
    HighByteBits(hi);
    LowByteBits(lo);
    WordXor(HighWord(hi), LowWord(lo));
    XorHalves(ByteBits(hi), ByteBits(lo));
  }

  lemma XorHalves(a: seq<bool>, b: seq<bool>)
    requires |a| == |b| == 8
    ensures Xor(a + Zeros(8), Zeros(8) + b) == a + b
  {
  }

  lemma LowByteBit(b: bv8, i: nat)
    requires i < 16
    ensures BitAt(Wide(LowWord(b)), i) == (i >= 8 && ByteBits(b)[i - 8])
  {
  }

  lemma LowByteBits(b: bv8)
    ensures WordBits(LowWord(b)) == Zeros(8) + ByteBits(b)
  {
    forall i | 0 <= i < 16 ensures WordBits(LowWord(b))[i] == (Zeros(8) + ByteBits(b))[i] {
      LowByteBit(b, i);
      hide BitAt, ByteBits;
    }
  }

  /** Appends the checksum of the payload, which completes the packet. */
  method AppendTrailer(data: array<bv8>, size: nat, ghost header: bv8, ghost no: bv8, ghost payload: seq<bv8>)
    requires (header == SOH || header == STX) && size == PayloadLength(header)
    requires data.Length >= size + PACKET_OVERHEAD
    requires data[0] == header && data[1] == no && data[2] == !no && data[PACKET_HEADER..PACKET_HEADER + size] == payload
    modifies data
    ensures IsPacket(data[..size + PACKET_OVERHEAD], header, no, payload)
  {
    hide Checksum, WordBits, ByteBits;
    var crc := CalCrc16(data, PACKET_HEADER, size);
    data[size + PACKET_HEADER] := HighByte(crc);
    data[size + PACKET_HEADER + 1] := LowByte(crc);
    TrailerBits(crc);
    CheckAcceptsExactlyTheTrailer(payload, HighByte(crc), LowByte(crc));
    ghost var bytes := data[..size + PACKET_OVERHEAD];
    assert forall k {:trigger bytes[k]} :: PACKET_HEADER <= k < PACKET_HEADER + size ==> bytes[k] == payload[k - PACKET_HEADER] by {
      assert forall k {:trigger payload[k]} :: 0 <= k < size ==> payload[k] == old(data[PACKET_HEADER + k]);
    }
    assert bytes == [header, no, !no] + payload + [HighByte(crc), LowByte(crc)];
    assert bytes[PACKET_HEADER..] == payload + [HighByte(crc), LowByte(crc)];
  }

  // ----- decimal numbers ----------------------------------------------------

  function Digit(d: nat): bv8
    requires d < 10
  {
    (0x30 + d) as bv8
  }

  predicate IsDigit(b: bv8) {
    0x30 <= b <= 0x39
  }

  function Decimal(n: nat): seq<bv8> {
    if n < 10 then [Digit(n)] else Decimal(n / 10) + [Digit(n % 10)]
  }

  lemma {:induction false} DecimalDigits(n: nat)
    ensures Decimal(n) != [] && forall i :: 0 <= i < |Decimal(n)| ==> IsDigit(Decimal(n)[i])
  {
    hide Digit, IsDigit;
    DigitValue(n % 10);
    if n >= 10 { DecimalDigits(n / 10); }
  }

  lemma {:induction false} DecimalLength(n: nat, k: nat, limit: nat)
    requires n < limit && k > 0 && limit == Power10(k)
    ensures |Decimal(n)| <= k
  {
    if n >= 10 {
      assert k > 1;
      DecimalLength(n / 10, k - 1, Power10(k - 1));
    }
  }

  function Power10(k: nat): nat {
    if k == 0 then 1 else 10 * Power10(k - 1)
  }

  /** The number read by vm_str_strtoi: the leading digits. */
  function ParseNumber(s: seq<bv8>, acc: nat): nat {
    if s == [] || !IsDigit(s[0]) then acc else ParseNumber(s[1..], 10 * acc + (s[0] - 0x30) as nat)
  }

  lemma {:induction false} ParseDigits(s: seq<bv8>, d: nat, acc: nat)
    requires forall i :: 0 <= i < |s| ==> IsDigit(s[i])
    requires d < 10
    ensures ParseNumber(s + [Digit(d)], acc) == 10 * ParseNumber(s, acc) + d
  {
    if s == [] {
      assert [Digit(d)][1..] == [];
      assert s + [Digit(d)] == [Digit(d)];
      DigitValue(d);
    } else {
      assert (s + [Digit(d)])[1..] == s[1..] + [Digit(d)];
      ParseDigits(s[1..], d, 10 * acc + (s[0] - 0x30) as nat);
    }
  }

  lemma DigitValue(d: nat)
    requires d < 10
    ensures IsDigit(Digit(d)) && (Digit(d) - 0x30) as nat == d
  {
  }

  lemma {:induction false} ParseDecimal(n: nat)
    ensures ParseNumber(Decimal(n), 0) == n
  {
    if n < 10 {
      assert [Digit(n)][1..] == [];
      DigitValue(n);
    } else {
      ParseDecimal(n / 10);
      DecimalDigits(n / 10);
      ParseDigits(Decimal(n / 10), n % 10, 0);
    }
  }

  // ----- payloads -----------------------------------------------------------

  /** The payload of the first packet: name, NUL, decimal size, blank, zeros. */
  function FileInfo(name: seq<bv8>, size: nat): (p: seq<bv8>)
    requires FileInfoFits(name, size)
    ensures |p| == PACKET_SIZE
  {
    var text := name + [0] + Decimal(size) + [0x20];
    FileInfoLength(name, size);
    text + Repeat(0, PACKET_SIZE - |text|)
  }

  /** The callers' names: not empty, no NUL, at most the 64 bytes of the name buffer; at most nine digits. */
  predicate FileInfoFits(name: seq<bv8>, size: nat) {
    0 < |name| <= 64 && (forall i :: 0 <= i < |name| ==> name[i] != 0) && size < 1_000_000_000
  }

  lemma FileInfoLength(name: seq<bv8>, size: nat)
    requires FileInfoFits(name, size)
    ensures |Decimal(size)| <= 9
  {
    assert Power10(3) == 1000 && Power10(6) == 1000 * Power10(3) && Power10(9) == 1000 * Power10(6);
    DecimalLength(size, 9, Power10(9));
  }

  /** A block of the file, filled up with 0x1A. */
  function Block(chunk: seq<bv8>): (p: seq<bv8>)
    requires |chunk| <= PACKET_1K_SIZE
    ensures |p| == PACKET_1K_SIZE
  {
    chunk + Repeat(0x1A, PACKET_1K_SIZE - |chunk|)
  }

  // ----- building -----------------------------------------------------------

  method PrepareInitialPacket(data: array<bv8>, fileName: seq<bv8>, length: nat)
    requires data.Length == PACKET_1K_SIZE + PACKET_OVERHEAD && FileInfoFits(fileName, length)
    modifies data
    ensures IsPacket(data[..PACKET_SIZE + PACKET_OVERHEAD], SOH, 0, FileInfo(fileName, length))
  {
    FileInfoLength(fileName, length);
    data[0] := SOH;
    data[1] := 0x00;
    data[2] := 0xFF;
    var i := WriteFileInfo(data, fileName, Decimal(length));
    hide FileInfoFits, Decimal, Checksum;
    ghost var text := data[3..i];
    Fill(data, i, PACKET_SIZE + PACKET_HEADER, 0);
    assert data[3..PACKET_SIZE + PACKET_HEADER] == text + Repeat(0, PACKET_SIZE - |text|);
    AppendTrailer(data, PACKET_SIZE, SOH, 0, FileInfo(fileName, length));
  }

  method WriteFileInfo(data: array<bv8>, fileName: seq<bv8>, digits: seq<bv8>) returns (i: nat)
    requires PACKET_HEADER + |fileName| + |digits| + 2 <= data.Length
    modifies data
    ensures i == PACKET_HEADER + |fileName| + |digits| + 2 && data[PACKET_HEADER..i] == fileName + [0] + digits + [0x20]
    ensures forall k :: 0 <= k < PACKET_HEADER ==> data[k] == old(data[k])
  {
    i := CopyBytes(data, PACKET_HEADER, fileName);
    data[i] := 0x00;
    ghost var j := i + 1;
    assert data[PACKET_HEADER..j] == fileName + [0];
    i := CopyBytes(data, i + 1, digits);
    assert data[PACKET_HEADER..j] == fileName + [0];
    assert data[PACKET_HEADER..i] == data[PACKET_HEADER..j] + data[j..i];
    data[i] := 0x20;
    i := i + 1;
    assert data[PACKET_HEADER..i] == data[PACKET_HEADER..i - 1] + [0x20];
  }

  method CopyBytes(data: array<bv8>, at: nat, src: seq<bv8>) returns (end: nat)
    requires at + |src| <= data.Length
    modifies data
    ensures end == at + |src| && data[at..end] == src
    ensures forall k :: 0 <= k < at ==> data[k] == old(data[k])
  {
    end := at;
    var j := 0;
    while j < |src|
      invariant 0 <= j <= |src| && end == at + j
      invariant data[at..end] == src[..j]
      invariant forall k :: 0 <= k < at ==> data[k] == old(data[k])
    {
      data[end] := src[j];
      end, j := end + 1, j + 1;
    }
  }

  method Fill(data: array<bv8>, from: nat, to: nat, b: bv8)
    requires from <= to <= data.Length
    modifies data
    ensures data[from..to] == Repeat(b, to - from)
    ensures forall k :: 0 <= k < from ==> data[k] == old(data[k])
  {
    for j := from to to
      invariant data[from..j] == Repeat(b, j - from)
      invariant forall k :: 0 <= k < from ==> data[k] == old(data[k])
    {
      data[j] := b;
    }
  }

  method PrepareLastPacket(data: array<bv8>)
    requires data.Length == PACKET_1K_SIZE + PACKET_OVERHEAD
    modifies data
    ensures IsPacket(data[..PACKET_SIZE + PACKET_OVERHEAD], SOH, 0, Repeat(0, PACKET_SIZE))
  {
    hide Checksum;
    data[0] := SOH;
    data[1] := 0x00;
    data[2] := 0xFF;
    Fill(data, PACKET_HEADER, PACKET_SIZE + PACKET_HEADER, 0);
    AppendTrailer(data, PACKET_SIZE, SOH, 0, Repeat(0, PACKET_SIZE));
  }

  /** `rest` is what the file cursor has not read yet; `sizeBlk` of it is still to be sent. */
  method PreparePacket(data: array<bv8>, pktNo: bv8, sizeBlk: nat, rest: seq<bv8>) returns (left: seq<bv8>)
    requires data.Length == PACKET_1K_SIZE + PACKET_OVERHEAD && sizeBlk == |rest|
    modifies data
    ensures var size := if sizeBlk < PACKET_1K_SIZE then sizeBlk else PACKET_1K_SIZE;
      IsPacket(data[..PACKET_1K_SIZE + PACKET_OVERHEAD], STX, pktNo, Block(rest[..size])) && left == rest[size..]
  {
    hide Checksum;
    data[0] := STX;
    data[1] := pktNo;
    data[2] := !pktNo;
    var size := if sizeBlk < PACKET_1K_SIZE then sizeBlk else PACKET_1K_SIZE;
    left := rest[size..];
    var _ := CopyBytes(data, PACKET_HEADER, rest[..size]);
    Fill(data, size + PACKET_HEADER, PACKET_1K_SIZE + PACKET_HEADER, 0x1A);
    assert data[3..PACKET_1K_SIZE + PACKET_HEADER] == Block(rest[..size]);
    AppendTrailer(data, PACKET_1K_SIZE, STX, pktNo, Block(rest[..size]));
  }

  // ----- receiving ----------------------------------------------------------

  /** What Receive_Packet tells its caller. */
  datatype Received = Packet(no: bv8, payload: seq<bv8>) | EndOfTransmission | AbortBySender | AbortByUser | Failed

  /** The outcome for the bytes that arrive after a packet header and before the time-out. */
  ghost function BodyOutcome(header: bv8, rest: seq<bv8>): Received {
    var n := PayloadLength(header) + PACKET_OVERHEAD - 1;
    if |rest| >= n && rest[0] == !rest[1] && Checksum(rest[2..n]) == Zeros(16)
    then Packet(rest[0], rest[2..n - PACKET_TRAILER]) else Failed
  }

  /** The outcome for the bytes that arrive before the time-out. */
  ghost function Outcome(input: seq<bv8>): Received {
    if input == [] then Failed
    else if input[0] == SOH || input[0] == STX then BodyOutcome(input[0], input[1..])
    else if input[0] == EOT then EndOfTransmission
    else if input[0] == CA then (if |input| >= 2 && input[1] == CA then AbortBySender else Failed)
    else if input[0] == ABORT1 || input[0] == ABORT2 then AbortByUser
    else Failed
  }

  /** The serial port: the bytes that arrive before the current time-out. */
  class Port {
    var input: seq<bv8>

    constructor (input: seq<bv8>)
      ensures this.input == input
    {
      this.input := input;
    }

    /** Fails, with what there is consumed, when fewer than `count` bytes arrive. */
    method WaitChars(buf: array<bv8>, at: nat, count: nat) returns (ok: bool)
      requires at + count <= buf.Length
      modifies this, buf
      ensures ok == (|old(input)| >= count)
      ensures ok ==> input == old(input)[count..] && buf[at..at + count] == old(input)[..count]
      ensures !ok ==> input == []
      ensures forall k :: 0 <= k < buf.Length && !(at <= k < at + count) ==> buf[k] == old(buf[k])
    {
      ok := |input| >= count;
      var n := if ok then count else |input|;
      for i := 0 to n
        invariant input == old(input)
        invariant buf[at..at + i] == input[..i]
        invariant forall k :: 0 <= k < buf.Length && !(at <= k < at + count) ==> buf[k] == old(buf[k])
      {
        buf[at + i] := input[i];
      }
      input := input[n..];
    }
  }

  ghost predicate Reports(outcome: Received, ret: int, length: int, data: seq<bv8>) {
    match outcome
    case Packet(no, payload) =>
      ret == 0 && length == |payload| > 0 && |data| >= PACKET_HEADER + length
      && data[1] == no && data[PACKET_HEADER..PACKET_HEADER + length] == payload
    case EndOfTransmission => ret == 0 && length == 0
    case AbortBySender => ret == 0 && length == -1
    case AbortByUser => ret == 1
    case Failed => ret == -1
  }

  /** Returns the code of the source: 0 with the length, -1 for an error, 1 for a user abort. */
  method ReceivePacket(port: Port, data: array<bv8>) returns (ret: int, length: int)
    requires data.Length == PACKET_1K_SIZE + PACKET_OVERHEAD
    modifies port, data
    ensures Reports(Outcome(old(port.input)), ret, length, data[..])
  {
    hide BodyOutcome;
    length := 0;
    var c := new bv8[1];
    var ok := port.WaitChars(c, 0, 1);
    if !ok { return -1, length; }
    assert c[0..1][0] == old(port.input)[0];
    if c[0] == SOH || c[0] == STX {
      ret, length := ReceiveBody(port, data, c[0]);
    } else if c[0] == EOT {
      ret := 0;
    } else if c[0] == CA {
      ok := port.WaitChars(c, 0, 1);
      if ok { assert c[0..1][0] == old(port.input)[1]; }
      if ok && c[0] == CA { ret, length := 0, -1; } else { ret := -1; }
    } else if c[0] == ABORT1 || c[0] == ABORT2 {
      ret := 1;
    } else {
      ret := -1;
    }
  }

  /** The sequence number against its complement, and the checksum. */
  method BodyIsGood(data: array<bv8>, packetSize: nat) returns (good: bool)
    requires packetSize + PACKET_OVERHEAD <= data.Length
    ensures good <==> data[1] == !data[2] && Checksum(data[PACKET_HEADER..packetSize + PACKET_OVERHEAD]) == Zeros(16)
  {
    hide Checksum, WordBits;
    good := data[1] == !data[2];
    if good {
      var crc := Crc16(data, PACKET_HEADER, packetSize + PACKET_TRAILER);
      WordIsZero(crc);
      good := crc == 0;
    }
  }

  method ReceiveBody(port: Port, data: array<bv8>, c: bv8) returns (ret: int, length: int)
    requires data.Length == PACKET_1K_SIZE + PACKET_OVERHEAD && (c == SOH || c == STX)
    modifies port, data
    ensures Reports(BodyOutcome(c, old(port.input)), ret, length, data[..])
  {
    hide Checksum, BodyOutcome, Reports;
    ghost var rest := port.input;
    var packetSize := if c == SOH then PACKET_SIZE else PACKET_1K_SIZE;
    data[0] := c;
    var ok := port.WaitChars(data, 1, packetSize + PACKET_OVERHEAD - 1);
    ret, length := -1, 0;
    if ok {
      ok := BodyIsGood(data, packetSize);
      if ok { ret, length := 0, packetSize; }
    }
    ghost var got := data[..];
    assert got[PACKET_HEADER..packetSize + PACKET_OVERHEAD] == data[PACKET_HEADER..packetSize + PACKET_OVERHEAD];
    assert got[1..packetSize + PACKET_OVERHEAD] == data[1..packetSize + PACKET_OVERHEAD];
    BodyReports(c, rest, got, ret, length);
  }

  lemma BodyReports(c: bv8, rest: seq<bv8>, got: seq<bv8>, ret: int, length: int)
    requires |got| == PACKET_1K_SIZE + PACKET_OVERHEAD && (c == SOH || c == STX)
    requires var n := PayloadLength(c) + PACKET_OVERHEAD - 1;
      if |rest| >= n && got[1] == !got[2] && Checksum(got[PACKET_HEADER..n + 1]) == Zeros(16)
      then ret == 0 && length == PayloadLength(c) else ret == -1
    requires var n := PayloadLength(c) + PACKET_OVERHEAD - 1; |rest| >= n ==> got[1..n + 1] == rest[..n]
    ensures Reports(BodyOutcome(c, rest), ret, length, got)
  {
    hide Checksum;
    var n := PayloadLength(c) + PACKET_OVERHEAD - 1;
    if |rest| >= n { BodyBytes(got, rest, n); }
  }

  lemma BodyBytes(got: seq<bv8>, rest: seq<bv8>, n: nat)
    requires 4 <= n < |got| && n <= |rest| && got[1..n + 1] == rest[..n]
    ensures got[1] == rest[0] && got[2] == rest[1]
    ensures got[PACKET_HEADER..n + 1] == rest[2..n] && got[PACKET_HEADER..n - 1] == rest[2..n - PACKET_TRAILER]
  {
    assert forall k {:trigger got[k]} :: 1 <= k < n + 1 ==> got[k] == got[1..n + 1][k - 1];
  }

  lemma WordIsZero(w: bv16)
    ensures w == 0 <==> WordBits(w) == Zeros(16)
  {
    if WordBits(w) == Zeros(16) {
      ZeroBits(w);
    } else {
      ZeroWord();
    }
  }

  lemma ZeroBits(w: bv16)
    requires WordBits(w) == Zeros(16)
    ensures w == 0
  {
    assert forall i :: 0 <= i < 16 ==> !WordBits(w)[i];
    var v := Wide(w);
    assert v & 0x8000 == 0 by { assert !WordBits(w)[0]; }
    assert !WordBits(w)[1] && !WordBits(w)[2] && !WordBits(w)[3] && !WordBits(w)[4] && !WordBits(w)[5];
    assert !WordBits(w)[6] && !WordBits(w)[7] && !WordBits(w)[8] && !WordBits(w)[9] && !WordBits(w)[10];
    assert !WordBits(w)[11] && !WordBits(w)[12] && !WordBits(w)[13] && !WordBits(w)[14] && !WordBits(w)[15];
  }

  /** Whatever follows it on the line, a built packet arrives with its number and payload. */
  lemma BuiltPacketArrives(bytes: seq<bv8>, header: bv8, no: bv8, payload: seq<bv8>, more: seq<bv8>)
    requires IsPacket(bytes, header, no, payload)
    ensures Outcome(bytes + more) == Packet(no, payload)
  {
    hide Checksum;
    var rest := (bytes + more)[1..];
    var n := |bytes| - 1;
    assert bytes[0] == bytes[..3][0] && bytes[1] == bytes[..3][1] && bytes[2] == bytes[..3][2];
    assert rest[2..n] == bytes[PACKET_HEADER..];
    assert rest[2..n - PACKET_TRAILER] == payload;
  }

  /** A corruption within sixteen consecutive bits of payload and trailer makes the receiver reject the packet. */
  lemma CorruptedPacketFails(bytes: seq<bv8>, header: bv8, no: bv8, payload: seq<bv8>, bad: seq<bv8>, k: nat)
    requires IsPacket(bytes, header, no, payload)
    requires |bad| == |bytes| && bad[..PACKET_HEADER] == bytes[..PACKET_HEADER] && bad != bytes
    requires BurstAt(bytes[PACKET_HEADER..], bad[PACKET_HEADER..], k)
    ensures Outcome(bad) == Failed
  {
    hide Checksum, BurstAt;
    assert bad[0] == bad[..3][0] == bytes[..3][0] == header;
    assert bytes == bytes[..PACKET_HEADER] + bytes[PACKET_HEADER..] && bad == bad[..PACKET_HEADER] + bad[PACKET_HEADER..];
    BurstIsDetected(bytes[PACKET_HEADER..], bad[PACKET_HEADER..], k);
    assert bad[1..][2..|bad| - 1] == bad[PACKET_HEADER..];
  }

  // ----- the file name packet at the receiver -------------------------------

  function FirstZero(p: seq<bv8>, i: nat): (z: nat)
    requires i <= |p|
    ensures i <= z <= |p|
    decreases |p| - i
  {
    if i == |p| || p[i] == 0 then i else FirstZero(p, i + 1)
  }

  function SizeText(p: seq<bv8>, at: nat, n: nat): seq<bv8>
    decreases n
  {
    if n == 0 || at >= |p| || p[at] == 0x20 then [] else [p[at]] + SizeText(p, at + 1, n - 1)
  }

  function NameOf(p: seq<bv8>): seq<bv8> {
    var z := FirstZero(p, 0); p[..if z < 64 then z else 64]
  }

  function SizeOf(p: seq<bv8>): nat {
    ParseNumber(SizeText(p, FirstZero(p, 0) + 1, FILE_SIZE_LENGTH), 0)
  }

  /** A NUL ends the name, and a blank ends the size within the bytes, after less than sixteen characters. */
  ghost predicate EndsInside(p: seq<bv8>) {
    var text := SizeText(p, FirstZero(p, 0) + 1, FILE_SIZE_LENGTH);
    |text| < FILE_SIZE_LENGTH && FirstZero(p, 0) + 1 + |text| < |p|
  }

  lemma {:induction false} FirstZeroInFront(p: seq<bv8>, rest: seq<bv8>, i: nat)
    requires i <= |p| && FirstZero(p, i) < |p|
    ensures FirstZero(p + rest, i) == FirstZero(p, i)
    decreases |p| - i
  {
    if p[i] != 0 { FirstZeroInFront(p, rest, i + 1); }
  }

  lemma {:induction false} SizeTextInFront(p: seq<bv8>, rest: seq<bv8>, at: nat, n: nat)
    requires |SizeText(p, at, n)| < n && at + |SizeText(p, at, n)| < |p|
    ensures SizeText(p + rest, at, n) == SizeText(p, at, n)
    decreases n
  {
    if p[at] != 0x20 { SizeTextInFront(p, rest, at + 1, n - 1); }
  }

  /** What ends inside the payload is read no further: the bytes behind it do not matter. */
  lemma RestDoesNotMatter(p: seq<bv8>, rest: seq<bv8>)
    requires EndsInside(p)
    ensures EndsInside(p + rest) && SizeOf(p + rest) == SizeOf(p)
  {
    FirstZeroInFront(p, rest, 0);
    SizeTextInFront(p, rest, FirstZero(p, 0) + 1, FILE_SIZE_LENGTH);
  }

  /** The loop over the name: its counter never moves, so that only a NUL ends it. */
  method SkipName(data: array<bv8>) returns (filePtr: nat)
    requires data.Length >= PACKET_HEADER
    ensures PACKET_HEADER <= filePtr <= data.Length && filePtr - PACKET_HEADER == FirstZero(data[PACKET_HEADER..], 0)
  {
    ghost var p := data[PACKET_HEADER..];
    filePtr := PACKET_HEADER;
    while filePtr < data.Length && data[filePtr] != 0
      invariant PACKET_HEADER <= filePtr <= data.Length && FirstZero(p, 0) == FirstZero(p, filePtr - PACKET_HEADER)
    {
      filePtr := filePtr + 1;
    }
  }

  /** The loop over the size, which copies up to a blank or sixteen characters. */
  method CopySize(data: array<bv8>, from: nat, fileSize: array<bv8>) returns (i: nat)
    requires PACKET_HEADER <= from <= data.Length && fileSize.Length == FILE_SIZE_LENGTH && data != fileSize
    modifies fileSize
    ensures i <= FILE_SIZE_LENGTH && from + i <= data.Length
    ensures fileSize[..i] == SizeText(data[PACKET_HEADER..], from - PACKET_HEADER, FILE_SIZE_LENGTH)
  {
    hide SizeText;
    ghost var p, at := data[PACKET_HEADER..], from - PACKET_HEADER;
    i := 0;
    while from + i < data.Length && data[from + i] != 0x20 && i < FILE_SIZE_LENGTH
      invariant 0 <= i <= FILE_SIZE_LENGTH && from + i <= data.Length
      invariant SizeText(p, at, FILE_SIZE_LENGTH) == fileSize[..i] + SizeText(p, at + i, FILE_SIZE_LENGTH - i)
      decreases FILE_SIZE_LENGTH - i
    {
      ghost var before := fileSize[..i];
      SizeTextSteps(p, at + i, FILE_SIZE_LENGTH - i);
      TextGrows(before, p[at + i], SizeText(p, at + i + 1, FILE_SIZE_LENGTH - i - 1));
      fileSize[i] := data[from + i];
      assert fileSize[..i + 1] == before + [p[at + i]];
      i := i + 1;
    }
    SizeTextSteps(p, at + i, FILE_SIZE_LENGTH - i);
    assert fileSize[..i] + [] == fileSize[..i];
  }

  lemma SizeTextSteps(p: seq<bv8>, at: nat, n: nat)
    ensures SizeText(p, at, n) == if at < |p| && p[at] != 0x20 && n > 0 then [p[at]] + SizeText(p, at + 1, n - 1) else []
  {
  }

  /** The size of the first packet, with the source's arrays. `inside` tells that no access has left the packet
      buffer or file_size. */
  method ReadSize(data: array<bv8>, fileSize: array<bv8>) returns (inside: bool, size: nat)
    requires data.Length == PACKET_1K_SIZE + PACKET_OVERHEAD && fileSize.Length == FILE_SIZE_LENGTH && data != fileSize
    modifies fileSize
    ensures inside <==> EndsInside(data[PACKET_HEADER..])
    ensures inside ==> size == SizeOf(data[PACKET_HEADER..])
  {
    hide ParseNumber, SizeText, FirstZero;
    inside, size := false, 0;
    var filePtr := SkipName(data);
    if filePtr < data.Length {
      var i := CopySize(data, filePtr + 1, fileSize);
      inside := filePtr + 1 + i < data.Length && i < FILE_SIZE_LENGTH;
      if inside {
        fileSize[i] := 0;
        size := ParseNumber(fileSize[..i], 0);
      }
    }
  }

  /** The loops over the first packet. */
  method ParseName(p: seq<bv8>) returns (name: seq<bv8>)
    requires |p| >= 64
    ensures name == NameOf(p)
  {
    var i := 0;
    while i < 64 && p[i] != 0
      invariant i <= 64 && FirstZero(p, 0) == FirstZero(p, i)
    {
      i := i + 1;
    }
    name := p[..i];
  }

  method ParseSize(p: seq<bv8>) returns (size: nat)
    ensures size == SizeOf(p)
  {
    hide ParseNumber;
    var at := 0;
    while at < |p| && p[at] != 0
      invariant at <= |p| && FirstZero(p, 0) == FirstZero(p, at)
    {
      at := at + 1;
    }
    at := at + 1;
    ghost var start := at;
    var text: seq<bv8> := [];
    var i := 0;
    while at < |p| && p[at] != 0x20 && i < FILE_SIZE_LENGTH
      invariant i <= FILE_SIZE_LENGTH
      invariant SizeText(p, start, FILE_SIZE_LENGTH) == text + SizeText(p, at, FILE_SIZE_LENGTH - i)
      decreases FILE_SIZE_LENGTH - i
    {
      TextGrows(text, p[at], SizeText(p, at + 1, FILE_SIZE_LENGTH - i - 1));
      text := text + [p[at]];
      at, i := at + 1, i + 1;
    }
    assert SizeText(p, at, FILE_SIZE_LENGTH - i) == [] && text + [] == text;
    size := ParseNumber(text, 0);
  }

  lemma TextGrows(text: seq<bv8>, b: bv8, more: seq<bv8>)
    ensures text + ([b] + more) == (text + [b]) + more
  {
  }

  lemma {:induction false} FirstZeroIs(p: seq<bv8>, i: nat, z: nat)
    requires i <= z < |p| && p[z] == 0 && forall k :: i <= k < z ==> p[k] != 0
    ensures FirstZero(p, i) == z
    decreases z - i
  {
    if i < z { FirstZeroIs(p, i + 1, z); }
  }

  lemma {:induction false} SizeTextIs(p: seq<bv8>, at: nat, n: nat, text: seq<bv8>)
    requires at + |text| < |p| && |text| < n && p[at..at + |text|] == text && p[at + |text|] == 0x20
    requires forall k :: 0 <= k < |text| ==> text[k] != 0x20
    ensures SizeText(p, at, n) == text
    decreases n
  {
    if text != [] {
      assert p[at] == p[at..at + |text|][0];
      assert p[at + 1..at + |text|] == p[at..at + |text|][1..];
      SizeTextIs(p, at + 1, n - 1, text[1..]);
    }
  }

  lemma InfoParts(p: seq<bv8>, name: seq<bv8>, text: seq<bv8>, fill: seq<bv8>)
    requires p == name + [0] + text + [0x20] + fill
    ensures p[..|name|] == name && p[|name|] == 0
    ensures p[|name| + 1..|name| + 1 + |text|] == text && p[|name| + 1 + |text|] == 0x20
  {
    var head := name + [0];
    assert p == head + (text + [0x20] + fill);
    assert p[|head|..][..|text|] == text;
  }

  /** The receiver reads back the name and the size that the sender wrote. */
  lemma FileInfoParses(name: seq<bv8>, size: nat)
    requires FileInfoFits(name, size)
    ensures NameOf(FileInfo(name, size)) == name && SizeOf(FileInfo(name, size)) == size
    ensures FileInfo(name, size)[0] != 0 && EndsInside(FileInfo(name, size))
  {
    var p, text := FileInfo(name, size), Decimal(size);
    FileInfoLength(name, size);
    DecimalDigits(size);
    ParseDecimal(size);
    hide Decimal, ParseNumber;
    InfoParts(p, name, text, Repeat(0, 128 - |name + [0] + text + [0x20]|));
    FirstZeroIs(p, 0, |name|);
    SizeTextIs(p, |name| + 1, FILE_SIZE_LENGTH, text);
  }
}
