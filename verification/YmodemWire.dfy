/** The bytes and codes of a transfer, in literals: what each side writes, what it takes a byte for, and
    the codes with which it ends (common/ymodem.h:5-29, common/ymodem.c:123-535). */
module YmodemWire {
  import opened Options
  import opened Crc
  import opened YmodemPacket
  import opened YmodemProtocol
  import opened YmodemCode
  import opened YmodemReceive

  // ----- the sender ---------------------------------------------------------

  /** A sender that waits for an ACK: 0x06 is one, 0x15 asks for the frame again, 0x18 aborts with 98, every
      other byte and the tenth time-out give up with 90. */
  lemma WaitingForAck(f: File, s: Sender, input: Option<bv8>)
    requires FileInfoFits(f.name, |f.content|) && SenderReady(s)
    requires s.state == WaitInitAck || s.state == WaitDataAck || s.state == WaitEotAck || s.state == WaitLastAck
    ensures var (s', sent) := SenderStep(f, s, input);
      match input
      case None => if s.tries < 9 then s' == s.(tries := s.tries + 1) && sent == [] else s'.state == Returned(90) && sent == [Cancel]
      case Some(b) =>
        && (b == 0x15 ==> s' == s.(tries := 0) && sent == [if s.state == WaitEotAck then Eot else s.packet])
        && (b == 0x18 ==> s'.state == Returned(98) && sent == [Cancel])
        && (b == 0x06 ==> s'.state != s.state || s'.pos == s.pos + 1)
        && (b == 0x06 && s.state != WaitLastAck ==> s'.tries == 0)
        && (b != 0x06 && b != 0x15 && b != 0x18 ==> s'.state == Returned(90) && sent == [Cancel])
  {
    hide InitPacket;
  }

  /** After the ACKs of the file name and of the end mark only 0x43 lets the sender go on; otherwise it gives up with
      90, after 0x18 with a second cancel. */
  lemma WaitingForRequest(f: File, s: Sender, input: Option<bv8>)
    requires FileInfoFits(f.name, |f.content|) && SenderReady(s) && (s.state == WaitInitC || s.state == WaitEotC)
    ensures var (s', sent) := SenderStep(f, s, input);
      match input
      case None => if s.tries < 9 then s' == s.(tries := s.tries + 1) && sent == [] else s'.state == Returned(90) && sent == [Cancel]
      case Some(b) =>
        && (b != 0x43 ==> s'.state == Returned(90) && sent == if b == 0x18 then [Cancel, Cancel] else [Cancel])
        && (b == 0x43 ==> s'.tries == 0)
        && (b == 0x43 && s.state == WaitEotC ==> s'.state == WaitLastAck && sent == [LastPacket])
        && (b == 0x43 && s.state == WaitInitC ==> s'.state == (if s.size == 0 then WaitEotAck else WaitDataAck) && |sent| == 1)
  {
    hide InitPacket, Block;
  }

  /** At the start the sender asks up to 46 times for a receiver's 0x43, and ends with 99 otherwise. */
  lemma WaitingForReceiver(f: File, s: Sender, input: Option<bv8>)
    requires FileInfoFits(f.name, |f.content|) && SenderReady(s) && s.state == Polling
    ensures var (s', sent) := SenderStep(f, s, input);
      match input
      case None => if s.tries < 45 then s' == s.(tries := s.tries + 1) && sent == [Poll] else s'.state == Returned(99)
      case Some(b) => if b == 0x43 && s.tries < 45 then s'.state == WaitInitAck && sent == [InitPacket(f)] else s'.state == Returned(99)
  {
    hide InitPacket;
  }

  /** The sender after `n` time-outs from its start, when nothing comes. */
  function AfterPolls(f: File, n: nat): (s: Sender)
    requires FileInfoFits(f.name, |f.content|)
    ensures SenderReady(s)
  {
    if n == 0 then SenderStart(f)
    else
      var s := AfterPolls(f, n - 1);
      if s.state == Polling then SenderStep(f, s, None).0 else s
  }

  /** When nothing comes, the sender asks again 45 times and then ends with 99. */
  lemma {:induction false} PollsFortyFiveTimes(f: File, n: nat)
    requires FileInfoFits(f.name, |f.content|)
    ensures n <= 45 ==> AfterPolls(f, n).state == Polling && AfterPolls(f, n).tries == n
    ensures n > 45 ==> AfterPolls(f, n).state == Returned(99)
  {
    hide InitPacket;
    if n > 0 {
      PollsFortyFiveTimes(f, n - 1);
    }
  }

  /** The end of the last wait is code 0. */
  lemma LastAckIsSuccess(f: File, s: Sender)
    requires FileInfoFits(f.name, |f.content|) && SenderReady(s) && s.state == WaitLastAck
    ensures SenderStep(f, s, Some(0x06)).0.state == Returned(0) && SenderStep(f, s, Some(0x06)).1 == []
  {
    hide InitPacket;
  }

  /** Control frames as bytes. */
  lemma ControlBytes(bytes: seq<bv8>)
    ensures Encodes(bytes, Poll) <==> bytes == [0x43]
    ensures Encodes(bytes, Eot) <==> bytes == [0x04]
    ensures Encodes(bytes, Cancel) <==> bytes == [0x18, 0x18]
  {
  }

  /** Packets: 0x01 in front of 128 bytes, 0x02 in front of 1024, then the number and its complement. */
  lemma PacketHeader(bytes: seq<bv8>, no: nat, payload: seq<bv8>)
    requires Encodes(bytes, Pkt(no, payload))
    ensures |bytes| == |payload| + 5 && (|payload| == 128 || |payload| == 1024)
    ensures bytes[0] == if |payload| == 128 then 0x01 else 0x02
    ensures no < 256 && bytes[1] == no as bv8 && bytes[2] == !(no as bv8)
    ensures forall i :: 0 <= i < |payload| ==> bytes[3 + i] == payload[i]
  {
    hide Checksum;
    assert bytes[..3][0] == bytes[0] && bytes[..3][1] == bytes[1] && bytes[..3][2] == bytes[2];
    assert bytes[3..3 + |payload|] == payload;
    forall i | 0 <= i < |payload| ensures bytes[3 + i] == payload[i] {
      assert bytes[3..3 + |payload|][i] == bytes[3 + i];
    }
  }

  /** A block is filled up with 0x1A. */
  lemma BlockBytes(chunk: seq<bv8>, i: nat)
    requires |chunk| <= 1024 && i < 1024
    ensures Block(chunk)[i] == if i < |chunk| then chunk[i] else 0x1A
  {
  }

  /** The first packet: the name, a zero, the digits of the size, a blank, and zeros. */
  lemma FileInfoBytes(name: seq<bv8>, size: nat, i: nat)
    requires FileInfoFits(name, size) && i < 128
    ensures var p, n, d := FileInfo(name, size), |name|, |Decimal(size)|;
      && |p| == 128 && n + 1 + d < 128
      && p[i] == if i < n then name[i] else if i == n then 0 else if i < n + 1 + d then Decimal(size)[i - n - 1]
                 else if i == n + 1 + d then 0x20 else 0
  {
    FileInfoLength(name, size);
    hide Decimal;
    var text := name + [0] + Decimal(size) + [0x20];
    assert i < |text| ==>
      text[i] == (if i < |name| then name[i] else if i == |name| then 0 else if i < |text| - 1 then Decimal(size)[i - |name| - 1] else 0x20);
  }

  function TenTo(k: nat): (t: nat)
    ensures t > 0
  {
    if k == 0 then 1 else 10 * TenTo(k - 1)
  }

  /** The decimal digits of a number, the last one first. */
  lemma {:induction false} DecimalDigit(n: nat, k: nat)
    requires k < |Decimal(n)|
    ensures Decimal(n)[|Decimal(n)| - 1 - k] == Digit(n / TenTo(k) % 10)
    decreases n
  {
    hide Digit;
    if n >= 10 && k > 0 {
      DecimalDigit(n / 10, k - 1);
      DivideTwice(n, TenTo(k - 1));
    } else if n < 10 {
      assert k == 0;
    }
  }

  lemma DigitIs(d: nat)
    requires d < 10
    ensures Digit(d) as nat == 48 + d
  {
  }

  lemma DivideTwice(n: nat, t: nat)
    requires t > 0
    ensures n / 10 / t == n / (10 * t)
  {
    var q, r := n / 10 / t, n / 10 % t;
    assert n / 10 == q * t + r;
    var s := 10 * r + n % 10;
    assert n == 10 * (n / 10) + n % 10;
    assert 10 * (q * t) == q * (10 * t);
    assert n == q * (10 * t) + s && 0 <= s < 10 * t;
    QuotientIs(n, 10 * t, q, s);
  }

  lemma QuotientIs(n: nat, m: nat, q: nat, s: nat)
    requires m > 0 && n == q * m + s && s < m
    ensures n / m == q
  {
    var k := n / m;
    assert n == k * m + n % m;
    assert (k - q) * m == k * m - q * m && (q - k) * m == q * m - k * m;
    if k > q { AtLeast(k - q, m); } else if k < q { AtLeast(q - k, m); }
  }

  lemma AtLeast(d: nat, m: nat)
    requires d >= 1
    ensures d * m >= m
  {
    assert d * m == (d - 1) * m + m;
  }

  // ----- the receiver -------------------------------------------------------

  /** The name that is read: the bytes before the first NUL, 64 at most. */
  lemma NameIs(p: seq<bv8>)
    ensures var n := |NameOf(p)|; n <= 64 && n <= |p| && NameOf(p) == p[..n] && 0 !in p[..n] && (n < 64 && n < |p| ==> p[n] == 0)
  {
    FirstZeroIs(p, 0);
  }

  lemma {:induction false} FirstZeroIs(p: seq<bv8>, i: nat)
    requires i <= |p|
    ensures var z := FirstZero(p, i); i <= z <= |p| && (forall j :: i <= j < z ==> p[j] != 0) && (z < |p| ==> p[z] == 0)
    decreases |p| - i
  {
    if i < |p| && p[i] != 0 { FirstZeroIs(p, i + 1); }
  }

  lemma {:induction false} SizeTextEnds(p: seq<bv8>, at: nat, n: nat)
    requires at <= |p|
    ensures var k := |SizeText(p, at, n)|; k <= n && at + k <= |p| && SizeText(p, at, n) == p[at..at + k]
    ensures var k := |SizeText(p, at, n)|; (forall j :: at <= j < at + k ==> p[j] != 0x20) && (k < n && at + k < |p| ==> p[at + k] == 0x20)
    decreases n
  {
    if n > 0 && at < |p| && p[at] != 0x20 { SizeTextEnds(p, at + 1, n - 1); }
  }

  /** The first NUL is at `z`, and the first blank behind it, at `b`, has at most fifteen bytes before it. */
  predicate SizeStands(p: seq<bv8>, z: nat, b: nat) {
    && z < b < |p| && b - z <= 16 && p[z] == 0 && p[b] == 0x20
    && (forall i :: 0 <= i < z ==> p[i] != 0) && (forall i :: z < i < b ==> p[i] != 0x20)
  }

  /** The payloads whose size can be read, and the text of the size. */
  lemma EndsInsideIff(p: seq<bv8>)
    ensures EndsInside(p) <==> exists z: nat, b: nat :: SizeStands(p, z, b)
    ensures forall z: nat, b: nat :: SizeStands(p, z, b) ==> SizeOf(p) == ParseNumber(p[z + 1..b], 0)
  {
    var z := FirstZero(p, 0);
    FirstZeroIs(p, 0);
    if z < |p| { SizeTextEnds(p, z + 1, 16); }
    if EndsInside(p) {
      assert SizeStands(p, z, z + 1 + |SizeText(p, z + 1, 16)|);
    }
    forall z': nat, b: nat | SizeStands(p, z', b) ensures EndsInside(p) && SizeOf(p) == ParseNumber(p[z' + 1..b], 0) {
      assert z' == z;
      assert b == z + 1 + |SizeText(p, z + 1, 16)|;
    }
  }

  /** What the receiver takes the bytes of a call for. */
  lemma ControlReceived(rest: seq<bv8>)
    ensures Outcome([]) == Failed
    ensures Outcome([0x04] + rest) == EndOfTransmission
    ensures Outcome([0x18, 0x18] + rest) == AbortBySender
    ensures Outcome([0x41] + rest) == AbortByUser && Outcome([0x61] + rest) == AbortByUser
    ensures forall b :: b != 0x01 && b != 0x02 && b != 0x04 && b != 0x18 && b != 0x41 && b != 0x61 ==> Outcome([b] + rest) == Failed
    ensures rest != [] && rest[0] != 0x18 ==> Outcome([0x18] + rest) == Failed
  {
    hide BodyOutcome;
  }

  /** Control frames and failures: the end mark and a cancel are acknowledged with 0x06, an abort ends with -3,
      a failure is answered with 0x43, and the 46th failure in a row ends with 0. */
  lemma ControlReplies(r: Receiver, maxsize: nat)
    requires r.returned.None?
    ensures ReceiverStep(r, maxsize, Some(Eot)) == (r.(packets := 0), [0x06])
    ensures ReceiverStep(r, maxsize, Some(Cancel)) == (r.(returned := Some(0)), [0x06])
    ensures ReceiverStep(r, maxsize, Some(AbortKey)) == (r.(returned := Some(-3)), [0x18, 0x18])
    ensures var failed := if r.errors < 45 then (r.(errors := r.errors + 1), [0x43])
                          else (r.(errors := r.errors + 1, returned := Some(0)), [0x18, 0x18]);
      ReceiverStep(r, maxsize, None) == failed && ReceiverStep(r, maxsize, Some(Noise)) == failed && ReceiverStep(r, maxsize, Some(Poll)) == failed
  {
  }

  /** A packet of another number is refused with 0x15. */
  lemma WrongNumberReplies(r: Receiver, maxsize: nat, no: nat, payload: seq<bv8>)
    requires r.returned.None? && |payload| >= 64 && no != r.packets % 256
    ensures ReceiverStep(r, maxsize, Some(Pkt(no, payload))) ==
      if r.errors < 45 then (r.(errors := r.errors + 1), [0x15]) else (r.(errors := r.errors + 1, returned := Some(0)), [0x18, 0x18])
  {
  }

  /** A data packet is acknowledged with 0x06; as much of it is written as the file still needs. */
  lemma DataReplies(r: Receiver, maxsize: nat, payload: seq<bv8>)
    requires r.returned.None? && r.packets > 0 && r.open && |payload| >= 64
    ensures var (r', sent) := ReceiverStep(r, maxsize, Some(Pkt(r.packets % 256, payload)));
      && sent == [0x06] && r'.returned.None? && r'.packets == r.packets + 1 && r'.errors == 0
      && r'.file == r.file + (if r.fileLen >= r.size then [] else if r.fileLen + |payload| <= r.size then payload else payload[..r.size - r.fileLen])
  {
  }

  /** The first packet is acknowledged with 0x06 and 0x43; a size that is not taken ends with -4; an empty packet ends
      the session with the size of the file before. */
  lemma FirstReplies(r: Receiver, maxsize: nat, payload: seq<bv8>)
    requires r.returned.None? && r.packets == 0 && |payload| >= 64
    ensures var (r', sent) := ReceiverStep(r, maxsize, Some(Pkt(0, payload)));
      if payload[0] == 0 then sent == [0x06] && r'.returned == Some(r.size)
      else if 1 <= SizeOf(payload) <= maxsize then
        sent == [0x06, 0x43] && r'.returned.None? && r'.open && r'.packets == 1 && r'.file == [] && r'.fileLen == 0
        && r'.name == NameOf(payload) && r'.size == SizeOf(payload)
      else sent == [0x18, 0x18] && r'.returned == Some(-4)
  {
    hide NameOf, SizeOf;
  }

  /** The receiver after `n` time-outs from its start, when nothing comes. */
  function AfterTimeOuts(maxsize: nat, n: nat): Receiver {
    if n == 0 then ReceiverStart
    else
      var r := AfterTimeOuts(maxsize, n - 1);
      if r.returned.None? then ReceiverStep(r, maxsize, None).0 else r
  }

  /** When nothing comes, the receiver asks 45 times and ends with 0 at the next time-out. */
  lemma {:induction false} WaitsFortyFiveTimes(maxsize: nat, n: nat)
    ensures n <= 45 ==> AfterTimeOuts(maxsize, n).returned == None && AfterTimeOuts(maxsize, n).errors == n
    ensures n > 45 ==> AfterTimeOuts(maxsize, n).returned == Some(0)
  {
    if n > 0 {
      WaitsFortyFiveTimes(maxsize, n - 1);
    }
  }

  /** A session without a file is acknowledged and ends with 0. */
  lemma EmptySession(maxsize: nat)
    ensures var (r, sent) := ReceiverStep(ReceiverStart, maxsize, Some(LastPacket));
      r.returned == Some(0) && r.file == [] && sent == [0x06]
  {
    hide NameOf, SizeOf;
  }
}
