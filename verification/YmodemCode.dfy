/** Ymodem_Transmit with its loops, over a line whose replies are given: what it sends and
    returns is the run of the sender's state machine over these replies. */
module YmodemCode {
  import opened Options
  import opened Crc
  import opened YmodemPacket
  import opened YmodemProtocol

  /** The sender after the replies `script`, and all it has sent. */
  ghost function SenderRun(f: File, script: seq<Option<bv8>>): (r: (Sender, seq<Frame>))
    requires FileInfoFits(f.name, |f.content|)
    ensures SenderReady(r.0)
  {
    if script == [] then (SenderStart(f), [Poll])
    else
      var (s, sent) := SenderRun(f, script[..|script| - 1]);
      var (s', more) := SenderStep(f, s, script[|script| - 1]);
      ReadyAgain(f, s, script[|script| - 1]);
      (s', sent + more)
  }

  lemma ReadyAgain(f: File, s: Sender, input: Option<bv8>)
    requires FileInfoFits(f.name, |f.content|) && SenderReady(s)
    ensures SenderReady(SenderStep(f, s, input).0)
  {
  }

  lemma NextReply(f: File, script: seq<Option<bv8>>, at: nat)
    requires FileInfoFits(f.name, |f.content|) && at < |script|
    ensures var (s, sent) := SenderRun(f, script[..at]);
      SenderRun(f, script[..at + 1]) == (SenderStep(f, s, script[at]).0, sent + SenderStep(f, s, script[at]).1)
  {
    hide SenderStep;
    assert script[..at + 1][..at] == script[..at];
  }

  /** How a frame looks on the line. */
  ghost predicate Encodes(bytes: seq<bv8>, frame: Frame) {
    match frame
    case Pkt(no, payload) =>
      no < 256 && IsPacket(bytes, if |payload| == PACKET_SIZE then SOH else STX, no as bv8, payload)
    case Poll => bytes == [CRC16]
    case Eot => bytes == [EOT]
    case Cancel => bytes == [CA, CA]
    case _ => false
  }

  /** The serial line: bytes that wait there already, a script of replies, None for a time-out, and what was sent. */
  class Line {
    var stale: seq<bv8>
    const script: seq<Option<bv8>>
    var at: nat
    var sent: seq<seq<bv8>>
    ghost var frames: seq<Frame>

    constructor (stale: seq<bv8>, script: seq<Option<bv8>>)
      ensures this.stale == stale && this.script == script && at == 0 && sent == [] && frames == [] && Valid()
    {
      this.stale, this.script := stale, script;
      at, sent, frames := 0, [], [];
    }

    /** Every frame is on the line as bytes. */
    ghost predicate Valid()
      reads this
    {
      at <= |script| && |sent| == |frames| && forall i :: 0 <= i < |sent| ==> Encodes(sent[i], frames[i])
    }

    /** retarget_waitc before anything is sent: it fails when nothing waits. */
    method WaitC() returns (ok: bool)
      modifies this`stale
      ensures ok == (old(stale) != [])
      ensures ok ==> stale == old(stale)[1..]
      ensures !ok ==> stale == old(stale)
    {
      ok := stale != [];
      if ok { stale := stale[1..]; }
    }

    /** `ended` tells that the script is used up and the call would go on waiting. */
    method ReceiveByte() returns (input: Option<bv8>, ended: bool)
      requires Valid()
      modifies this`at
      ensures Valid()
      ensures ended == (old(at) == |script|)
      ensures if ended then at == old(at) else at == old(at) + 1 && input == script[old(at)]
    {
      ended := at == |script|;
      input := None;
      if !ended {
        input := script[at];
        at := at + 1;
      }
    }

    method Send(bytes: seq<bv8>, ghost frame: Frame)
      requires Valid() && Encodes(bytes, frame)
      modifies this`sent, this`frames
      ensures Valid() && frames == old(frames) + [frame] && sent == old(sent) + [bytes]
    {
      sent := sent + [bytes];
      frames := frames + [frame];
    }

    /** The sender's state machine is in `s` and has sent what is on the line and then `pending`. */
    ghost predicate Tracks(f: File, s: Sender, pending: seq<Frame>)
      requires FileInfoFits(f.name, |f.content|)
      reads this
    {
      at <= |script| && SenderRun(f, script[..at]) == (s, frames + pending)
    }

    /** The last reply gave the verdict `err` when `before` had been sent. */
    ghost predicate Verdicts(f: File, s: Sender, err: nat, before: seq<Frame>)
      requires FileInfoFits(f.name, |f.content|) && SenderReady(s)
      reads this
    {
      at <= |script| && SenderRun(f, script[..at]) == (Verdict(s, err).0, before + Verdict(s, err).1)
    }
  }

  predicate AwaitsReply(s: Sender) {
    s.state != Polling && !s.state.Returned?
  }

  function Awaited(s: Sender): bv8 {
    if s.state == WaitInitC || s.state == WaitEotC then CRC16 else ACK
  }

  /** The loop of Ymodem_WaitACK. The verdict's own frames are still to be sent, apart from
      the cancel that answers a CA. */
  method WaitAckLoop(line: Line, ackchr: bv8, tmo: nat, ghost f: File, ghost s: Sender)
    returns (err: nat, ended: bool, ghost s': Sender)
    requires FileInfoFits(f.name, |f.content|) && AwaitsReply(s) && ackchr == Awaited(s) && s.tries == 0 && tmo == WAIT_TRIES
    requires line.Tracks(f, s, []) && SenderReady(s)
    requires line.Valid()
    modifies line`at, line`sent, line`frames
    ensures line.Valid()
    ensures s' == s.(tries := s'.tries)
    ensures ended ==> line.at == |line.script| && line.Tracks(f, s', [])
    ensures !ended ==> line.at > old(line.at) && line.Verdicts(f, s', err, old(line.frames)) && err <= 4
    ensures !ended ==> line.frames == old(line.frames) + if err == 2 then [Cancel] else []
  {
    hide SenderRun, Verdict, SenderStep;
    CancelBytes();
    var errors := 0;
    s' := s;
    err := 4;
    while errors < tmo
      invariant 0 <= errors < tmo && s' == s.(tries := errors) && line.Tracks(f, s', []) && line.frames == old(line.frames)
      invariant line.Valid() && line.at >= old(line.at)
      decreases tmo - errors
    {
      var c;
      ghost var at := line.at;
      c, ended := line.ReceiveByte();
      if ended { break; }
      NextReply(f, line.script, at);
      StepOfReply(f, s', c);
      assert line.frames + [] == line.frames;
      if c.Some? {
        err := if c.value == ackchr then 1 else if c.value == CA then 2 else if c.value == NAK then 3 else 4;
        assert line.Verdicts(f, s', err, line.frames);
        if err == 2 { line.Send([CA, CA], Cancel); }
        return err, false, s';
      }
      if errors + 1 >= tmo {
        assert line.Verdicts(f, s', 0, line.frames);
        return 0, false, s';
      }
      errors := errors + 1;
      s' := s.(tries := errors);
    }
  }

  lemma StepOfReply(f: File, s: Sender, input: Option<bv8>)
    requires FileInfoFits(f.name, |f.content|) && AwaitsReply(s) && SenderReady(s)
    ensures match WaitAck(Awaited(s), s.tries, input)
      case None => SenderStep(f, s, input) == (s.(tries := s.tries + 1), [])
      case Some(err) => SenderStep(f, s, input) == Verdict(s, err)
  {
    hide Verdict;
  }

  /** Waiting for the ACK of a frame that is sent again after a NAK. */
  predicate AwaitsAckOf(s: Sender, frame: Frame) {
    && SenderReady(s)
    && (s.state == WaitInitAck || s.state == WaitDataAck || s.state == WaitEotAck || s.state == WaitLastAck)
    && frame == if s.state == WaitEotAck then Eot else s.packet
  }

  lemma NotAckedVerdict(s: Sender, frame: Frame, err: nat)
    requires AwaitsAckOf(s, frame) && err != 1
    ensures Verdict(s, err) == NotAcked(s, err, frame)
  {
  }

  /** Sends a frame until it is acknowledged; `code` is what Ymodem_Transmit returns, 0 to go on. */
  method SendUntilAcked(line: Line, bytes: seq<bv8>, ghost frame: Frame, ghost f: File, ghost s: Sender)
    returns (code: int, ended: bool, ghost s': Sender)
    requires FileInfoFits(f.name, |f.content|) && AwaitsAckOf(s, frame) && s.tries == 0 && Encodes(bytes, frame)
    requires line.Tracks(f, s, [frame])
    requires line.Valid()
    modifies line`at, line`sent, line`frames
    ensures line.Valid()
    ensures ended ==> line.at == |line.script| && line.Tracks(f, s', []) && AwaitsReply(s')
    ensures !ended && code == 0 ==> s' == s.(tries := s'.tries) && SenderReady(s') && line.Verdicts(f, s', 1, line.frames)
    ensures !ended && code != 0 ==> line.Tracks(f, s', []) && s'.state == Returned(code)
  {
    hide Encodes, SenderRun, Verdict;
    CancelBytes();
    var err := 3;
    s', ended, code := s, false, 0;
    while err == 3
      invariant line.Valid() && !ended && code == 0
      invariant err == 3 ==> s' == s && line.Tracks(f, s, [frame])
      invariant err != 3 ==> err == 1 && s' == s.(tries := s'.tries) && line.Verdicts(f, s', 1, line.frames)
      decreases err == 3, |line.script| - line.at
    {
      ghost var before := line.frames + [frame];
      line.Send(bytes, frame);
      assert line.frames + [] == before;
      err, ended, s' := WaitAckLoop(line, ACK, WAIT_TRIES, f, s);
      if ended { return; }
      if err != 1 { NotAckedVerdict(s', frame, err); }
      assert line.frames + [] == line.frames && before + [] == before;
      if err == 0 || err == 4 {
        line.Send([CA, CA], Cancel);
        s' := s'.(state := Returned(90));
        assert line.frames + [] == line.frames;
        return 90, false, s';
      } else if err == 2 {
        s' := s'.(state := Returned(98));
        return 98, false, s';
      } else if err == 3 {
        s' := s'.(tries := 0);
      }
    }
  }

  /** The wait for the 'C' that follows an ACK. */
  method WaitRequest(line: Line, ghost f: File, ghost s: Sender) returns (code: int, ended: bool, ghost s': Sender)
    requires FileInfoFits(f.name, |f.content|) && SenderReady(s) && s.tries == 0
    requires (s.state == WaitInitC || s.state == WaitEotC) && line.Tracks(f, s, [])
    requires line.Valid()
    modifies line`at, line`sent, line`frames
    ensures line.Valid()
    ensures ended ==> line.at == |line.script| && line.Tracks(f, s', []) && AwaitsReply(s')
    ensures !ended && code == 0 ==> s' == s.(tries := s'.tries) && SenderReady(s') && line.Verdicts(f, s', 1, line.frames)
    ensures !ended && code != 0 ==> line.Tracks(f, s', []) && s'.state == Returned(code)
  {
    hide SenderRun, Verdict;
    CancelBytes();
    ghost var before := line.frames;
    var err;
    err, ended, s' := WaitAckLoop(line, CRC16, WAIT_TRIES, f, s);
    code := 0;
    assert before + [] == before;
    if !ended && err != 1 {
      NoRequestVerdict(s', err);
      line.Send([CA, CA], Cancel);
      s' := s'.(state := Returned(90));
      assert line.frames == before + if err == 2 then [Cancel, Cancel] else [Cancel];
      assert line.frames + [] == line.frames;
      code := 90;
    }
  }

  lemma NoRequestVerdict(s: Sender, err: nat)
    requires SenderReady(s) && (s.state == WaitInitC || s.state == WaitEotC) && err != 1
    ensures Verdict(s, err) == GiveUpAfter(s, err, 90)
  {
  }

  lemma CancelBytes()
    ensures Encodes([CA, CA], Cancel) && Encodes([CRC16], Poll) && Encodes([EOT], Eot)
  {
  }

  lemma PacketBytes(bytes: seq<bv8>, header: bv8, no: nat, payload: seq<bv8>)
    requires no < 256 && IsPacket(bytes, header, no as bv8, payload)
    ensures Encodes(bytes, Pkt(no, payload))
  {
    hide Checksum;
  }

  /** The 'C' loop at the start. */
  method AwaitReceiver(line: Line, ghost f: File) returns (code: int, ended: bool, ghost s: Sender)
    requires FileInfoFits(f.name, |f.content|) && line.at == 0 && line.frames == []
    requires line.Valid()
    modifies line`at, line`sent, line`frames
    ensures line.Valid()
    ensures ended ==> line.at == |line.script| && line.Tracks(f, s, []) && s.state == Polling
    ensures !ended && code == 0 ==> s == InitSent(f) && line.Tracks(f, s, [InitPacket(f)])
    ensures !ended && code != 0 ==> line.Tracks(f, s, []) && s.state == Returned(code)
  {
    hide Encodes, FileInfoFits, SenderRun, SenderStep, InitPacket;
    CancelBytes();
    SenderRunStart(f, line.script, line.frames);
    s, ended := SenderStart(f), false;
    var err, input, again := 0, None, true;
    while again
      invariant line.Valid() && !ended && err <= 45
      invariant s == SenderStart(f).(tries := err)
      invariant again ==> line.Tracks(f, s, [Poll])
      invariant !again ==> line.at <= |line.script| && SenderRun(f, line.script[..line.at]) == (SenderStep(f, s, input).0, line.frames + SenderStep(f, s, input).1)
      invariant !again ==> input.Some? || err >= 45
      decreases again, |line.script| - line.at
    {
      ghost var at := line.at;
      ghost var before := line.frames + [Poll];
      line.Send([CRC16], Poll);
      assert line.frames + [] == before;
      input, ended := line.ReceiveByte();
      if ended { return 0, true, s; }
      NextReply(f, line.script, at);
      StepOfPoll(f, s, input);
      again := input.None? && err < 45;
      if again {
        err := err + 1;
        s := s.(tries := err);
      }
    }
    StepOfPoll(f, s, input);
    code := 0;
    if err >= 45 || input != Some(CRC16) {
      line.Send([CA, CA], Cancel);
      s := s.(state := Returned(99));
      assert line.frames + [] == line.frames;
      code := 99;
    } else {
      s := InitSent(f);
    }
  }

  function InitSent(f: File): Sender
    requires FileInfoFits(f.name, |f.content|)
  {
    SenderStart(f).(state := WaitInitAck, pos := 0, packet := InitPacket(f))
  }

  lemma SenderRunStart(f: File, script: seq<Option<bv8>>, frames: seq<Frame>)
    requires FileInfoFits(f.name, |f.content|) && frames == []
    ensures SenderRun(f, script[..0]) == (SenderStart(f), frames + [Poll])
  {
    assert frames + [Poll] == [Poll];
  }

  lemma StepOfPoll(f: File, s: Sender, input: Option<bv8>)
    requires FileInfoFits(f.name, |f.content|) && SenderReady(s) && s.state == Polling && s == SenderStart(f).(tries := s.tries)
    ensures SenderStep(f, s, input) ==
      if input == None && s.tries < 45 then (s.(tries := s.tries + 1), [Poll])
      else if input == Some(CRC16) && s.tries < 45 then (InitSent(f), [InitPacket(f)])
      else (s.(state := Returned(99)), [Cancel])
  {
    hide InitPacket;
  }

  /** The sender has sent everything but its next block or end mark. */
  ghost predicate AtBlock(line: Line, f: File, s: Sender)
    requires FileInfoFits(f.name, |f.content|)
    reads line
  {
    && line.at <= |line.script| && s.size == |s.rest|
    && SenderRun(f, line.script[..line.at]) == (NextBlock(s).0, line.frames + NextBlock(s).1)
  }

  /** The first packet and the 'C' that asks for the blocks. */
  method SendInit(line: Line, data: array<bv8>, f: File) returns (code: int, ended: bool, ghost s: Sender)
    requires FileInfoFits(f.name, |f.content|) && data.Length == PACKET_1K_SIZE + PACKET_OVERHEAD
    requires line.Tracks(f, InitSent(f), [InitPacket(f)])
    requires line.Valid()
    modifies line`at, line`sent, line`frames, data
    ensures line.Valid()
    ensures ended ==> line.at == |line.script| && line.Tracks(f, s, []) && AwaitsReply(s)
    ensures !ended && code == 0 ==> s.rest == f.content && s.blkNumber == 1 && AtBlock(line, f, s)
    ensures !ended && code != 0 ==> line.Tracks(f, s, []) && s.state == Returned(code)
  {
    hide Encodes, FileInfoFits, SenderRun, IsPacket, FileInfo, NextBlock;
    PrepareInitialPacket(data, f.name, |f.content|);
    PacketBytes(data[..PACKET_SIZE + PACKET_OVERHEAD], SOH, 0, FileInfo(f.name, |f.content|));
    code, ended, s := SendUntilAcked(line, data[..PACKET_SIZE + PACKET_OVERHEAD], InitPacket(f), f, InitSent(f));
    if ended || code != 0 { return; }
    assert line.frames + [] == line.frames;
    s := s.(state := WaitInitC, tries := 0);
    code, ended, s := WaitRequest(line, f, s);
    if !ended && code == 0 { s := s.(blkNumber := 1); }
  }

  /** The file's blocks. */
  method SendBlocks(line: Line, data: array<bv8>, f: File, ghost s0: Sender) returns (code: int, ended: bool, ghost s: Sender)
    requires FileInfoFits(f.name, |f.content|) && data.Length == PACKET_1K_SIZE + PACKET_OVERHEAD
    requires s0.rest == f.content && s0.blkNumber == 1 && AtBlock(line, f, s0)
    requires line.Valid()
    modifies line`at, line`sent, line`frames, data
    ensures line.Valid()
    ensures ended ==> line.at == |line.script| && line.Tracks(f, s, []) && AwaitsReply(s)
    ensures !ended && code == 0 ==> s.rest == [] && AtBlock(line, f, s)
    ensures !ended && code != 0 ==> line.Tracks(f, s, []) && s.state == Returned(code)
  {
    hide Encodes, FileInfoFits, SenderRun, IsPacket, Block, Verdict;
    var size, blkNumber, rest := |f.content|, 1, f.content;
    s, code, ended := s0, 0, false;
    while size > 0
      invariant line.Valid() && !ended && code == 0 && AtBlock(line, f, s)
      invariant s.rest == rest && s.size == size && s.blkNumber == blkNumber
    {
      ghost var chunk := rest[..if size < PACKET_1K_SIZE then size else PACKET_1K_SIZE];
      rest := PreparePacket(data, (blkNumber % 256) as bv8, size, rest);
      ghost var packet := Pkt(blkNumber % 256, Block(chunk));
      PacketBytes(data[..PACKET_1K_SIZE + PACKET_OVERHEAD], STX, blkNumber % 256, Block(chunk));
      s := NextBlock(s).0;
      code, ended, s := SendUntilAcked(line, data[..PACKET_1K_SIZE + PACKET_OVERHEAD], packet, f, s);
      if ended || code != 0 { return; }
      BlockAcked(s);
      blkNumber := (blkNumber + 1) % 65536;
      size := if size > PACKET_1K_SIZE then size - PACKET_1K_SIZE else 0;
      s := s.(blkNumber := blkNumber, size := size);
    }
  }

  lemma BlockAcked(s: Sender)
    requires SenderReady(s) && s.state == WaitDataAck
    ensures Verdict(s, 1) ==
      NextBlock(s.(blkNumber := (s.blkNumber + 1) % 65536, size := if s.size > PACKET_1K_SIZE then s.size - PACKET_1K_SIZE else 0))
  {
    hide NextBlock;
  }

  /** The end mark, the request for another file and the empty packet that refuses it. */
  method SendEnd(line: Line, data: array<bv8>, f: File, ghost s0: Sender) returns (code: int, ended: bool, ghost s: Sender)
    requires FileInfoFits(f.name, |f.content|) && data.Length == PACKET_1K_SIZE + PACKET_OVERHEAD
    requires s0.rest == [] && AtBlock(line, f, s0)
    requires line.Valid()
    modifies line`at, line`sent, line`frames, data
    ensures line.Valid()
    ensures ended ==> line.at == |line.script| && line.Tracks(f, s, []) && AwaitsReply(s)
    ensures !ended ==> line.Tracks(f, s, []) && s.state == Returned(code)
  {
    hide Encodes, FileInfoFits, SenderRun, IsPacket;
    CancelBytes();
    s := NextBlock(s0).0;
    code, ended, s := SendUntilAcked(line, [EOT], Eot, f, s);
    if ended || code != 0 { return; }
    assert line.frames + [] == line.frames;
    s := s.(state := WaitEotC, tries := 0);
    code, ended, s := WaitRequest(line, f, s);
    if ended || code != 0 { return; }
    s := s.(state := WaitLastAck, pos := s.pos + 1, packet := LastPacket, tries := 0);
    PrepareLastPacket(data);
    PacketBytes(data[..PACKET_SIZE + PACKET_OVERHEAD], SOH, 0, Repeat(0, PACKET_SIZE));
    code, ended, s := SendUntilAcked(line, data[..PACKET_SIZE + PACKET_OVERHEAD], LastPacket, f, s);
    if ended || code != 0 { return; }
    assert line.frames + [] == line.frames;
    s := s.(state := Returned(0));
  }

  /** The loop that throws away what has come in before. */
  method Drain(line: Line)
    modifies line`stale
    ensures line.stale == []
  {
    var ok := line.WaitC();
    while ok
      invariant !ok ==> line.stale == []
      decreases ok, |line.stale|
    {
      ok := line.WaitC();
    }
  }

  /** Ymodem_Transmit over the replies of `line`, whatever has come in before: when it returns, the sender's state machine
      has returned the same code and has sent the frames whose bytes are on the line; when
      the replies run out first, the machine is still waiting. */
  method Transmit(line: Line, f: File) returns (code: int, ended: bool, ghost s: Sender)
    requires FileInfoFits(f.name, |f.content|) && line.at == 0 && line.frames == []
    requires line.Valid()
    modifies line
    ensures line.Valid() && line.stale == []
    ensures line.at <= |line.script| && SenderRun(f, line.script[..line.at]) == (s, line.frames)
    ensures if ended then line.at == |line.script| && !s.state.Returned? else s.state == Returned(code)
  {
    hide Encodes, FileInfoFits, SenderRun, IsPacket, AtBlock, SenderReady;
    var data := new bv8[PACKET_1K_SIZE + PACKET_OVERHEAD];
    Drain(line);
    code, ended, s := AwaitReceiver(line, f);
    if !ended && code == 0 {
      code, ended, s := SendInit(line, data, f);
      if !ended && code == 0 {
        code, ended, s := SendBlocks(line, data, f, s);
        if !ended && code == 0 {
          code, ended, s := SendEnd(line, data, f, s);
        }
      }
    }
    assert line.frames + [] == line.frames;
  }
}
