/** Safety of every run of the transfer: the receiver's file is always a beginning of the
    sender's, and a sender that reports success leaves an equal file behind. */
module YmodemSafety {
  import opened Options
  import opened YmodemPacket
  import opened YmodemProtocol

  // ----- the numbered frames of a transfer ----------------------------------

  function Blocks(f: File): nat {
    (|f.content| + PACKET_1K_SIZE - 1) / PACKET_1K_SIZE
  }

  /** The number of bytes in the first `k` blocks. */
  function Upto(f: File, k: nat): (n: nat)
    ensures n <= |f.content|
  {
    if PACKET_1K_SIZE * k < |f.content| then PACKET_1K_SIZE * k else |f.content|
  }

  function Chunk(f: File, k: nat): (c: seq<bv8>)
    requires k > 0
    ensures |c| <= PACKET_1K_SIZE
  {
    f.content[Upto(f, k - 1)..Upto(f, k)]
  }

  function FrameAt(f: File, pos: int): Frame
    requires FileInfoFits(f.name, |f.content|)
  {
    if pos < 0 then Poll
    else if pos == 0 then InitPacket(f)
    else if pos <= Blocks(f) then Pkt(pos % 256, Block(Chunk(f, pos)))
    else if pos == Blocks(f) + 1 then Eot
    else LastPacket
  }

  /** The number of the frame that the receiver waits for. */
  function Expected(f: File, r: Receiver): nat {
    if r.packets == 0 && r.open then Blocks(f) + 2 else r.packets
  }

  /** The number of ACKs that the sender has consumed. */
  function Acked(f: File, s: Sender): int {
    match s.state
    case Polling => 0
    case WaitInitC => 1
    case WaitEotC => Blocks(f) + 2
    case WaitLastAck => Blocks(f) + 2
    case _ => s.pos
  }

  function Acks(back: seq<bv8>): nat {
    if back == [] then 0 else Acks(back[..|back| - 1]) + if back[|back| - 1] == ACK then 1 else 0
  }

  // ----- the invariant ------------------------------------------------------

  ghost predicate SenderInv(f: File, s: Sender)
    requires FileInfoFits(f.name, |f.content|)
  {
    match s.state
    case Polling => s.pos == -1 && s.size == |f.content| && s.rest == f.content
    case WaitInitAck => s.pos == 0 && s.packet == FrameAt(f, 0) && s.size == |f.content| && s.rest == f.content
    case WaitInitC => s.pos == 0 && s.size == |f.content| && s.rest == f.content
    case WaitDataAck =>
      && 1 <= s.pos <= Blocks(f) && s.packet == FrameAt(f, s.pos) && s.blkNumber == s.pos % 65536
      && s.size == |f.content| - PACKET_1K_SIZE * (s.pos - 1) && s.rest == f.content[Upto(f, s.pos)..]
    case WaitEotAck => s.pos == Blocks(f) + 1
    case WaitEotC => s.pos == Blocks(f) + 1
    case WaitLastAck => s.pos == Blocks(f) + 2 && s.packet == LastPacket
    case Returned(code) => -1 <= s.pos <= Blocks(f) + 2 && (code == 0 ==> s.pos == Blocks(f) + 2)
  }

  ghost predicate ReceiverInv(f: File, r: Receiver) {
    var e := Expected(f, r);
    && e <= Blocks(f) + 2
    && (e == 0 ==> !r.open && r.file == [])
    && (1 <= e <= Blocks(f) + 1 ==>
          r.open && r.size == |f.content| && r.fileLen == PACKET_1K_SIZE * (e - 1) && r.file == f.content[..Upto(f, e - 1)])
    && (e == Blocks(f) + 2 ==> r.packets == 0 && r.open && r.file == f.content)
  }

  /** The least number of a frame that may still be on the line. */
  function Oldest(f: File, e: nat): int {
    if e <= Blocks(f) + 1 then e - 1 else Blocks(f) + 1
  }

  predicate Failed(s: Sender) {
    s.state.Returned? && s.state.code != 0
  }

  /** Only a sender that has failed has cancelled. */
  ghost predicate ItemInv(f: File, item: Item, low: int, s: Sender)
    requires FileInfoFits(f.name, |f.content|)
  {
    && low <= item.pos <= s.pos
    && (item.frame == FrameAt(f, item.pos) || item.frame == Noise || item.frame == AbortKey
        || (item.frame == Cancel && Failed(s)))
  }

  ghost predicate LineInv(f: File, fwd: seq<Item>, low: int, s: Sender)
    requires FileInfoFits(f.name, |f.content|)
  {
    && (forall i :: 0 <= i < |fwd| ==> ItemInv(f, fwd[i], low, s))
    && (forall i, j :: 0 <= i < j < |fwd| ==> fwd[i].pos <= fwd[j].pos)
  }

  /** How far the two machines can be apart; `pending` counts ACKs taken from the line but not acted on. */
  ghost predicate ProgressInv(f: File, s: Sender, e: nat, back: seq<bv8>, pending: nat) {
    if e <= Blocks(f) + 1 then
      && e - 1 <= s.pos <= e
      && (!s.state.Returned? ==> Acked(f, s) + Acks(back) + pending <= e)
      && s.state != Returned(0)
    else
      s.pos >= Blocks(f) + 1
  }

  ghost predicate InvWith(w: World, pending: nat) {
    && FileInfoFits(w.f.name, |w.f.content|)
    && SenderInv(w.f, w.sender)
    && ReceiverInv(w.f, w.receiver)
    && var e := Expected(w.f, w.receiver);
      && LineInv(w.f, w.fwd, Oldest(w.f, e), w.sender)
      && ProgressInv(w.f, w.sender, e, w.back, pending)
  }

  ghost predicate Inv(w: World) {
    InvWith(w, 0)
  }

  // ----- arithmetic of the blocks -------------------------------------------

  lemma BlockBounds(f: File)
    ensures PACKET_1K_SIZE * (Blocks(f) - 1) < |f.content| <= PACKET_1K_SIZE * Blocks(f)
  {
  }

  lemma InvIsWellformed(w: World)
    requires Inv(w)
    ensures Wellformed(w)
  {
    BlockBounds(w.f);
    forall i | 0 <= i < |w.fwd| && w.fwd[i].frame.Pkt? ensures |w.fwd[i].frame.payload| >= 64 {
      assert ItemInv(w.f, w.fwd[i], Oldest(w.f, Expected(w.f, w.receiver)), w.sender);
    }
  }

  // ----- the sender keeps the invariant -------------------------------------

  lemma LineGrows(f: File, fwd: seq<Item>, low: int, s: Sender, s': Sender, frames: seq<Frame>)
    requires FileInfoFits(f.name, |f.content|)
    requires LineInv(f, fwd, low, s) && low <= s'.pos && s.pos <= s'.pos && (Failed(s) ==> Failed(s'))
    requires forall i :: 0 <= i < |frames| ==> frames[i] == FrameAt(f, s'.pos) || (frames[i] == Cancel && Failed(s'))
    ensures LineInv(f, fwd + Items(s'.pos, frames), low, s')
  {
    hide FrameAt;
    var all := fwd + Items(s'.pos, frames);
    forall i | 0 <= i < |all| ensures ItemInv(f, all[i], low, s') {
      if i < |fwd| { assert ItemInv(f, fwd[i], low, s); }
    }
  }

  /** After the block numbered `pos` the next packet is the block numbered `pos + 1` or the end mark. */
  lemma NextBlockIsNextFrame(f: File, s: Sender, pos: nat)
    requires FileInfoFits(f.name, |f.content|) && s.pos == pos && pos <= Blocks(f)
    requires s.size == (if PACKET_1K_SIZE * pos < |f.content| then |f.content| - PACKET_1K_SIZE * pos else 0)
    requires s.rest == f.content[Upto(f, pos)..] && s.blkNumber == (pos + 1) % 65536
    ensures var (s', sent) := NextBlock(s);
      && sent == [FrameAt(f, pos + 1)] && s'.pos == pos + 1 && SenderInv(f, s')
      && Acked(f, s') == pos + 1 && !s'.state.Returned?
  {
    BlockBounds(f);
    if s.size > 0 {
      var n := if s.size < PACKET_1K_SIZE then s.size else PACKET_1K_SIZE;
      assert s.rest[..n] == Chunk(f, pos + 1);
      assert s.rest[n..] == f.content[Upto(f, pos + 1)..];
      assert s.blkNumber % 256 == (pos + 1) % 256;
    }
  }

  ghost predicate SenderKept(f: File, s: Sender, next: (Sender, seq<Frame>), e: nat, back: seq<bv8>)
    requires FileInfoFits(f.name, |f.content|)
  {
    var (s', sent) := next;
    && SenderInv(f, s') && s'.pos >= s.pos && ProgressInv(f, s', e, back, 0)
    && forall i :: 0 <= i < |sent| ==> sent[i] == FrameAt(f, s'.pos) || (sent[i] == Cancel && Failed(s'))
  }

  ghost predicate SenderBefore(f: File, s: Sender, e: nat, back: seq<bv8>, acked: bool)
    requires FileInfoFits(f.name, |f.content|)
  {
    && SenderInv(f, s) && SenderReady(s) && !s.state.Returned? && e <= Blocks(f) + 2
    && ProgressInv(f, s, e, back, if acked then 1 else 0)
  }

  lemma HandshakeKeeps(f: File, s: Sender, e: nat, back: seq<bv8>, input: Option<bv8>)
    requires FileInfoFits(f.name, |f.content|) && SenderBefore(f, s, e, back, input == Some(ACK)) && s.state == Polling
    ensures SenderKept(f, s, Handshake(f, s, input), e, back)
  {
  }

  /** An acknowledged block is followed by the next one or by the end mark. */
  lemma BlockAckKeeps(f: File, s: Sender, e: nat, back: seq<bv8>)
    requires FileInfoFits(f.name, |f.content|) && SenderBefore(f, s, e, back, true) && s.state == WaitDataAck
    ensures SenderKept(f, s, Verdict(s, 1), e, back)
  {
    hide FrameAt, Chunk, Block, Acks;
    BlockBounds(f);
    var t := s.(blkNumber := (s.blkNumber + 1) % 65536, size := if s.size > PACKET_1K_SIZE then s.size - PACKET_1K_SIZE else 0);
    assert t.size == if PACKET_1K_SIZE * s.pos < |f.content| then |f.content| - PACKET_1K_SIZE * s.pos else 0;
    assert Verdict(s, 1) == NextBlock(t);
    hide Verdict, NextBlock;
    NextBlockIsNextFrame(f, t, s.pos);
  }

  /** An ACK moves the sender on. */
  lemma AckKeeps(f: File, s: Sender, e: nat, back: seq<bv8>)
    requires FileInfoFits(f.name, |f.content|) && SenderBefore(f, s, e, back, true)
    requires s.state != Polling && s.state != WaitInitC && s.state != WaitEotC
    ensures SenderKept(f, s, Verdict(s, 1), e, back)
  {
    if s.state == WaitDataAck { BlockAckKeeps(f, s, e, back); } else { hide NextBlock, Chunk, Block; }
  }

  /** So does the 'C' after the file name and after the end mark. */
  lemma RequestKeeps(f: File, s: Sender, e: nat, back: seq<bv8>)
    requires FileInfoFits(f.name, |f.content|) && SenderBefore(f, s, e, back, false)
    requires s.state == WaitInitC || s.state == WaitEotC
    ensures SenderKept(f, s, Verdict(s, 1), e, back)
  {
    if s.state == WaitInitC {
      BlockBounds(f);
      assert f.content[0..] == f.content;
      NextBlockIsNextFrame(f, s.(blkNumber := 1), 0);
      hide NextBlock, FrameAt;
    }
  }

  /** Every other verdict resends the current frame or gives up. */
  lemma OtherVerdictsKeep(f: File, s: Sender, e: nat, back: seq<bv8>, acked: bool, err: nat)
    requires FileInfoFits(f.name, |f.content|) && SenderBefore(f, s, e, back, acked)
    requires s.state != Polling && err != 1
    ensures SenderKept(f, s, Verdict(s, err), e, back)
  {
    hide Acks, Block, Chunk;
  }

  /** What the sender's step does to the parts of the invariant that concern it. */
  lemma SenderStepKeeps(f: File, s: Sender, e: nat, back: seq<bv8>, input: Option<bv8>)
    requires FileInfoFits(f.name, |f.content|) && SenderBefore(f, s, e, back, input == Some(ACK))
    ensures SenderKept(f, s, SenderStep(f, s, input), e, back)
  {
    var request := s.state == WaitInitC || s.state == WaitEotC;
    if s.state == Polling {
      HandshakeKeeps(f, s, e, back, input);
    } else if request && input == Some(CRC16) {
      RequestKeeps(f, s, e, back);
    } else if !request && input == Some(ACK) {
      AckKeeps(f, s, e, back);
    } else {
      var err := WaitAck(if request then CRC16 else ACK, s.tries, input);
      if err.Some? { OtherVerdictsKeep(f, s, e, back, input == Some(ACK), err.value); }
    }
    hide Verdict, Handshake, FrameAt;
  }

  lemma SenderKeepsInv(w: World, input: Option<bv8>)
    requires InvWith(w, if input == Some(ACK) then 1 else 0) && !w.sender.state.Returned?
    ensures Wellformed(w) && Inv(SenderActs(w, input))
  {
    InvIsWellformed(w);
    hide SenderStep;
    var e := Expected(w.f, w.receiver);
    var (s', sent) := SenderStep(w.f, w.sender, input);
    SenderStepKeeps(w.f, w.sender, e, w.back, input);
    LineGrows(w.f, w.fwd, Oldest(w.f, e), w.sender, s', sent);
  }

  // ----- the receiver keeps the invariant -----------------------------------

  /** What a step of the receiver may do: stay, or advance by one with one ACK. */
  ghost predicate ReceiverKept(f: File, s: Sender, e: nat, back: seq<bv8>, next: (Receiver, seq<bv8>), advanced: bool) {
    var (r', sent) := next;
    var e' := Expected(f, r');
    && ReceiverInv(f, r')
    && (e' == if advanced then e + 1 else e)
    && ProgressInv(f, s, e', back + sent, 0)
  }

  lemma {:induction false} AcksAppend(back: seq<bv8>, sent: seq<bv8>)
    ensures Acks(back + sent) == Acks(back) + Acks(sent)
  {
    if sent == [] {
      assert back + sent == back;
    } else {
      assert (back + sent)[..|back + sent| - 1] == back + sent[..|sent| - 1];
      AcksAppend(back, sent[..|sent| - 1]);
    }
  }

  lemma AcksOfOne(b: bv8)
    ensures Acks([b]) == if b == ACK then 1 else 0
  {
    assert [b][..0] == [];
  }

  lemma RepliesWithoutAck(back: seq<bv8>)
    ensures Acks(back + [NAK]) == Acks(back) && Acks(back + [CRC16]) == Acks(back) && Acks(back + [CA, CA]) == Acks(back)
    ensures Acks(back + [ACK]) == Acks(back) + 1 && Acks(back + [ACK, CRC16]) == Acks(back) + 1
  {
    hide Acks;
    AcksOfOne(NAK);
    AcksOfOne(CRC16);
    AcksOfOne(CA);
    AcksOfOne(ACK);
    AcksAppend(back, [NAK]);
    AcksAppend(back, [CRC16]);
    AcksAppend(back, [CA, CA]);
    AcksAppend(back, [ACK]);
    AcksAppend(back, [ACK, CRC16]);
    AcksAppend([CA], [CA]);
    AcksAppend([ACK], [CRC16]);
    assert [CA, CA] == [CA] + [CA] && [ACK, CRC16] == [ACK] + [CRC16];
  }

  ghost predicate ReceiverBefore(f: File, s: Sender, r: Receiver, back: seq<bv8>)
    requires FileInfoFits(f.name, |f.content|)
  {
    ReceiverInv(f, r) && ProgressInv(f, s, Expected(f, r), back, 0)
  }

  /** The file name packet, when it is the one waited for. */
  lemma FileInfoKeeps(f: File, s: Sender, r: Receiver, maxsize: nat, back: seq<bv8>)
    requires FileInfoFits(f.name, |f.content|) && ReceiverBefore(f, s, r, back)
    requires Expected(f, r) == 0 && s.pos >= 0
    ensures var next := GoodPacket(r, maxsize, InitPacket(f).payload);
      ReceiverKept(f, s, 0, back, next, next.0.packets == 1)
      && (next.0.packets == 1 || next.0.packets == 0)
  {
    hide Acks;
    FileInfoParses(f.name, |f.content|);
    RepliesWithoutAck(back);
    hide FileInfo, NameOf, SizeOf, FileInfoFits;
  }

  /** A block, when it is the one waited for. */
  lemma BlockKeeps(f: File, s: Sender, r: Receiver, maxsize: nat, back: seq<bv8>)
    requires FileInfoFits(f.name, |f.content|) && ReceiverBefore(f, s, r, back)
    requires var e := Expected(f, r); 1 <= e <= Blocks(f) && s.pos == e
    ensures var e := Expected(f, r); ReceiverKept(f, s, e, back, GoodPacket(r, maxsize, Block(Chunk(f, e))), true)
  {
    hide Acks;
    var e := Expected(f, r);
    BlockBounds(f);
    RepliesWithoutAck(back);
    var p := Block(Chunk(f, e));
    var total := r.fileLen + PACKET_1K_SIZE;
    var n := if total > r.size then PACKET_1K_SIZE - (total - r.size) else PACKET_1K_SIZE;
    assert p[..n] == Chunk(f, e);
    assert r.file + p[..n] == f.content[..Upto(f, e)];
  }

  /** A frame of another number is refused without a trace in the file. */
  lemma RefusedKeeps(f: File, s: Sender, r: Receiver, maxsize: nat, back: seq<bv8>, frame: Frame)
    requires FileInfoFits(f.name, |f.content|) && ReceiverBefore(f, s, r, back)
    requires frame.Pkt? ==> frame.no != r.packets % 256 && |frame.payload| >= 64
    requires frame != Eot && (frame == Cancel ==> Failed(s))
    ensures ReceiverKept(f, s, Expected(f, r), back, ReceiverStep(r, maxsize, Some(frame)), false)
  {
    hide Acks;
    RepliesWithoutAck(back);
  }

  lemma TimeoutKeeps(f: File, s: Sender, r: Receiver, maxsize: nat, back: seq<bv8>)
    requires FileInfoFits(f.name, |f.content|) && ReceiverBefore(f, s, r, back)
    ensures ReceiverKept(f, s, Expected(f, r), back, ReceiverStep(r, maxsize, None), false)
  {
    hide Acks;
    RepliesWithoutAck(back);
  }

  /** The end mark and what follows it change a complete file no more. */
  lemma EndKeeps(f: File, s: Sender, r: Receiver, maxsize: nat, back: seq<bv8>, frame: Frame)
    requires FileInfoFits(f.name, |f.content|) && ReceiverBefore(f, s, r, back)
    requires Expected(f, r) >= Blocks(f) + 1 && s.pos >= Blocks(f) + 1
    requires frame == Eot || (frame == LastPacket && Expected(f, r) == Blocks(f) + 2)
    ensures ReceiverKept(f, s, Expected(f, r), back, ReceiverStep(r, maxsize, Some(frame)), Expected(f, r) == Blocks(f) + 1)
  {
    hide Acks;
    BlockBounds(f);
    RepliesWithoutAck(back);
    assert f.content[..Upto(f, Blocks(f))] == f.content;
  }

  /** The frames before the expected one carry another number modulo 256. */
  lemma OldFrameHasOtherNumber(f: File, pos: nat, packets: nat)
    requires FileInfoFits(f.name, |f.content|) && pos <= Blocks(f) && packets == pos + 1
    ensures FrameAt(f, pos).Pkt? && FrameAt(f, pos).no != packets % 256 && |FrameAt(f, pos).payload| >= 64
  {
    assert pos % 256 != (pos + 1) % 256;
  }

  /** Where a frame from the line can stand relative to the expected one. */
  lemma FramePosition(f: File, s: Sender, r: Receiver, back: seq<bv8>, item: Item)
    requires FileInfoFits(f.name, |f.content|) && ReceiverBefore(f, s, r, back)
    requires ItemInv(f, item, Oldest(f, Expected(f, r)), s)
    ensures var e := Expected(f, r);
      if item.pos >= Blocks(f) + 1 then
        e >= Blocks(f) + 1 && s.pos >= Blocks(f) + 1 && (item.pos > Blocks(f) + 1 ==> e == Blocks(f) + 2)
      else
        e == r.packets <= Blocks(f) + 1 && e - 1 <= item.pos <= e && item.pos <= s.pos <= e
  {
    hide FrameAt;
  }

  /** The receiver's step on any frame that may arrive. */
  lemma ReceiverStepKeeps(f: File, s: Sender, r: Receiver, maxsize: nat, back: seq<bv8>, item: Item)
    returns (advanced: bool)
    requires FileInfoFits(f.name, |f.content|) && ReceiverBefore(f, s, r, back)
    requires ItemInv(f, item, Oldest(f, Expected(f, r)), s)
    ensures item.frame.Pkt? ==> |item.frame.payload| >= 64
    ensures ReceiverKept(f, s, Expected(f, r), back, ReceiverStep(r, maxsize, Some(item.frame)), advanced)
    ensures advanced ==> Oldest(f, Expected(f, r) + 1) <= item.pos
  {
    FramePosition(f, s, r, back, item);
    hide ReceiverBefore, ReceiverKept, Blocks, Expected, Block, Chunk, GoodPacket, BadPacket;
    var e, frame := Expected(f, r), item.frame;
    if frame == Noise || frame == AbortKey || frame == Cancel || item.pos < 0 {
      RefusedKeeps(f, s, r, maxsize, back, frame);
      advanced := false;
    } else if item.pos >= Blocks(f) + 1 {
      EndKeeps(f, s, r, maxsize, back, frame);
      advanced := e == Blocks(f) + 1;
    } else if item.pos < e {
      OldFrameHasOtherNumber(f, item.pos, r.packets);
      RefusedKeeps(f, s, r, maxsize, back, frame);
      advanced := false;
    } else if e == 0 {
      FileInfoKeeps(f, s, r, maxsize, back);
      advanced := GoodPacket(r, maxsize, frame.payload).0.packets == 1;
    } else {
      BlockKeeps(f, s, r, maxsize, back);
      advanced := true;
    }
  }

  lemma LineShrinks(f: File, fwd: seq<Item>, low: int, low': int, s: Sender)
    requires FileInfoFits(f.name, |f.content|) && LineInv(f, fwd, low, s) && fwd != []
    requires low' <= low || low' <= fwd[0].pos
    ensures LineInv(f, fwd[1..], low', s)
  {
    hide FrameAt;
    forall i | 0 <= i < |fwd[1..]| ensures ItemInv(f, fwd[1..][i], low', s) {
      assert ItemInv(f, fwd[i + 1], low, s) && fwd[0].pos <= fwd[i + 1].pos;
    }
  }

  lemma ReceiverReadsKeepsInv(w: World)
    requires Inv(w) && w.receiver.returned.None? && w.fwd != []
    ensures Wellformed(w) && Inv(Apply(w, ReceiverReads))
  {
    InvIsWellformed(w);
    var e := Expected(w.f, w.receiver);
    assert ItemInv(w.f, w.fwd[0], Oldest(w.f, e), w.sender);
    var advanced := ReceiverStepKeeps(w.f, w.sender, w.receiver, w.maxsize, w.back, w.fwd[0]);
    hide ReceiverStep, SenderInv, FrameAt;
    LineShrinks(w.f, w.fwd, Oldest(w.f, e), Oldest(w.f, if advanced then e + 1 else e), w.sender);
  }

  lemma ReceiverTimesOutKeepsInv(w: World)
    requires Inv(w) && w.receiver.returned.None?
    ensures Wellformed(w) && Inv(Apply(w, ReceiverTimesOut))
  {
    InvIsWellformed(w);
    TimeoutKeeps(w.f, w.sender, w.receiver, w.maxsize, w.back);
    hide ReceiverStep, SenderInv, LineInv;
  }

  // ----- the links keep the invariant ---------------------------------------

  lemma LoseFrameKeepsInv(w: World, i: nat)
    requires Inv(w) && i < |w.fwd|
    ensures Wellformed(w) && Inv(Apply(w, LoseFrame(i)))
  {
    InvIsWellformed(w);
    hide SenderInv, ReceiverInv, ProgressInv, FrameAt, ItemInv;
    var fwd := Remove(w.fwd, i);
    forall k | 0 <= k < |fwd| ensures fwd[k] == w.fwd[if k < i then k else k + 1] {
    }
  }

  lemma DamageFrameKeepsInv(w: World, i: nat, to: Frame)
    requires Inv(w) && i < |w.fwd| && (to == Noise || to == AbortKey)
    ensures Wellformed(w) && Inv(Apply(w, DamageFrame(i, to)))
  {
    InvIsWellformed(w);
    hide SenderInv, ReceiverInv, ProgressInv, FrameAt;
    var fwd := w.fwd[i := w.fwd[i].(frame := to)];
    var low := Oldest(w.f, Expected(w.f, w.receiver));
    forall k | 0 <= k < |fwd| ensures ItemInv(w.f, fwd[k], low, w.sender) && fwd[k].pos == w.fwd[k].pos {
      assert ItemInv(w.f, w.fwd[k], low, w.sender);
    }
  }

  lemma FewerAcks(back: seq<bv8>, i: nat, b: bv8)
    requires i < |back|
    ensures Acks(Remove(back, i)) <= Acks(back)
    ensures b != ACK ==> Acks(back[i := b]) <= Acks(back)
  {
    hide Acks;
    var front, rest := back[..i], back[i + 1..];
    assert back == front + [back[i]] + rest && back[i := b] == front + [b] + rest;
    AcksAppend(front, rest);
    AcksAppend(front, [back[i]]);
    AcksAppend(front, [b]);
    AcksAppend(front + [back[i]], rest);
    AcksAppend(front + [b], rest);
    AcksOfOne(b);
  }

  lemma RepliesKeepInv(w: World, back: seq<bv8>)
    requires Inv(w) && Acks(back) <= Acks(w.back)
    ensures Inv(w.(back := back))
  {
    hide SenderInv, ReceiverInv, LineInv;
  }

  /** The first reply is taken from the line. */
  lemma TakenReply(w: World)
    requires Inv(w) && w.back != []
    ensures var v := w.(back := w.back[1..]);
      Inv(v) && InvWith(v, if w.back[0] == ACK then 1 else 0) && Acks(w.back) == Acks(v.back) + if w.back[0] == ACK then 1 else 0
  {
    hide SenderInv, ReceiverInv, LineInv;
    assert w.back == [w.back[0]] + w.back[1..];
    AcksAppend([w.back[0]], w.back[1..]);
    AcksOfOne(w.back[0]);
  }

  lemma SenderReadsKeepsInv(w: World)
    requires Inv(w) && !w.sender.state.Returned? && w.back != []
    ensures Wellformed(w) && Inv(Apply(w, SenderReads))
  {
    InvIsWellformed(w);
    TakenReply(w);
    hide InvWith, Inv;
    SenderKeepsInv(w.(back := w.back[1..]), Some(w.back[0]));
  }

  /** Every step keeps the invariant. */
  lemma StepKeepsInv(w: World, e: Event)
    requires Inv(w)
    ensures Wellformed(w) && Inv(Apply(w, e))
  {
    InvIsWellformed(w);
    hide Inv;
    match e
    case SenderTimesOut => if !w.sender.state.Returned? { SenderTimesOutKeepsInv(w); }
    case SenderReads => if !w.sender.state.Returned? && w.back != [] { SenderReadsKeepsInv(w); }
    case ReceiverTimesOut => if w.receiver.returned.None? { ReceiverTimesOutKeepsInv(w); }
    case ReceiverReads => if w.receiver.returned.None? && w.fwd != [] { ReceiverReadsKeepsInv(w); }
    case LoseFrame(i) => if i < |w.fwd| { LoseFrameKeepsInv(w, i); }
    case DamageFrame(i, to) => if i < |w.fwd| && (to == Noise || to == AbortKey) { DamageFrameKeepsInv(w, i, to); }
    case LoseReply(i) => if i < |w.back| { FewerAcks(w.back, i, NAK); RepliesKeepInv(w, Remove(w.back, i)); }
    case DamageReply(i, b) => if i < |w.back| && b != ACK { FewerAcks(w.back, i, b); RepliesKeepInv(w, w.back[i := b]); }
  }

  lemma SenderTimesOutKeepsInv(w: World)
    requires Inv(w) && !w.sender.state.Returned?
    ensures Wellformed(w) && Inv(Apply(w, SenderTimesOut))
  {
    SenderKeepsInv(w, None);
  }

  lemma StartHasInv(f: File, maxsize: nat)
    requires FileInfoFits(f.name, |f.content|)
    ensures Inv(Start(f, maxsize))
  {
    BlockBounds(f);
  }

  // ----- runs ---------------------------------------------------------------

  /** The world after a run of events; every world on the way satisfies the invariant. */
  ghost function Run(w: World, events: seq<Event>): (w': World)
    requires Inv(w)
    ensures Inv(w') && w'.f == w.f
  {
    if events == [] then w
    else
      var before := Run(w, events[..|events| - 1]);
      StepKeepsInv(before, events[|events| - 1]);
      Apply(before, events[|events| - 1])
  }

  /** In every run: the received file is a beginning of the sent one; while the receiver is
      writing it has accepted at most one packet more than the sender has seen ACKs for; and a
      sender that returned 0 has left an equal file behind. */
  lemma TransferIsSafe(f: File, maxsize: nat, events: seq<Event>)
    requires FileInfoFits(f.name, |f.content|)
    ensures Inv(Start(f, maxsize))
    ensures var w := Run(Start(f, maxsize), events);
      && w.receiver.file <= f.content
      && (w.sender.state == Returned(0) ==> w.receiver.file == f.content)
      && (!w.sender.state.Returned? && w.receiver.packets > 0 ==>
            Acked(f, w.sender) <= w.receiver.packets <= Acked(f, w.sender) + 1)
  {
    StartHasInv(f, maxsize);
    BlockBounds(f);
    hide Run, LineInv;
  }
}
