/** Runs that end well: over good links the transfer succeeds from every block on. */
module YmodemCompletion {
  import opened Options
  import opened YmodemPacket
  import opened YmodemProtocol
  import opened YmodemSafety

  /** The sender has just sent frame `k`, the receiver waits for it, the lines are empty otherwise. */
  ghost predicate AtFrame(w: World, k: nat) {
    && Inv(w) && 1 <= k <= Blocks(w.f) + 1 && |w.f.content| <= w.maxsize
    && w.sender.state == (if k <= Blocks(w.f) then WaitDataAck else WaitEotAck) && w.sender.pos == k
    && w.fwd == [Item(k, FrameAt(w.f, k))] && w.back == []
    && w.receiver.returned == None && w.receiver.packets == k && w.receiver.errors <= 1
  }

  lemma AtFrameIsInv(w: World, k: nat)
    requires AtFrame(w, k)
    ensures Inv(w) && Run(w, []) == w && k <= Blocks(w.f) + 1
  {
    hide Inv;
  }

  lemma RunStep(w: World, events: seq<Event>, e: Event)
    requires Inv(w)
    ensures Wellformed(Run(w, events)) && Run(w, events + [e]) == Apply(Run(w, events), e)
  {
    hide Inv;
    assert (events + [e])[..|events|] == events;
    StepKeepsInv(Run(w, events), e);
  }

  lemma BlockIsTransferred(w: World, k: nat) returns (w': World)
    requires AtFrame(w, k) && k <= Blocks(w.f)
    ensures Wellformed(w) && Wellformed(Apply(w, ReceiverReads)) && w' == Apply(Apply(w, ReceiverReads), SenderReads)
    ensures AtFrame(w', k + 1) && w'.receiver.errors == 0
  {
    BlockBounds(w.f);
    StepKeepsInv(w, ReceiverReads);
    var v := Apply(w, ReceiverReads);
    BlockAccepted(w, k);
    StepKeepsInv(v, SenderReads);
    w' := Apply(v, SenderReads);
    BlockAckedSendsNext(v, k);
  }

  lemma BlockAccepted(w: World, k: nat)
    requires AtFrame(w, k) && k <= Blocks(w.f) && Wellformed(w)
    ensures var v := Apply(w, ReceiverReads);
      && v.fwd == [] && v.back == [ACK] && v.sender == w.sender && v.f == w.f && v.maxsize == w.maxsize
      && v.receiver.returned == None && v.receiver.packets == k + 1 && v.receiver.errors == 0
  {
    BlockBounds(w.f);
    hide Chunk, Block, LineInv, SenderInv, ProgressInv;
  }

  lemma BlockAckedSendsNext(v: World, k: nat)
    requires Inv(v) && Wellformed(v) && 1 <= k <= Blocks(v.f) && v.sender.state == WaitDataAck && v.sender.pos == k
    requires v.fwd == [] && v.back == [ACK]
    ensures var w' := Apply(v, SenderReads);
      && w'.fwd == [Item(k + 1, FrameAt(v.f, k + 1))] && w'.back == [] && w'.receiver == v.receiver
      && w'.f == v.f && w'.maxsize == v.maxsize && w'.sender.pos == k + 1
      && w'.sender.state == if k + 1 <= Blocks(v.f) then WaitDataAck else WaitEotAck
  {
    hide Chunk, Block, LineInv, ReceiverInv, ProgressInv, FrameAt;
    var f, s := v.f, v.sender;
    BlockBounds(f);
    var t := s.(blkNumber := (s.blkNumber + 1) % 65536, size := if s.size > PACKET_1K_SIZE then s.size - PACKET_1K_SIZE else 0);
    assert t.size == if PACKET_1K_SIZE * k < |f.content| then |f.content| - PACKET_1K_SIZE * k else 0;
    assert SenderStep(f, s, Some(ACK)) == NextBlock(t);
    NextBlockIsNextFrame(f, t, k);
    assert [Item(k + 1, FrameAt(f, k + 1))] == Items(k + 1, [FrameAt(f, k + 1)]);
    hide SenderStep;
  }

  /** The first frames: polls, the file name, the first block. */
  lemma ReachFirstFrame(f: File, maxsize: nat) returns (events: seq<Event>)
    requires FileInfoFits(f.name, |f.content|) && 1 <= |f.content| <= maxsize
    ensures Inv(Start(f, maxsize)) && AtFrame(Run(Start(f, maxsize), events), 1) && Run(Start(f, maxsize), events).receiver.errors == 0
  {
    StartHasInv(f, maxsize);
    var w0 := Start(f, maxsize);
    RunStep(w0, [], ReceiverReads);
    var e1 := [ReceiverReads];
    assert [] + [ReceiverReads] == e1;
    var w1 := Run(w0, e1);
    RunStep(w0, e1, SenderReads);
    var e2 := e1 + [SenderReads];
    var w2 := Run(w0, e2);
    InitIsSent(w0, w1, w2);
    RunStep(w0, e2, ReceiverReads);
    var e3 := e2 + [ReceiverReads];
    var w3 := Run(w0, e3);
    InitIsAccepted(w2, w3);
    RunStep(w0, e3, SenderReads);
    var e4 := e3 + [SenderReads];
    var w4 := Run(w0, e4);
    RunStep(w0, e4, SenderReads);
    events := e4 + [SenderReads];
    FirstBlockIsSent(w3, w4, Run(w0, events));
  }

  lemma InitIsSent(w0: World, w1: World, w2: World)
    requires FileInfoFits(w0.f.name, |w0.f.content|) && w0 == Start(w0.f, w0.maxsize)
    requires Wellformed(w0) && w1 == Apply(w0, ReceiverReads) && Wellformed(w1) && w2 == Apply(w1, SenderReads)
    ensures w2.f == w0.f && w2.maxsize == w0.maxsize && w2.sender.state == WaitInitAck && w2.sender.pos == 0
    ensures w2.fwd == [Item(0, InitPacket(w0.f))] && w2.back == [] && w2.receiver == ReceiverStart.(errors := 1)
  {
    hide InitPacket;
    assert w1.back == [CRC16] && w1.fwd == [];
    assert [] + Items(0, [InitPacket(w0.f)]) == [Item(0, InitPacket(w0.f))];
  }

  lemma InitIsAccepted(w2: World, w3: World)
    requires Wellformed(w2) && w3 == Apply(w2, ReceiverReads) && w2.sender.state == WaitInitAck
    requires w2.fwd == [Item(0, InitPacket(w2.f))] && w2.back == [] && w2.receiver == ReceiverStart.(errors := 1)
    requires 1 <= |w2.f.content| <= w2.maxsize
    ensures w3.f == w2.f && w3.maxsize == w2.maxsize && w3.sender == w2.sender
    ensures w3.fwd == [] && w3.back == [ACK, CRC16]
    ensures w3.receiver.returned == None && w3.receiver.packets == 1 && w3.receiver.errors == 0
  {
    FileInfoParses(w2.f.name, |w2.f.content|);
    hide FileInfo, NameOf, SizeOf;
    assert [] + [ACK, CRC16] == [ACK, CRC16];
  }

  lemma FirstBlockIsSent(w3: World, w4: World, w5: World)
    requires Inv(w3) && Inv(w5) && Wellformed(w3) && w4 == Apply(w3, SenderReads) && Wellformed(w4) && w5 == Apply(w4, SenderReads)
    requires w3.sender.state == WaitInitAck && w3.fwd == [] && w3.back == [ACK, CRC16] && 1 <= |w3.f.content| <= w3.maxsize
    requires w3.receiver.returned == None && w3.receiver.packets == 1 && w3.receiver.errors == 0
    ensures AtFrame(w5, 1) && w5.receiver.errors == 0
  {
    hide LineInv, ReceiverInv, ProgressInv, FrameAt, NextBlock;
    BlockBounds(w3.f);
    assert w3.back[1..] == [CRC16];
    assert w4 == w3.(sender := w3.sender.(state := WaitInitC, tries := 0), back := [CRC16]) by { assert w3.fwd + Items(0, []) == []; }
    RequestSendsFirst(w4);
    hide Inv, Apply;
  }

  lemma RequestSendsFirst(w4: World)
    requires Wellformed(w4) && w4.sender.state == WaitInitC && SenderInv(w4.f, w4.sender) && |w4.f.content| > 0
    requires w4.fwd == [] && w4.back == [CRC16]
    ensures var w5 := Apply(w4, SenderReads);
      && w5.fwd == [Item(1, FrameAt(w4.f, 1))] && w5.back == [] && w5.receiver == w4.receiver
      && w5.f == w4.f && w5.maxsize == w4.maxsize && w5.sender.pos == 1 && w5.sender.state == WaitDataAck
  {
    hide Chunk, Block, FrameAt;
    var f, t := w4.f, w4.sender.(blkNumber := 1);
    BlockBounds(f);
    assert f.content[0..] == f.content && [CRC16][1..] == [];
    assert SenderStep(f, w4.sender, Some(CRC16)) == NextBlock(t);
    NextBlockIsNextFrame(f, t, 0);
    assert [Item(1, FrameAt(f, 1))] == [] + Items(1, [FrameAt(f, 1)]);
    hide SenderStep, Blocks;
  }

  lemma {:induction false} RunConcat(w: World, first: seq<Event>, rest: seq<Event>)
    requires Inv(w)
    ensures Run(w, first + rest) == Run(Run(w, first), rest)
    decreases |rest|
  {
    hide Inv;
    if rest == [] {
      assert first + rest == first;
    } else {
      var front, e := rest[..|rest| - 1], rest[|rest| - 1];
      assert rest == front + [e] && first + rest == first + front + [e];
      RunConcat(w, first, front);
      RunStep(w, first + front, e);
      RunStep(Run(w, first), front, e);
    }
  }

  lemma ReachNextFrame(w: World, k: nat) returns (events: seq<Event>)
    requires AtFrame(w, k) && k <= Blocks(w.f)
    ensures AtFrame(Run(w, events), k + 1) && Run(w, events).receiver.errors == 0
  {
    hide *;
    AtFrameIsInv(w, k);
    var _ := BlockIsTransferred(w, k);
    RunStep(w, [], ReceiverReads);
    RunStep(w, [] + [ReceiverReads], SenderReads);
    events := [] + [ReceiverReads] + [SenderReads];
  }

  /** From one frame to the end mark. */
  lemma {:induction false} ReachEndMark(w: World, k: nat) returns (events: seq<Event>)
    requires AtFrame(w, k)
    ensures Inv(w) && AtFrame(Run(w, events), Blocks(w.f) + 1)
    decreases Blocks(w.f) + 1 - k
  {
    hide *;
    AtFrameIsInv(w, k);
    if k == Blocks(w.f) + 1 {
      events := [];
    } else {
      var next := ReachNextFrame(w, k);
      var rest := ReachEndMark(Run(w, next), k + 1);
      RunConcat(w, next, rest);
      events := next + rest;
    }
  }

  /** The end mark is acknowledged; when nothing more comes the receiver asks for the next file. */
  lemma EndMarkIsAcknowledged(v0: World, v1: World, v2: World, v3: World)
    requires AtFrame(v0, Blocks(v0.f) + 1) && Wellformed(v0) && Wellformed(v1) && Wellformed(v2)
    requires v1 == Apply(v0, ReceiverReads) && v2 == Apply(v1, SenderReads) && v3 == Apply(v2, ReceiverTimesOut)
    ensures v3.sender.state == WaitEotC && v3.fwd == [] && v3.back == [CRC16]
    ensures v3.receiver.returned == None && v3.receiver.packets == 0 && v3.receiver.size == v0.receiver.size
  {
    hide Block, Chunk, Inv, FileInfo, NextBlock;
    assert v0.fwd[0].frame == Eot;
    assert v1.back == [] + [ACK] == [ACK] && v1.fwd == [];
    assert v2.back == [] && v2.fwd == [] && v2.receiver == v1.receiver;
    assert [] + [CRC16] == [CRC16];
  }

  /** The empty packet ends the session at both ends. */
  lemma LastPacketIsAcknowledged(v3: World, v4: World, v5: World, v6: World)
    requires Wellformed(v3) && Wellformed(v4) && Wellformed(v5)
    requires v4 == Apply(v3, SenderReads) && v5 == Apply(v4, ReceiverReads) && v6 == Apply(v5, SenderReads)
    requires v3.sender.state == WaitEotC && v3.fwd == [] && v3.back == [CRC16]
    requires v3.receiver.returned == None && v3.receiver.packets == 0
    ensures v6.sender.state == Returned(0) && v6.receiver.returned == Some(v3.receiver.size)
  {
    hide Block, FileInfo, NextBlock;
    assert v4.sender.state == WaitLastAck && v4.fwd == [] + Items(v4.sender.pos, [LastPacket]);
    assert v4.fwd[0].frame == LastPacket && |v4.fwd| == 1 && v4.back == [];
    assert v5.back == [] + [ACK] == [ACK];
  }

  lemma SizeAtFrame(w: World, k: nat)
    requires AtFrame(w, k)
    ensures w.receiver.size == |w.f.content|
  {
    hide SenderInv, LineInv, ProgressInv, FrameAt;
  }

  /** From every block on both sides can come to report success. */
  lemma FinishFrom(w: World, k: nat) returns (events: seq<Event>)
    requires AtFrame(w, k)
    ensures Run(w, events).sender.state == Returned(0) && Run(w, events).receiver.returned == Some(|w.f.content|)
  {
    hide *;
    AtFrameIsInv(w, k);
    var e0 := ReachEndMark(w, k);
    RunStep(w, e0, ReceiverReads);
    var e1 := e0 + [ReceiverReads];
    RunStep(w, e1, SenderReads);
    var e2 := e1 + [SenderReads];
    RunStep(w, e2, ReceiverTimesOut);
    var e3 := e2 + [ReceiverTimesOut];
    RunStep(w, e3, SenderReads);
    var e4 := e3 + [SenderReads];
    RunStep(w, e4, ReceiverReads);
    var e5 := e4 + [ReceiverReads];
    RunStep(w, e5, SenderReads);
    events := e5 + [SenderReads];
    InvIsWellformed(Run(w, events));
    SizeAtFrame(Run(w, e0), Blocks(w.f) + 1);
    EndMarkIsAcknowledged(Run(w, e0), Run(w, e1), Run(w, e2), Run(w, e3));
    LastPacketIsAcknowledged(Run(w, e3), Run(w, e4), Run(w, e5), Run(w, events));
  }

  /** Over good links there is a run in which the sender reports success. */
  lemma TransferCanSucceed(f: File, maxsize: nat) returns (events: seq<Event>)
    requires FileInfoFits(f.name, |f.content|) && 1 <= |f.content| <= maxsize
    ensures Inv(Start(f, maxsize))
    ensures var w := Run(Start(f, maxsize), events);
      w.sender.state == Returned(0) && w.receiver.returned == Some(|f.content|) && w.receiver.file == f.content
  {
    hide AtFrame, Run, Inv, Apply;
    StartHasInv(f, maxsize);
    var w0 := Start(f, maxsize);
    var first := ReachFirstFrame(f, maxsize);
    var rest := FinishFrom(Run(w0, first), 1);
    events := first + rest;
    RunConcat(w0, first, rest);
    TransferIsSafe(f, maxsize, events);
  }

  // ----- files that the receiver does not take ------------------------------

  predicate NothingReceived(w: World) {
    w.receiver.packets == 0 && !w.receiver.open
  }

  predicate SizeIsRefused(w: World) {
    w.f.content == [] || |w.f.content| > w.maxsize
  }

  /** The file name packet is answered with a cancel. */
  lemma InitIsRefused(f: File, r: Receiver, maxsize: nat)
    requires FileInfoFits(f.name, |f.content|) && (f.content == [] || |f.content| > maxsize) && r.packets == 0 && !r.open
    ensures var r' := ReceiverStep(r, maxsize, Some(InitPacket(f))).0; r'.packets == 0 && !r'.open
  {
    FileInfoParses(f.name, |f.content|);
    hide FileInfo, NameOf, SizeOf;
  }

  lemma OtherFrameIsRefused(r: Receiver, maxsize: nat, input: Option<Frame>)
    requires r.packets == 0 && !r.open && (input.Some? ==> !input.value.Pkt?)
    ensures var r' := ReceiverStep(r, maxsize, input).0; r'.packets == 0 && !r'.open
  {
  }

  lemma StepReceivesNothing(w: World, e: Event)
    requires Inv(w) && NothingReceived(w) && SizeIsRefused(w)
    ensures Wellformed(w) && NothingReceived(Apply(w, e)) && SizeIsRefused(Apply(w, e))
  {
    InvIsWellformed(w);
    if e == ReceiverReads && w.fwd != [] {
      var item := w.fwd[0];
      assert ItemInv(w.f, item, Oldest(w.f, 0), w.sender);
      FramePosition(w.f, w.sender, w.receiver, w.back, item);
      if item.frame.Pkt? { InitIsRefused(w.f, w.receiver, w.maxsize); } else { OtherFrameIsRefused(w.receiver, w.maxsize, Some(item.frame)); }
      hide ReceiverStep, FileInfo;
    } else if e == ReceiverTimesOut {
      OtherFrameIsRefused(w.receiver, w.maxsize, None);
      hide ReceiverStep;
    } else {
      hide SenderStep, Inv;
    }
  }

  lemma {:induction false} RunReceivesNothing(w: World, events: seq<Event>)
    requires Inv(w) && NothingReceived(w) && SizeIsRefused(w)
    ensures NothingReceived(Run(w, events)) && SizeIsRefused(Run(w, events))
    decreases |events|
  {
    if events != [] {
      RunReceivesNothing(w, events[..|events| - 1]);
      hide Inv, NothingReceived, SizeIsRefused, Apply;
      StepReceivesNothing(Run(w, events[..|events| - 1]), events[|events| - 1]);
    }
  }

  lemma NothingReceivedIsNoSuccess(w: World)
    requires Inv(w) && NothingReceived(w)
    ensures w.sender.state != Returned(0)
  {
    hide SenderInv, ReceiverInv, LineInv;
  }

  /** The sender can report success if and only if the file is not empty and not above the receiver's limit. */
  lemma TransferSucceedsIff(f: File, maxsize: nat)
    requires FileInfoFits(f.name, |f.content|)
    ensures Inv(Start(f, maxsize))
    ensures (exists events :: Run(Start(f, maxsize), events).sender.state == Returned(0)) <==> 1 <= |f.content| <= maxsize
  {
    StartHasInv(f, maxsize);
    hide Inv, Run;
    if 1 <= |f.content| <= maxsize {
      var _ := TransferCanSucceed(f, maxsize);
    } else {
      forall events ensures Run(Start(f, maxsize), events).sender.state != Returned(0) {
        RunReceivesNothing(Start(f, maxsize), events);
        NothingReceivedIsNoSuccess(Run(Start(f, maxsize), events));
      }
    }
  }
}
