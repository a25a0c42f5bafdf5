/** What Ymodem_Receive returns: the size of the file after a transfer, and otherwise no positive number
    (common/ymodem.c:179-307). */
module YmodemReturn {
  import opened Options
  import opened YmodemPacket
  import opened YmodemProtocol
  import opened YmodemSafety
  import opened YmodemCompletion

  /** The name and the size are those of the file once its first packet is taken; a receiver that has
      returned gives one of the codes of the source, or the size of a complete file. */
  ghost predicate ReturnInv(w: World) {
    var r, e := w.receiver, Expected(w.f, w.receiver);
    && (e >= 1 ==> r.size == |w.f.content| && r.name == w.f.name)
    && (r.returned.Some? ==>
          || r.returned.value == 0
          || r.returned.value == -3
          || (r.returned.value == -4 && (w.f.content == [] || |w.f.content| > w.maxsize))
          || (r.returned.value == |w.f.content| && e == Blocks(w.f) + 2))
  }

  ghost predicate Returns(f: File, maxsize: nat, r: Receiver, r': Receiver) {
    && (Expected(f, r') >= 1 && Expected(f, r) == 0 ==> r'.size == |f.content| && r'.name == f.name)
    && (Expected(f, r) >= 1 ==> r'.size == r.size && r'.name == r.name)
    && (r'.returned.Some? ==>
          || r'.returned.value == 0
          || r'.returned.value == -3
          || (r'.returned.value == -4 && (f.content == [] || |f.content| > maxsize))
          || (r'.returned.value == r.size && Expected(f, r) == Expected(f, r') == Blocks(f) + 2))
  }

  lemma OtherFrameReturns(f: File, r: Receiver, maxsize: nat, input: Option<Frame>)
    requires r.returned.None? && (Expected(f, r) >= 1 ==> r.open)
    requires input.Some? && input.value.Pkt? ==> input.value.no != r.packets % 256 && |input.value.payload| >= 64
    ensures Returns(f, maxsize, r, ReceiverStep(r, maxsize, input).0)
  {
  }

  lemma FileInfoReturns(f: File, r: Receiver, maxsize: nat)
    requires FileInfoFits(f.name, |f.content|) && r.returned.None? && r.packets == 0 && !r.open
    ensures Returns(f, maxsize, r, ReceiverStep(r, maxsize, Some(InitPacket(f))).0)
  {
    FileInfoParses(f.name, |f.content|);
    hide FileInfo, NameOf, SizeOf;
  }

  lemma BlockReturns(f: File, r: Receiver, maxsize: nat, no: nat, payload: seq<bv8>)
    requires r.returned.None? && r.packets > 0 && r.open && |payload| >= 64
    ensures Returns(f, maxsize, r, ReceiverStep(r, maxsize, Some(Pkt(no, payload))).0)
  {
  }

  lemma LastPacketReturns(f: File, r: Receiver, maxsize: nat)
    requires r.returned.None? && r.packets == 0 && r.open
    ensures Returns(f, maxsize, r, ReceiverStep(r, maxsize, Some(LastPacket)).0)
  {
  }

  lemma ReceiverReturns(f: File, s: Sender, r: Receiver, maxsize: nat, back: seq<bv8>, item: Item)
    requires FileInfoFits(f.name, |f.content|) && ReceiverBefore(f, s, r, back) && r.returned.None?
    requires ItemInv(f, item, Oldest(f, Expected(f, r)), s)
    ensures item.frame.Pkt? ==> |item.frame.payload| >= 64
    ensures Returns(f, maxsize, r, ReceiverStep(r, maxsize, Some(item.frame)).0)
  {
    FramePosition(f, s, r, back, item);
    var _ := ReceiverStepKeeps(f, s, r, maxsize, back, item);
    hide Returns, ReceiverKept, ReceiverStep, Block, Chunk, FileInfo, ProgressInv;
    var e, frame := Expected(f, r), item.frame;
    if frame == Noise || frame == AbortKey || frame == Cancel || item.pos < 0 || frame == Eot {
      OtherFrameReturns(f, r, maxsize, Some(frame));
    } else if item.pos > Blocks(f) {
      LastPacketReturns(f, r, maxsize);
    } else if item.pos < e {
      OldFrameHasOtherNumber(f, item.pos, r.packets);
      OtherFrameReturns(f, r, maxsize, Some(frame));
    } else if e == 0 {
      FileInfoReturns(f, r, maxsize);
    } else {
      BlockReturns(f, r, maxsize, frame.no, frame.payload);
    }
  }

  lemma StepReturns(w: World, e: Event)
    requires Inv(w) && ReturnInv(w)
    ensures Wellformed(w) && ReturnInv(Apply(w, e))
  {
    StepKeepsInv(w, e);
    if e == ReceiverReads && w.receiver.returned.None? && w.fwd != [] {
      assert ItemInv(w.f, w.fwd[0], Oldest(w.f, Expected(w.f, w.receiver)), w.sender);
      ReceiverReturns(w.f, w.sender, w.receiver, w.maxsize, w.back, w.fwd[0]);
    } else if e == ReceiverTimesOut && w.receiver.returned.None? {
      OtherFrameReturns(w.f, w.receiver, w.maxsize, None);
    }
    hide ReceiverStep, SenderStep, Inv, Blocks;
  }

  lemma {:induction false} ReturnAlways(f: File, maxsize: nat, events: seq<Event>)
    requires FileInfoFits(f.name, |f.content|)
    ensures Inv(Start(f, maxsize)) && ReturnInv(Run(Start(f, maxsize), events))
    decreases |events|
  {
    StartHasInv(f, maxsize);
    hide Inv, Apply;
    if events != [] {
      var front := events[..|events| - 1];
      ReturnAlways(f, maxsize, front);
      hide ReturnInv;
      StepReturns(Run(Start(f, maxsize), front), events[|events| - 1]);
    }
  }

  /** A positive result is the size of the file, and the file is complete and has its name; any other
      result is 0, -3, or -4 for a size that the receiver refuses. */
  ghost predicate GoodResult(f: File, maxsize: nat, r: Receiver) {
    r.returned.Some? ==>
      var n := r.returned.value;
      && (n > 0 ==> n == |f.content| && r.file == f.content && r.name == f.name)
      && (n <= 0 && f.content != [] ==> n == 0 || n == -3 || n == -4)
      && (n == -4 ==> f.content == [] || |f.content| > maxsize)
  }

  lemma ResultIsGood(w: World)
    requires Inv(w) && ReturnInv(w)
    ensures GoodResult(w.f, w.maxsize, w.receiver)
  {
    hide SenderInv, LineInv, ProgressInv;
  }

  lemma {:induction false} RunKeepsLimit(w: World, events: seq<Event>)
    requires Inv(w)
    ensures Run(w, events).maxsize == w.maxsize
    decreases |events|
  {
    if events != [] {
      RunKeepsLimit(w, events[..|events| - 1]);
      hide Inv, SenderStep, ReceiverStep;
    }
  }

  lemma ReceiverReturnsSize(f: File, maxsize: nat, events: seq<Event>)
    requires FileInfoFits(f.name, |f.content|)
    ensures Inv(Start(f, maxsize)) && GoodResult(f, maxsize, Run(Start(f, maxsize), events).receiver)
  {
    hide *;
    ReturnAlways(f, maxsize, events);
    ResultIsGood(Run(Start(f, maxsize), events));
    RunKeepsLimit(Start(f, maxsize), events);
    StartIs(f, maxsize);
  }

  lemma StartIs(f: File, maxsize: nat)
    ensures Start(f, maxsize).f == f && Start(f, maxsize).maxsize == maxsize
  {
  }

  /** For every file that the receiver takes there is a run at whose end both sides report success: the
      sender returns 0, the receiver the size. */
  lemma BothReportSuccess(f: File, maxsize: nat) returns (events: seq<Event>)
    requires FileInfoFits(f.name, |f.content|) && 1 <= |f.content| <= maxsize
    ensures Inv(Start(f, maxsize))
    ensures var w := Run(Start(f, maxsize), events);
      w.sender.state == Returned(0) && w.receiver.returned == Some(|f.content|) && w.receiver.file == f.content && w.receiver.name == f.name
  {
    events := TransferCanSucceed(f, maxsize);
    ReceiverReturnsSize(f, maxsize, events);
    hide Run, Inv;
  }
}
