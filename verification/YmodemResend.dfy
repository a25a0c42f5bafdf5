/** When a frame is sent again, and what becomes of a transfer that has lost one. The receiver
    answers a damaged packet with 'C', which makes the waiting sender give up. */
module YmodemResend {
  import opened Options
  import opened YmodemPacket
  import opened YmodemProtocol
  import opened YmodemSafety
  import opened YmodemCompletion

  predicate Intact(frame: Frame) {
    frame.Pkt? || frame.Eot?
  }

  /** The state in which the sender waits for the ACK of frame `k`. */
  function Awaiting(f: File, k: nat): SenderState {
    if k == 0 then WaitInitAck else if k <= Blocks(f) then WaitDataAck else if k == Blocks(f) + 1 then WaitEotAck else WaitLastAck
  }

  ghost predicate OnLine(w: World, k: nat)
    requires FileInfoFits(w.f.name, |w.f.content|)
  {
    Item(k, FrameAt(w.f, k)) in w.fwd
  }

  /** The receiver needs frame `k`, the sender has sent it, and no whole frame is on the line. */
  ghost predicate FrameGone(w: World, k: nat) {
    && Inv(w) && k <= Blocks(w.f) + 1 && Expected(w.f, w.receiver) == k && w.sender.pos == k
    && (w.sender.state == Awaiting(w.f, k) || w.sender.state == Returned(90) || w.sender.state == Returned(98))
    && forall i :: 0 <= i < |w.fwd| ==> !Intact(w.fwd[i].frame)
  }

  /** The sender is about to read a NAK. */
  predicate ReadsNak(w: World, e: Event) {
    e == SenderReads && !w.sender.state.Returned? && w.back != [] && w.back[0] == NAK
  }

  ghost predicate SomeNakIsRead(w: World, events: seq<Event>)
    requires Inv(w)
  {
    exists n :: 0 <= n < |events| && ReadsNak(Run(w, events[..n]), events[n])
  }

  ghost predicate SentAgain(w: World, k: nat, events: seq<Event>)
    requires Inv(w)
  {
    exists n :: 0 <= n <= |events| && OnLine(Run(w, events[..n]), k)
  }

  /** Damage that turns a reply into a NAK. */
  predicate ForgesNak(e: Event) {
    e.DamageReply? && e.byte == NAK
  }

  // ----- while no NAK is read -----------------------------------------------

  /** What the sender does with anything but an ACK or a NAK while it waits for an ACK. */
  lemma SenderKeepsWaiting(f: File, s: Sender, k: nat, input: Option<bv8>)
    requires FileInfoFits(f.name, |f.content|) && SenderReady(s) && s.state == Awaiting(f, k)
    requires input != Some(ACK) && input != Some(NAK)
    ensures var (s', sent) := SenderStep(f, s, input);
      && s'.pos == s.pos && (s'.state == s.state || s'.state == Returned(90) || s'.state == Returned(98))
      && forall i :: 0 <= i < |sent| ==> sent[i] == Cancel
  {
    hide NextBlock, Blocks;
  }

  /** No ACK is on its way. */
  lemma NoAckPending(w: World, k: nat)
    requires FrameGone(w, k) && !w.sender.state.Returned?
    ensures ACK !in w.back
  {
    hide SenderInv, ReceiverInv, LineInv;
    assert Acks(w.back) == 0;
    NoAcks(w.back);
  }

  lemma {:induction false} NoAcks(back: seq<bv8>)
    requires Acks(back) == 0
    ensures ACK !in back
  {
    if back != [] {
      NoAcks(back[..|back| - 1]);
      assert back == back[..|back| - 1] + [back[|back| - 1]];
    }
  }

  lemma SenderLeavesFrameGone(w: World, k: nat, e: Event)
    requires FrameGone(w, k) && !ReadsNak(w, e) && (e == SenderReads || e == SenderTimesOut)
    ensures Wellformed(w) && Inv(Apply(w, e)) && FrameGone(Apply(w, e), k) && Apply(w, e).receiver == w.receiver
  {
    StepKeepsInv(w, e);
    if !w.sender.state.Returned? {
      NoAckPending(w, k);
      var input := if e == SenderReads && w.back != [] then Some(w.back[0]) else None;
      SenderKeepsWaiting(w.f, w.sender, k, input);
    }
    hide Inv, SenderStep, Blocks, FrameAt;
  }

  /** Only a whole frame moves the receiver. */
  lemma ReceiverStays(f: File, r: Receiver, maxsize: nat, input: Option<Frame>)
    requires input.Some? ==> !Intact(input.value)
    ensures var (r', sent) := ReceiverStep(r, maxsize, input);
      r'.packets == r.packets && r'.open == r.open && r'.file == r.file && NAK !in sent
  {
  }

  lemma ReceiverLeavesFrameGone(w: World, k: nat, e: Event)
    requires FrameGone(w, k) && (e == ReceiverReads || e == ReceiverTimesOut)
    ensures Wellformed(w) && FrameGone(Apply(w, e), k) && Apply(w, e).receiver.file == w.receiver.file
    ensures NAK !in w.back ==> NAK !in Apply(w, e).back
  {
    StepKeepsInv(w, e);
    if e == ReceiverReads && w.fwd != [] {
      ReceiverStays(w.f, w.receiver, w.maxsize, Some(w.fwd[0].frame));
    } else {
      ReceiverStays(w.f, w.receiver, w.maxsize, None);
    }
    hide Inv, ReceiverStep, Blocks;
  }

  /** While no NAK is read, the frame stays gone and the received file as it is. */
  lemma StepLeavesFrameGone(w: World, k: nat, e: Event)
    requires FrameGone(w, k) && !ReadsNak(w, e)
    ensures Wellformed(w) && FrameGone(Apply(w, e), k) && Apply(w, e).receiver.file == w.receiver.file
  {
    StepKeepsInv(w, e);
    if e == SenderReads || e == SenderTimesOut {
      SenderLeavesFrameGone(w, k, e);
    } else if e == ReceiverReads || e == ReceiverTimesOut {
      ReceiverLeavesFrameGone(w, k, e);
    } else {
      hide Inv, Blocks;
    }
  }

  /** No NAK comes up by itself. */
  lemma StepBringsNoNak(w: World, k: nat, e: Event)
    requires FrameGone(w, k) && NAK !in w.back && !ForgesNak(e)
    ensures Wellformed(w) && NAK !in Apply(w, e).back && !ReadsNak(w, e)
  {
    StepKeepsInv(w, e);
    if e == ReceiverReads || e == ReceiverTimesOut {
      ReceiverLeavesFrameGone(w, k, e);
    } else {
      hide Inv, SenderStep;
    }
  }

  // ----- a NAK --------------------------------------------------------------

  /** A NAK makes the waiting sender send its frame again. */
  lemma NakSendsAgain(w: World, k: nat)
    requires FrameGone(w, k) && ReadsNak(w, SenderReads)
    ensures Wellformed(w) && Inv(Apply(w, SenderReads)) && OnLine(Apply(w, SenderReads), k)
    ensures Apply(w, SenderReads).fwd == w.fwd + [Item(k, FrameAt(w.f, k))] && Apply(w, SenderReads).back == w.back[1..]
    ensures Apply(w, SenderReads).sender.state == Awaiting(w.f, k) && Apply(w, SenderReads).receiver == w.receiver
  {
    StepKeepsInv(w, SenderReads);
    var (s', sent) := SenderStep(w.f, w.sender, Some(NAK));
    assert sent == [FrameAt(w.f, k)] && s' == w.sender.(tries := 0) by { hide LineInv, ReceiverInv, ProgressInv, NextBlock; }
    assert Items(k, sent) == [Item(k, FrameAt(w.f, k))];
    hide Inv, SenderStep, FrameAt;
  }

  lemma GoneIsInv(w: World, k: nat)
    requires FrameGone(w, k)
    ensures Inv(w) && FileInfoFits(w.f.name, |w.f.content|)
  {
    hide SenderInv, ReceiverInv, LineInv, ProgressInv;
  }

  // ----- whole runs ---------------------------------------------------------

  lemma {:induction false} FrameStaysGone(w: World, k: nat, events: seq<Event>)
    requires FrameGone(w, k) && !SomeNakIsRead(w, events)
    ensures FrameGone(Run(w, events), k) && Run(w, events).receiver.file == w.receiver.file
    decreases |events|
  {
    hide FrameGone, ReadsNak, Apply, Inv;
    GoneIsInv(w, k);
    if events != [] {
      var front, e := events[..|events| - 1], events[|events| - 1];
      assert forall n :: 0 <= n <= |front| ==> front[..n] == events[..n];
      FrameStaysGone(w, k, front);
      GoneIsInv(Run(w, front), k);
      assert !ReadsNak(Run(w, events[..|front|]), events[|front|]);
      StepLeavesFrameGone(Run(w, front), k, e);
    }
  }

  /** A frame that is gone is sent again if and only if the sender reads a NAK. */
  lemma SentAgainIffNak(w: World, k: nat, events: seq<Event>)
    requires FrameGone(w, k)
    ensures SentAgain(w, k, events) <==> SomeNakIsRead(w, events)
  {
    if SentAgain(w, k, events) { SentAgainNeedsNak(w, k, events); }
    if SomeNakIsRead(w, events) { NakReadSendsAgain(w, k, events); }
  }

  lemma SentAgainNeedsNak(w: World, k: nat, events: seq<Event>)
    requires FrameGone(w, k) && SentAgain(w, k, events)
    ensures SomeNakIsRead(w, events)
  {
    hide FrameGone, ReadsNak, Run, OnLine, Inv;
    GoneIsInv(w, k);
    var n :| 0 <= n <= |events| && OnLine(Run(w, events[..n]), k);
    if !SomeNakIsRead(w, events) {
      assert forall m :: 0 <= m < n ==> events[..n][..m] == events[..m] && events[..n][m] == events[m];
      FrameStaysGone(w, k, events[..n]);
      GoneIsNotOnLine(Run(w, events[..n]), k);
    }
  }

  lemma GoneIsNotOnLine(w: World, k: nat)
    requires FrameGone(w, k)
    ensures !OnLine(w, k)
  {
    assert Intact(FrameAt(w.f, k));
  }

  lemma {:induction false} NakReadSendsAgain(w: World, k: nat, events: seq<Event>)
    requires FrameGone(w, k) && SomeNakIsRead(w, events)
    ensures SentAgain(w, k, events)
    decreases |events|
  {
    hide FrameGone, OnLine, Apply, Inv;
    GoneIsInv(w, k);
    var front, e := events[..|events| - 1], events[|events| - 1];
    assert forall n :: 0 <= n <= |front| ==> front[..n] == events[..n];
    assert events[..|events|] == events;
    if SomeNakIsRead(w, front) {
      NakReadSendsAgain(w, k, front);
      var n :| 0 <= n <= |front| && OnLine(Run(w, front[..n]), k);
      assert OnLine(Run(w, events[..n]), k);
    } else {
      FrameStaysGone(w, k, front);
      assert ReadsNak(Run(w, front), e);
      NakSendsAgain(Run(w, front), k);
      assert OnLine(Run(w, events[..|events|]), k);
    }
  }

  /** Such a NAK is never the receiver's own: it is a reply that was damaged into one. */
  lemma {:induction false} NakIsForged(w: World, k: nat, events: seq<Event>)
    requires FrameGone(w, k) && NAK !in w.back
    requires forall n :: 0 <= n < |events| ==> !ForgesNak(events[n])
    ensures !SomeNakIsRead(w, events)
    ensures FrameGone(Run(w, events), k) && NAK !in Run(w, events).back
    decreases |events|
  {
    hide FrameGone, ReadsNak, Apply, ForgesNak, Inv;
    GoneIsInv(w, k);
    if events != [] {
      var front, e := events[..|events| - 1], events[|events| - 1];
      assert forall n :: 0 <= n <= |front| ==> front[..n] == events[..n];
      NakIsForged(w, k, front);
      GoneIsInv(Run(w, front), k);
      StepBringsNoNak(Run(w, front), k, e);
      forall n | 0 <= n < |events| ensures !ReadsNak(Run(w, events[..n]), events[n]) {
        if n < |front| { assert !ReadsNak(Run(w, front[..n]), front[n]); } else { assert events[..n] == front; }
      }
      FrameStaysGone(w, k, events);
    }
  }

  // ----- every run ----------------------------------------------------------

  /** Sender and receiver agree: whole frames on the line are the expected one and later ones, each once. */
  ghost predicate InStep(w: World) {
    && Inv(w) && NAK !in w.back
    && (forall i :: 0 <= i < |w.fwd| && Intact(w.fwd[i].frame) ==> w.fwd[i].pos >= Expected(w.f, w.receiver))
    && (forall i, j :: 0 <= i < j < |w.fwd| && Intact(w.fwd[i].frame) && Intact(w.fwd[j].frame) ==> w.fwd[i].pos < w.fwd[j].pos)
  }

  /** Without a NAK the sender puts a whole frame on the line only when it moves on to it. */
  lemma SenderSendsNext(f: File, s: Sender, e: nat, back: seq<bv8>, input: Option<bv8>)
    requires FileInfoFits(f.name, |f.content|) && SenderBefore(f, s, e, back, input == Some(ACK)) && input != Some(NAK)
    ensures var (s', sent) := SenderStep(f, s, input);
      forall i :: 0 <= i < |sent| && Intact(sent[i]) ==> |sent| == 1 && s'.pos == s.pos + 1 >= e
  {
    hide Acks, Blocks, FrameAt;
  }

  lemma SenderStaysInStep(w: World, input: Option<bv8>)
    requires InvWith(w, if input == Some(ACK) then 1 else 0) && !w.sender.state.Returned? && input != Some(NAK)
    requires InStep(w)
    ensures Wellformed(w) && InStep(SenderActs(w, input))
  {
    SenderKeepsInv(w, input);
    var e := Expected(w.f, w.receiver);
    SenderSendsNext(w.f, w.sender, e, w.back, input);
    assert forall i :: 0 <= i < |w.fwd| ==> ItemInv(w.f, w.fwd[i], Oldest(w.f, e), w.sender);
    hide Inv, SenderStep, Blocks, FrameAt;
  }

  /** The receiver answers what it expects, and what is no packet, without a NAK. */
  lemma ReceiverSendsNoNak(f: File, s: Sender, r: Receiver, maxsize: nat, back: seq<bv8>, item: Item)
    requires FileInfoFits(f.name, |f.content|) && ReceiverBefore(f, s, r, back)
    requires ItemInv(f, item, Oldest(f, Expected(f, r)), s) && (Intact(item.frame) ==> item.pos >= Expected(f, r))
    ensures item.frame.Pkt? ==> |item.frame.payload| >= 64
    ensures var (r', sent) := ReceiverStep(r, maxsize, Some(item.frame));
      NAK !in sent && Expected(f, r') <= Expected(f, r) + (if Intact(item.frame) then 1 else 0)
  {
    FramePosition(f, s, r, back, item);
    var advanced := ReceiverStepKeeps(f, s, r, maxsize, back, item);
    hide ReceiverInv, ProgressInv, Block, Chunk, Acks;
    if !Intact(item.frame) {
      ReceiverStays(f, r, maxsize, Some(item.frame));
    }
  }

  lemma ReceiverStaysInStep(w: World, e: Event)
    requires InStep(w) && (e == ReceiverReads || e == ReceiverTimesOut)
    ensures Wellformed(w) && InStep(Apply(w, e))
  {
    StepKeepsInv(w, e);
    if e == ReceiverReads && w.fwd != [] {
      assert ItemInv(w.f, w.fwd[0], Oldest(w.f, Expected(w.f, w.receiver)), w.sender);
      ReceiverSendsNoNak(w.f, w.sender, w.receiver, w.maxsize, w.back, w.fwd[0]);
    } else {
      ReceiverStays(w.f, w.receiver, w.maxsize, None);
    }
    hide Inv, ReceiverStep, Blocks;
  }

  lemma SenderReadsStaysInStep(w: World)
    requires InStep(w) && !w.sender.state.Returned? && w.back != []
    ensures Wellformed(w) && InStep(Apply(w, SenderReads))
  {
    InvIsWellformed(w);
    var v := w.(back := w.back[1..]);
    TakenReply(w);
    hide InvWith, Inv, Blocks;
    SenderStaysInStep(v, Some(w.back[0]));
  }

  lemma FrameLinkStaysInStep(w: World, e: Event)
    requires InStep(w) && (e.LoseFrame? || e.DamageFrame?)
    ensures Wellformed(w) && InStep(Apply(w, e))
  {
    StepKeepsInv(w, e);
    hide Inv, Blocks, SenderActs, ReceiverActs;
  }

  lemma ReplyLinkStaysInStep(w: World, e: Event)
    requires InStep(w) && !ForgesNak(e) && (e.LoseReply? || e.DamageReply?)
    ensures Wellformed(w) && InStep(Apply(w, e))
  {
    StepKeepsInv(w, e);
    hide Inv, Blocks, SenderActs, ReceiverActs;
  }

  /** Every step but a reply damaged into a NAK. */
  lemma StepStaysInStep(w: World, e: Event)
    requires InStep(w) && !ForgesNak(e)
    ensures Wellformed(w) && InStep(Apply(w, e))
  {
    InvIsWellformed(w);
    if e == SenderTimesOut {
      if !w.sender.state.Returned? { SenderStaysInStep(w, None); }
    } else if e == SenderReads {
      if !w.sender.state.Returned? && w.back != [] { SenderReadsStaysInStep(w); }
    } else if e == ReceiverReads || e == ReceiverTimesOut {
      ReceiverStaysInStep(w, e);
    } else if e.LoseFrame? || e.DamageFrame? {
      FrameLinkStaysInStep(w, e);
    } else {
      ReplyLinkStaysInStep(w, e);
    }
    hide Inv, InStep, SenderActs, ReceiverActs;
  }

  lemma {:induction false} RunStaysInStep(w: World, events: seq<Event>)
    requires InStep(w) && forall n :: 0 <= n < |events| ==> !ForgesNak(events[n])
    ensures InStep(Run(w, events))
    decreases |events|
  {
    if events != [] {
      RunStaysInStep(w, events[..|events| - 1]);
      hide InStep, Inv, ForgesNak, Apply;
      StepStaysInStep(Run(w, events[..|events| - 1]), events[|events| - 1]);
    }
  }

  /** The event loses or damages item `i` of the line. */
  predicate Takes(e: Event, i: nat) {
    e == LoseFrame(i) || e == DamageFrame(i, Noise) || e == DamageFrame(i, AbortKey)
  }

  /** While the two are in step, a whole frame on the line is the one that both are at. */
  lemma WholeFrameIsCurrent(w: World, i: nat)
    requires InStep(w) && !w.sender.state.Returned? && i < |w.fwd| && Intact(w.fwd[i].frame)
    requires 0 <= w.fwd[i].pos <= Blocks(w.f) + 1
    ensures w.fwd[i].pos == Expected(w.f, w.receiver) == w.sender.pos && w.sender.state == Awaiting(w.f, w.sender.pos)
    ensures forall j :: 0 <= j < |w.fwd| && j != i ==> !Intact(w.fwd[j].frame)
  {
    hide FrameAt, ReceiverInv, Acks;
    var x := Expected(w.f, w.receiver);
    assert ItemInv(w.f, w.fwd[i], Oldest(w.f, x), w.sender);
    forall j | 0 <= j < |w.fwd| && j != i ensures !Intact(w.fwd[j].frame) {
      assert ItemInv(w.f, w.fwd[j], Oldest(w.f, x), w.sender);
    }
  }

  /** Taken from the line, it is gone altogether. */
  lemma TakenIsGone(w: World, i: nat, e: Event)
    requires InStep(w) && !w.sender.state.Returned? && i < |w.fwd| && Intact(w.fwd[i].frame) && Takes(e, i)
    requires 0 <= w.fwd[i].pos <= Blocks(w.f) + 1
    ensures Wellformed(w) && Inv(Apply(w, e)) && FrameGone(Apply(w, e), w.fwd[i].pos)
    ensures NAK !in Apply(w, e).back && Apply(w, e).receiver == w.receiver
  {
    StepKeepsInv(w, e);
    WholeFrameIsCurrent(w, i);
    hide Inv, FrameAt, Blocks;
  }

  lemma GoneFileIsShort(w: World, k: nat)
    requires FrameGone(w, k) && k <= Blocks(w.f)
    ensures w.sender.state != Returned(0) && (|w.f.content| > 0 ==> |w.receiver.file| < |w.f.content|)
  {
    BlockBounds(w.f);
    hide LineInv, SenderInv, ProgressInv;
  }

  /** A frame that is lost or damaged on its way ends the transfer with 90 or 98 and the file as
      it stands, unless the sender reads a NAK; then and only then the frame is sent again. The
      receiver never sends that NAK: it can only come from a damaged reply. */
  lemma LostFrameEndsTransfer(f: File, maxsize: nat, before: seq<Event>, i: nat, e: Event, after: seq<Event>)
    requires FileInfoFits(f.name, |f.content|)
    requires forall n :: 0 <= n < |before| ==> !ForgesNak(before[n])
    ensures Inv(Start(f, maxsize))
    ensures var w := Run(Start(f, maxsize), before);
      Wellformed(w) && (!w.sender.state.Returned? && i < |w.fwd| && Intact(w.fwd[i].frame) && 0 <= w.fwd[i].pos <= Blocks(f) + 1 && Takes(e, i) ==>
        var k, v := w.fwd[i].pos, Apply(w, e);
        && Inv(v)
        && (SentAgain(v, k, after) <==> SomeNakIsRead(v, after))
        && (SomeNakIsRead(v, after) ==> exists n :: 0 <= n < |after| && ForgesNak(after[n]))
        && (!SomeNakIsRead(v, after) ==> GivesUp(v, k, Run(v, after))))
  {
    StartHasInv(f, maxsize);
    hide Run, Inv, FrameGone, Apply, ForgesNak;
    assert InStep(Start(f, maxsize));
    RunStaysInStep(Start(f, maxsize), before);
    var w := Run(Start(f, maxsize), before);
    hide InStep;
    InStepIsWellformed(w);
    if !w.sender.state.Returned? && i < |w.fwd| && Intact(w.fwd[i].frame) && 0 <= w.fwd[i].pos <= Blocks(f) + 1 && Takes(e, i) {
      TakenIsGone(w, i, e);
      AfterLoss(Apply(w, e), w.fwd[i].pos, after);
    }
  }

  /** The sender waits for frame `k` or has failed, and the receiver's file is short and as it was. */
  ghost predicate GivesUp(v: World, k: nat, w: World) {
    && w.sender.pos == k
    && (w.sender.state == Awaiting(v.f, k) || w.sender.state == Returned(90) || w.sender.state == Returned(98))
    && w.receiver.file == v.receiver.file
    && (k <= Blocks(v.f) && |v.f.content| > 0 ==> |w.receiver.file| < |v.f.content|)
  }

  lemma InStepIsWellformed(w: World)
    requires InStep(w)
    ensures Wellformed(w) && Inv(w)
  {
    InvIsWellformed(w);
    hide Inv;
  }

  lemma AfterLoss(v: World, k: nat, after: seq<Event>)
    requires FrameGone(v, k) && NAK !in v.back
    ensures Inv(v) && (SentAgain(v, k, after) <==> SomeNakIsRead(v, after))
    ensures SomeNakIsRead(v, after) ==> exists n :: 0 <= n < |after| && ForgesNak(after[n])
    ensures !SomeNakIsRead(v, after) ==> GivesUp(v, k, Run(v, after))
  {
    GoneIsInv(v, k);
    SentAgainIffNak(v, k, after);
    if forall n :: 0 <= n < |after| ==> !ForgesNak(after[n]) { NakIsForged(v, k, after); }
    if !SomeNakIsRead(v, after) {
      FrameStaysGone(v, k, after);
      var w := Run(v, after);
      if k <= Blocks(w.f) { GoneFileIsShort(w, k); }
    }
    hide Run, Inv, SentAgain, SomeNakIsRead, ForgesNak, Blocks;
  }

  lemma DamagedIsGone(w: World, k: nat)
    requires AtFrame(w, k) && k <= Blocks(w.f)
    ensures Wellformed(w) && Inv(Apply(w, DamageFrame(0, Noise)))
    ensures var v := Apply(w, DamageFrame(0, Noise));
      FrameGone(v, k) && v == w.(fwd := [Item(k, Noise)]) && v.sender.state == WaitDataAck
  {
    StepKeepsInv(w, DamageFrame(0, Noise));
    hide LineInv, SenderInv, FrameAt;
  }

  /** The receiver's 'C' is damaged into a NAK. */
  lemma ReplyBecomesNak(v: World, k: nat)
    requires FrameGone(v, k) && v.fwd == [Item(k, Noise)] && v.back == [] && v.receiver.returned == None && v.receiver.errors == 0
    ensures Wellformed(v) && Wellformed(Apply(v, ReceiverReads))
    ensures var v2 := Apply(Apply(v, ReceiverReads), DamageReply(0, NAK));
      FrameGone(v2, k) && v2 == v.(fwd := [], back := [NAK], receiver := v.receiver.(errors := 1))
  {
    StepLeavesFrameGone(v, k, ReceiverReads);
    var v1 := Apply(v, ReceiverReads);
    hide FrameGone;
    assert v1 == v.(fwd := [], back := [CRC16], receiver := v.receiver.(errors := 1)) by { assert [] + [CRC16] == [CRC16]; }
    StepLeavesFrameGone(v1, k, DamageReply(0, NAK));
    assert [CRC16][0 := NAK] == [NAK];
  }

  lemma RepairedIsAtFrame(w: World, k: nat, v: World, v3: World)
    requires AtFrame(w, k) && k <= Blocks(w.f) && v == w.(fwd := [], back := [NAK], receiver := w.receiver.(errors := 1))
    requires FrameGone(v, k) && v.sender.state == WaitDataAck && Wellformed(v) && v3 == Apply(v, SenderReads)
    ensures AtFrame(v3, k)
  {
    NakSendsAgain(v, k);
    StepKeepsInv(v, SenderReads);
    assert [] + [Item(k, FrameAt(w.f, k))] == [Item(k, FrameAt(w.f, k))];
    assert [NAK][1..] == [];
    hide Inv, FrameAt, Blocks;
  }

  /** With such a NAK a damaged block can be made good: the transfer still succeeds. */
  lemma ForgedNakRepairs(w: World, k: nat) returns (events: seq<Event>)
    requires AtFrame(w, k) && k <= Blocks(w.f) && w.receiver.errors == 0
    ensures Wellformed(w) && Inv(Apply(w, DamageFrame(0, Noise)))
    ensures Run(Apply(w, DamageFrame(0, Noise)), events).sender.state == Returned(0)
  {
    DamagedIsGone(w, k);
    var v := Apply(w, DamageFrame(0, Noise));
    ReplyBecomesNak(v, k);
    hide Apply, Inv, FrameGone, Run;
    assert Run(v, []) == v by { hide *; EmptyRun(v); }
    RunStep(v, [], ReceiverReads);
    RunStep(v, [] + [ReceiverReads], DamageReply(0, NAK));
    RunStep(v, [] + [ReceiverReads] + [DamageReply(0, NAK)], SenderReads);
    var first := [] + [ReceiverReads] + [DamageReply(0, NAK)] + [SenderReads];
    RepairedIsAtFrame(w, k, Run(v, [] + [ReceiverReads] + [DamageReply(0, NAK)]), Run(v, first));
    hide AtFrame;
    var rest := FinishFrom(Run(v, first), k);
    RunConcat(v, first, rest);
    events := first + rest;
  }

  lemma EmptyRun(w: World)
    requires Inv(w)
    ensures Run(w, []) == w
  {
    hide Inv;
  }
}
