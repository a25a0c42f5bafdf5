/** The run in which a block is sent most often: the bound on its NAKs is reached. */
module YmodemMost {
  import opened Options
  import opened YmodemPacket
  import opened YmodemProtocol
  import opened YmodemSafety
  import opened YmodemCompletion
  import opened YmodemResend
  import opened YmodemCount
  import opened YmodemBudget

  // ----- single steps -------------------------------------------------------

  /** Frame `k` is on the line and nothing else, and the sender waits for its ACK. */
  ghost predicate FrameSent(w: World, k: nat) {
    && Inv(w) && 1 <= k <= Blocks(w.f) && w.sender.state == WaitDataAck && w.sender.pos == k
    && w.fwd == [Item(k, FrameAt(w.f, k))] && w.back == [] && w.receiver.returned == None
  }

  lemma SenderAfterNak(f: File, s: Sender, k: nat)
    requires FileInfoFits(f.name, |f.content|) && SenderReady(s) && s.state == WaitDataAck
    ensures SenderStep(f, s, Some(NAK)) == (s.(tries := 0), [s.packet])
  {
    hide NextBlock;
  }

  lemma PacketIsFrame(w: World, k: nat)
    requires Inv(w) && w.sender.state == WaitDataAck && w.sender.pos == k
    ensures w.sender.packet == FrameAt(w.f, k) && Awaiting(w.f, k) == WaitDataAck && 1 <= k <= Blocks(w.f)
  {
    hide ReceiverInv, LineInv, ProgressInv, FrameAt;
  }

  /** A NAK makes the sender send the block again. */
  lemma NakResends(w: World, k: nat)
    requires Inv(w) && w.sender.state == WaitDataAck && w.sender.pos == k && w.back != [] && w.back[0] == NAK
    ensures Wellformed(w) && NakFor(w, SenderReads, k)
    ensures Apply(w, SenderReads) ==
      w.(sender := w.sender.(tries := 0), fwd := w.fwd + [Item(k, FrameAt(w.f, k))], back := w.back[1..])
  {
    InvIsWellformed(w);
    PacketIsFrame(w, k);
    SenderAfterNak(w.f, w.sender, k);
    assert Items(k, [FrameAt(w.f, k)]) == [Item(k, FrameAt(w.f, k))];
    hide Inv, SenderStep, FrameAt, Blocks;
  }

  /** The receiver takes the block that it waits for. */
  lemma BlockTaken(w: World, k: nat)
    requires FrameSent(w, k) && w.receiver.packets == k
    ensures Wellformed(w)
    ensures var v := Apply(w, ReceiverReads);
      && v == w.(fwd := [], back := [ACK], receiver := v.receiver)
      && v.receiver.returned == None && v.receiver.packets == k + 1 && v.receiver.errors == 0
  {
    InvIsWellformed(w);
    BlockBounds(w.f);
    assert [] + [ACK] == [ACK];
    hide Chunk, Block, LineInv, SenderInv, ProgressInv;
  }

  /** A block that was taken already is refused, until there are too many errors. */
  lemma DuplicateRefused(w: World, k: nat)
    requires FrameSent(w, k) && w.receiver.packets == k + 1 && w.receiver.errors <= MAX_ERRORS
    ensures Wellformed(w)
    ensures Apply(w, ReceiverReads) ==
      if w.receiver.errors < MAX_ERRORS then w.(fwd := [], back := [NAK], receiver := w.receiver.(errors := w.receiver.errors + 1))
      else w.(fwd := [], back := [CA, CA], receiver := w.receiver.(errors := MAX_ERRORS + 1, returned := Some(0)))
  {
    InvIsWellformed(w);
    OldFrameHasOtherNumber(w.f, k, k + 1);
    hide Inv, FrameAt, FrameSent;
    OtherNumberRefused(w.receiver, w.maxsize, w.fwd[0].frame);
    assert [] + [NAK] == [NAK] && [] + [CA, CA] == [CA, CA] && w.fwd[1..] == [];
    hide ReceiverStep;
  }

  lemma OtherNumberRefused(r: Receiver, maxsize: nat, frame: Frame)
    requires frame.Pkt? && frame.no != r.packets % 256 && |frame.payload| >= 64 && r.errors <= MAX_ERRORS
    ensures ReceiverStep(r, maxsize, Some(frame)) ==
      if r.errors < MAX_ERRORS then (r.(errors := r.errors + 1), [NAK]) else (r.(errors := MAX_ERRORS + 1, returned := Some(0)), [CA, CA])
  {
  }

  lemma DamagedReply(w: World, i: nat)
    requires Wellformed(w) && i < |w.back|
    ensures Apply(w, DamageReply(i, NAK)) == w.(back := w.back[i := NAK])
  {
    hide Wellformed;
  }

  // ----- the run ------------------------------------------------------------

  /** What the NAK brings back: the block is on the line again. */
  lemma ReadsOneNak(w: World, before: seq<Event>, k: nat) returns (events: seq<Event>)
    requires Inv(w)
    requires var v := Run(w, before); v.sender.state == WaitDataAck && v.sender.pos == k && v.back != [] && v.back[0] == NAK
    ensures NakCount(w, events, k) == NakCount(w, before, k) + 1
    ensures var v := Run(w, before);
      Run(w, events) == v.(sender := v.sender.(tries := 0), fwd := v.fwd + [Item(k, FrameAt(v.f, k))], back := v.back[1..])
  {
    hide *;
    NakResends(Run(w, before), k);
    NakCountConcat(w, before, SenderReads, k);
    events := before + [SenderReads];
  }

  /** An event that is no read of the sender. */
  lemma Then(w: World, before: seq<Event>, e: Event, k: nat) returns (events: seq<Event>)
    requires Inv(w) && e != SenderReads
    ensures NakCount(w, events, k) == NakCount(w, before, k)
    ensures Wellformed(Run(w, before)) && Run(w, events) == Apply(Run(w, before), e)
  {
    NotNak(Run(w, before), e, k);
    hide *;
    NakCountConcat(w, before, e, k);
    events := before + [e];
  }

  lemma NotNak(w: World, e: Event, k: nat)
    requires e != SenderReads
    ensures !NakFor(w, e, k)
  {
  }

  /** The block is on the line after `n` NAKs, and the receiver is in the given state. */
  ghost predicate Reached(w: World, events: seq<Event>, k: nat, n: nat, packets: nat, errors: nat)
    requires Inv(w)
  {
    && FrameSent(Run(w, events), k) && NakCount(w, events, k) >= n
    && Run(w, events).receiver.packets == packets && Run(w, events).receiver.errors == errors
  }

  lemma IsSent(w: World, k: nat)
    requires Inv(w) && w.sender.state == WaitDataAck && w.sender.pos == k && w.receiver.returned == None && w.back == []
    requires w.fwd == [Item(k, FrameAt(w.f, k))]
    ensures FrameSent(w, k)
  {
    PacketIsFrame(w, k);
    hide Inv, FrameAt, Blocks;
  }

  lemma IdleIsWaiting(w: World, k: nat, errors: nat)
    requires IdleAt(w, k, errors) && 1 <= k <= Blocks(w.f)
    ensures w.sender.state == WaitDataAck && w.sender.pos == k && w.receiver.packets == k
  {
    hide Inv;
  }

  /** From the last ask: the frame arrives again. */
  lemma LastAsk(w: World, before: seq<Event>, k: nat, n: nat, errors: nat) returns (events: seq<Event>)
    requires Inv(w) && IdleAt(Run(w, before), k, errors) && errors < MAX_ERRORS && 1 <= k <= Blocks(w.f) && NakCount(w, before, k) >= n
    ensures Reached(w, events, k, n + 1, k, errors + 1)
  {
    var v := Run(w, before);
    IdleParts(v, k, errors);
    IdleIsWaiting(v, k, errors);
    hide *;
    AskBecomesNak(v, k, errors);
    events := Then(w, before, ReceiverTimesOut, k);
    events := Then(w, events, DamageReply(0, NAK), k);
    events := ReadsOneNak(w, events, k);
    LineOfOne(Item(k, FrameAt(v.f, k)));
    IsSent(Run(w, events), k);
    IsReached(w, events, k, n + 1, k, errors + 1);
  }

  lemma LineOfOne(item: Item)
    ensures [] + [item] == [item] && [NAK][1..] == [] && [NAK] != [] && [NAK][0] == NAK
  {
  }

  lemma IsReached(w: World, events: seq<Event>, k: nat, n: nat, packets: nat, errors: nat)
    requires Inv(w) && FrameSent(Run(w, events), k) && NakCount(w, events, k) >= n
    requires Run(w, events).receiver.packets == packets && Run(w, events).receiver.errors == errors
    ensures Reached(w, events, k, n, packets, errors)
  {
    hide Run, NakCount, FrameSent;
  }

  lemma SentParts(w: World, k: nat)
    requires FrameSent(w, k)
    ensures w.sender.state == WaitDataAck && w.sender.pos == k && w.back == [] && w.receiver.returned == None && 1 <= k <= Blocks(w.f)
    ensures w.fwd == [Item(k, FrameAt(w.f, k))] && FileInfoFits(w.f.name, |w.f.content|)
  {
    hide SenderInv, ReceiverInv, LineInv, ProgressInv, FrameAt;
  }

  /** The block is taken, and its ACK becomes a NAK. */
  lemma AckBecomesNak(w: World, before: seq<Event>, k: nat, n: nat, errors: nat) returns (events: seq<Event>)
    requires Inv(w) && Reached(w, before, k, n, k, errors)
    ensures Reached(w, events, k, n + 1, k + 1, 0)
  {
    ReachedParts(w, before, k, n, k, errors);
    hide *;
    var v := Run(w, before);
    SentParts(v, k);
    BlockTaken(v, k);
    events := Then(w, before, ReceiverReads, k);
    ReplyOfOne(ACK);
    DamagedReply(Run(w, events), 0);
    events := Then(w, events, DamageReply(0, NAK), k);
    events := ReadsOneNak(w, events, k);
    LineOfOne(Item(k, FrameAt(v.f, k)));
    IsSent(Run(w, events), k);
    IsReached(w, events, k, n + 1, k + 1, 0);
  }

  lemma ReplyOfOne(b: bv8)
    ensures |[b]| == 1 && [b][0 := NAK] == [NAK]
  {
  }

  lemma ReachedParts(w: World, events: seq<Event>, k: nat, n: nat, packets: nat, errors: nat)
    requires Inv(w) && Reached(w, events, k, n, packets, errors)
    ensures FrameSent(Run(w, events), k) && NakCount(w, events, k) >= n && Inv(Run(w, events))
    ensures Run(w, events).receiver.packets == packets && Run(w, events).receiver.errors == errors
  {
    hide FrameSent, NakCount, Inv;
  }

  /** The duplicate is refused with a NAK. */
  lemma DuplicateOnce(w: World, before: seq<Event>, k: nat, n: nat, errors: nat) returns (events: seq<Event>)
    requires Inv(w) && Reached(w, before, k, n, k + 1, errors) && errors < MAX_ERRORS
    ensures Reached(w, events, k, n + 1, k + 1, errors + 1)
  {
    ReachedParts(w, before, k, n, k + 1, errors);
    hide *;
    var v := Run(w, before);
    SentParts(v, k);
    DuplicateRefused(v, k);
    events := Then(w, before, ReceiverReads, k);
    LineOfOne(Item(k, FrameAt(v.f, k)));
    events := ReadsOneNak(w, events, k);
    IsSent(Run(w, events), k);
    IsReached(w, events, k, n + 1, k + 1, errors + 1);
  }

  lemma {:induction false} Duplicates(w: World, before: seq<Event>, k: nat, n: nat, errors: nat) returns (events: seq<Event>)
    requires Inv(w) && Reached(w, before, k, n, k + 1, errors) && errors <= MAX_ERRORS
    ensures Reached(w, events, k, n + (MAX_ERRORS - errors), k + 1, MAX_ERRORS)
    decreases MAX_ERRORS - errors
  {
    hide Reached, Inv;
    if errors == MAX_ERRORS {
      events := before;
    } else {
      var next := DuplicateOnce(w, before, k, n, errors);
      events := Duplicates(w, next, k, n + 1, errors + 1);
    }
  }

  /** The receiver gives up, and both bytes of its cancel become NAKs. */
  lemma CancelBecomesNaks(w: World, before: seq<Event>, k: nat, n: nat) returns (events: seq<Event>)
    requires Inv(w) && Reached(w, before, k, n, k + 1, MAX_ERRORS)
    ensures NakCount(w, events, k) >= n + 2
  {
    ReachedParts(w, before, k, n, k + 1, MAX_ERRORS);
    hide *;
    var v := Run(w, before);
    SentParts(v, k);
    DuplicateRefused(v, k);
    TwoReplies();
    events := Then(w, before, ReceiverReads, k);
    DamagedReply(Run(w, events), 0);
    events := Then(w, events, DamageReply(0, NAK), k);
    DamagedReply(Run(w, events), 1);
    events := Then(w, events, DamageReply(1, NAK), k);
    events := ReadsOneNak(w, events, k);
    events := ReadsOneNak(w, events, k);
  }

  lemma TwoReplies()
    ensures |[CA, CA]| == 2 && [CA, CA][0 := NAK] == [NAK, CA] && [NAK, CA][1 := NAK] == [NAK, NAK] && |[NAK, CA]| == 2
    ensures [NAK, NAK] != [] && [NAK, NAK][0] == NAK && [NAK, NAK][1..] == [NAK] && [NAK] != [] && [NAK][0] == NAK
  {
  }

  /** For every block of every file the bound is reached: a run in which it is sent again 93 times. */
  lemma BoundIsReached(f: File, maxsize: nat, k: nat) returns (events: seq<Event>)
    requires FileInfoFits(f.name, |f.content|) && 1 <= |f.content| <= maxsize && 1 <= k <= Blocks(f)
    ensures Inv(Start(f, maxsize)) && NakCount(Start(f, maxsize), events, k) == MAX_NAKS
    ensures SendCount(Start(f, maxsize), events, k) == MAX_NAKS + 1
  {
    hide *;
    Limits();
    StartFile(f, maxsize);
    var w := Start(f, maxsize);
    events := ReachFrame(f, maxsize, k);
    AtFrameLost(Run(w, events), k);
    events := Then(w, events, LoseFrame(0), k);
    events := OnceMoreAgain(w, events, k, 0, 44);
    events := LastAsk(w, events, k, 44, 44);
    events := AckBecomesNak(w, events, k, 45, 45);
    events := Duplicates(w, events, k, 46, 0);
    events := CancelBecomesNaks(w, events, k, 91);
    SendsAreBounded(f, maxsize, events, k);
    SentOnceAndForEachNak(f, maxsize, events, k);
    NaksAreForSent(f, maxsize, events, k);
  }

  lemma Limits()
    ensures MAX_ERRORS == 45 && MAX_NAKS == 93
  {
  }

  /** NAKs for a frame are read only when the sender has got to it. */
  lemma NaksAreForSent(f: File, maxsize: nat, events: seq<Event>, k: nat)
    requires FileInfoFits(f.name, |f.content|) && k <= Blocks(f)
    ensures Inv(Start(f, maxsize))
    ensures NakCount(Start(f, maxsize), events, k) > 0 ==> Run(Start(f, maxsize), events).sender.pos >= k
  {
    BudgetAlways(f, maxsize, events, k);
    hide Inv, Run, NakCount, RepliesInv, Blocks;
  }
}
