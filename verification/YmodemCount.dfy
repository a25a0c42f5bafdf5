/** How often a frame is sent: once, and once more for each NAK. There is no count of resends in the
    sender; what bounds them is the number of replies that the receiver gives before it gives up. */
module YmodemCount {
  import opened Options
  import opened YmodemPacket
  import opened YmodemProtocol
  import opened YmodemSafety
  import opened YmodemCompletion
  import opened YmodemResend

  /** The sender, waiting for the ACK of frame `k`, reads a NAK. */
  predicate NakFor(w: World, e: Event, k: nat) {
    ReadsNak(w, e) && w.sender.pos == k && w.sender.state == Awaiting(w.f, k)
  }

  /** The sender puts frame `k` on the line. */
  ghost predicate Sends(w: World, e: Event, k: nat)
    requires Wellformed(w)
  {
    (e == SenderReads || e == SenderTimesOut) && Apply(w, e).fwd == w.fwd + [Item(k, FrameAt(w.f, k))]
  }

  ghost function NakCount(w: World, events: seq<Event>, k: nat): nat
    requires Inv(w)
  {
    if events == [] then 0
    else
      var front, e := events[..|events| - 1], events[|events| - 1];
      NakCount(w, front, k) + if NakFor(Run(w, front), e, k) then 1 else 0
  }

  ghost function SendCount(w: World, events: seq<Event>, k: nat): nat
    requires Inv(w)
  {
    if events == [] then 0
    else
      var front, e := events[..|events| - 1], events[|events| - 1];
      StepKeepsInv(Run(w, front), e);
      SendCount(w, front, k) + if Sends(Run(w, front), e, k) then 1 else 0
  }

  // ----- one send for each frame and one for each NAK -----------------------

  /** A step of the sender sends its frame again, or moves on by one frame and sends that, or sends no frame. */
  lemma SenderSends(f: File, s: Sender, e: nat, back: seq<bv8>, input: Option<bv8>)
    requires FileInfoFits(f.name, |f.content|) && SenderBefore(f, s, e, back, input == Some(ACK))
    ensures var (s', sent) := SenderStep(f, s, input);
      if s'.pos != s.pos then s'.pos == s.pos + 1 && sent == [FrameAt(f, s'.pos)] && input != Some(NAK)
      else if input == Some(NAK) && s.pos >= 0 && s.state == Awaiting(f, s.pos) then sent == [FrameAt(f, s.pos)]
      else forall i :: 0 <= i < |sent| ==> sent[i] == Cancel || sent[i] == Poll
  {
    SenderStepKeeps(f, s, e, back, input);
    hide Acks, ProgressInv, Blocks, FileInfoFits;
    if input == Some(NAK) && s.pos >= 0 && s.state == Awaiting(f, s.pos) {
      hide NextBlock, Handshake, Chunk, Block;
    } else if s.state == WaitDataAck || s.state == WaitInitC {
      hide FrameAt, Handshake;
    } else {
      hide FrameAt, NextBlock;
    }
  }

  lemma OneItem(fwd: seq<Item>, pos: int, k: nat, frame: Frame, sent: seq<Frame>)
    requires Intact(frame)
    ensures sent == [frame] && pos == k ==> fwd + Items(pos, sent) == fwd + [Item(k, frame)]
    ensures fwd + Items(pos, sent) == fwd + [Item(k, frame)] ==> sent == [frame] && pos == k
  {
    if fwd + Items(pos, sent) == fwd + [Item(k, frame)] {
      assert |sent| == 1;
      assert (fwd + Items(pos, sent))[|fwd|] == Item(pos, sent[0]);
      assert sent == [sent[0]];
    }
  }

  lemma SenderActsSends(w: World, k: nat, input: Option<bv8>)
    requires InvWith(w, if input == Some(ACK) then 1 else 0) && !w.sender.state.Returned? && k <= Blocks(w.f) + 2
    ensures Wellformed(w) && Inv(SenderActs(w, input))
    ensures var w' := SenderActs(w, input);
      var naks := input == Some(NAK) && w.sender.pos == k && w.sender.state == Awaiting(w.f, k);
      (w'.fwd == w.fwd + [Item(k, FrameAt(w.f, k))]) == (naks || w.sender.pos < k <= w'.sender.pos)
      && (naks ==> w'.sender.pos == w.sender.pos) && w'.sender.pos >= w.sender.pos
  {
    SenderKeepsInv(w, input);
    SenderSends(w.f, w.sender, Expected(w.f, w.receiver), w.back, input);
    var (s', sent) := SenderStep(w.f, w.sender, input);
    OneItem(w.fwd, s'.pos, k, FrameAt(w.f, k), sent);
    hide SenderStep, Inv, InvWith, Blocks;
  }

  lemma StepSends(w: World, e: Event, k: nat)
    requires Inv(w) && k <= Blocks(w.f) + 2
    ensures Wellformed(w)
    ensures Sends(w, e, k) == (NakFor(w, e, k) || w.sender.pos < k <= Apply(w, e).sender.pos)
    ensures (NakFor(w, e, k) ==> Apply(w, e).sender.pos == w.sender.pos) && Apply(w, e).sender.pos >= w.sender.pos
  {
    StepKeepsInv(w, e);
    if e == SenderTimesOut && !w.sender.state.Returned? {
      SenderActsSends(w, k, None);
    } else if e == SenderReads && !w.sender.state.Returned? && w.back != [] {
      TakenReply(w);
      SenderActsSends(w.(back := w.back[1..]), k, Some(w.back[0]));
    }
    hide Inv, InvWith, SenderActs, ReceiverActs, FrameAt, Blocks;
  }

  /** In every run, each frame is sent once, and once more for each NAK that is read while the sender waits for its ACK. */
  lemma {:induction false} SentOnceAndForEachNak(f: File, maxsize: nat, events: seq<Event>, k: nat)
    requires FileInfoFits(f.name, |f.content|) && k <= Blocks(f) + 2
    ensures Inv(Start(f, maxsize))
    ensures var w0 := Start(f, maxsize);
      SendCount(w0, events, k) == NakCount(w0, events, k) + if Run(w0, events).sender.pos >= k then 1 else 0
    decreases |events|
  {
    StartHasInv(f, maxsize);
    hide Inv, Sends, NakFor, Apply, Blocks;
    if events != [] {
      var front, e := events[..|events| - 1], events[|events| - 1];
      SentOnceAndForEachNak(f, maxsize, front, k);
      StepSends(Run(Start(f, maxsize), front), e, k);
    }
  }

  // ----- more than ten sends ------------------------------------------------

  lemma NakCountConcat(w: World, events: seq<Event>, e: Event, k: nat)
    requires Inv(w)
    ensures NakCount(w, events + [e], k) == NakCount(w, events, k) + if NakFor(Run(w, events), e, k) then 1 else 0
    ensures Wellformed(Run(w, events)) && Run(w, events + [e]) == Apply(Run(w, events), e)
  {
    hide Inv, NakFor, Apply;
    RunStep(w, events, e);
    assert (events + [e])[..|events|] == events;
  }

  /** The lines are empty, frame `k` is gone, and the receiver has counted `errors` errors. */
  ghost predicate IdleAt(w: World, k: nat, errors: nat) {
    && FrameGone(w, k) && w.sender.state == Awaiting(w.f, k) && w.fwd == [] && w.back == []
    && w.receiver.returned == None && w.receiver.errors == errors
  }

  /** The receiver asks, and its 'C' becomes a NAK. */
  lemma AskBecomesNak(w: World, k: nat, errors: nat)
    requires IdleAt(w, k, errors) && errors < MAX_ERRORS
    ensures Wellformed(w) && Wellformed(Apply(w, ReceiverTimesOut))
    ensures var w2 := Apply(Apply(w, ReceiverTimesOut), DamageReply(0, NAK));
      FrameGone(w2, k) && w2 == w.(back := [NAK], receiver := w.receiver.(errors := errors + 1))
  {
    hide FrameGone, Awaiting, Apply;
    StepLeavesFrameGone(w, k, ReceiverTimesOut);
    TimeOutAsks(w);
    var w1 := Apply(w, ReceiverTimesOut);
    StepLeavesFrameGone(w1, k, DamageReply(0, NAK));
    ReplyDamaged(w1);
  }

  lemma TimeOutAsks(w: World)
    requires Wellformed(w) && w.receiver.returned == None && w.receiver.errors < MAX_ERRORS && w.back == []
    ensures Apply(w, ReceiverTimesOut) == w.(back := [CRC16], receiver := w.receiver.(errors := w.receiver.errors + 1))
  {
    hide Wellformed;
    assert [] + [CRC16] == [CRC16];
  }

  lemma ReplyDamaged(w: World)
    requires Wellformed(w) && w.back == [CRC16]
    ensures Apply(w, DamageReply(0, NAK)) == w.(back := [NAK])
  {
    hide Wellformed;
    assert [CRC16][0 := NAK] == [NAK];
  }

  /** The frame is sent again, and lost. */
  lemma ResentIsLost(w: World, k: nat)
    requires FrameGone(w, k) && w.sender.state == Awaiting(w.f, k) && w.fwd == [] && w.back == [NAK]
    ensures Wellformed(w) && Wellformed(Apply(w, SenderReads)) && NakFor(w, SenderReads, k)
    ensures var w4 := Apply(Apply(w, SenderReads), LoseFrame(0));
      FrameGone(w4, k) && w4.sender.state == Awaiting(w.f, k) && w4.fwd == [] && w4.back == [] && w4.receiver == w.receiver && w4.f == w.f
  {
    NakSendsAgain(w, k);
    var w3 := Apply(w, SenderReads);
    InvIsWellformed(w3);
    assert [NAK][1..] == [] && w3.f == w.f;
    assert [] + [Item(k, FrameAt(w.f, k))] == [Item(k, FrameAt(w.f, k))];
    NakKeepsPosition(w, k);
    LostIsGone(w3, k);
    hide Apply, Inv, FrameGone, FrameAt;
  }

  lemma NakKeepsPosition(w: World, k: nat)
    requires FrameGone(w, k) && w.sender.state == Awaiting(w.f, k) && w.back != [] && w.back[0] == NAK
    ensures Wellformed(w) && Apply(w, SenderReads).sender.pos == k
    ensures k <= Blocks(w.f) + 1 && Expected(w.f, w.receiver) == k && !w.sender.state.Returned? && w.sender.pos == k
  {
    InvIsWellformed(w);
    StepSends(w, SenderReads, k);
    hide Inv, Apply, Blocks;
  }

  lemma OnceMore(w: World, before: seq<Event>, k: nat, errors: nat) returns (events: seq<Event>)
    requires Inv(w) && IdleAt(Run(w, before), k, errors) && errors < MAX_ERRORS
    ensures IdleAt(Run(w, events), k, errors + 1) && NakCount(w, events, k) > NakCount(w, before, k)
  {
    hide *;
    var e1 := before + [ReceiverTimesOut];
    var e2 := e1 + [DamageReply(0, NAK)];
    var e3 := e2 + [SenderReads];
    events := e3 + [LoseFrame(0)];
    NakCountConcat(w, before, ReceiverTimesOut, k);
    NakCountConcat(w, e1, DamageReply(0, NAK), k);
    NakCountConcat(w, e2, SenderReads, k);
    NakCountConcat(w, e3, LoseFrame(0), k);
    AskBecomesNak(Run(w, before), k, errors);
    IdleParts(Run(w, before), k, errors);
    ResentIsLost(Run(w, e2), k);
    PartsAreIdle(Run(w, events), k, errors + 1);
  }

  lemma IdleParts(w: World, k: nat, errors: nat)
    requires IdleAt(w, k, errors)
    ensures w.sender.state == Awaiting(w.f, k) && w.fwd == [] && w.back == [] && w.receiver.returned == None && w.receiver.errors == errors
  {
  }

  lemma PartsAreIdle(w: World, k: nat, errors: nat)
    requires FrameGone(w, k) && w.sender.state == Awaiting(w.f, k) && w.fwd == [] && w.back == []
    requires w.receiver.returned == None && w.receiver.errors == errors
    ensures IdleAt(w, k, errors)
  {
  }

  lemma LostIsGone(w: World, k: nat)
    requires Wellformed(w) && Inv(w) && k <= Blocks(w.f) + 1 && Expected(w.f, w.receiver) == k && w.sender.pos == k
    requires w.sender.state == Awaiting(w.f, k) && |w.fwd| == 1
    ensures FrameGone(Apply(w, LoseFrame(0)), k) && Apply(w, LoseFrame(0)) == w.(fwd := [])
  {
    StepKeepsInv(w, LoseFrame(0));
    assert Remove(w.fwd, 0) == [];
    hide Inv, Blocks;
  }

  lemma {:induction false} OnceMoreAgain(w: World, before: seq<Event>, k: nat, errors: nat, n: nat) returns (events: seq<Event>)
    requires Inv(w) && IdleAt(Run(w, before), k, errors) && errors + n <= MAX_ERRORS
    ensures NakCount(w, events, k) >= NakCount(w, before, k) + n && IdleAt(Run(w, events), k, errors + n)
    decreases n
  {
    hide *;
    events := before;
    if n > 0 {
      var more := OnceMore(w, before, k, errors);
      events := OnceMoreAgain(w, more, k, errors + 1, n - 1);
    }
  }

  lemma AtFrameLost(w: World, k: nat)
    requires AtFrame(w, k) && k <= Blocks(w.f)
    ensures Wellformed(w) && IdleAt(Apply(w, LoseFrame(0)), k, w.receiver.errors) && w.receiver.errors + 44 <= MAX_ERRORS
  {
    InvIsWellformed(w);
    LostIsGone(w, k);
    hide Inv, Apply;
  }

  lemma {:induction false} ReachFrame(f: File, maxsize: nat, k: nat) returns (events: seq<Event>)
    requires FileInfoFits(f.name, |f.content|) && 1 <= |f.content| <= maxsize && 1 <= k <= Blocks(f) + 1
    ensures Inv(Start(f, maxsize)) && AtFrame(Run(Start(f, maxsize), events), k) && Run(Start(f, maxsize), events).receiver.errors == 0
    decreases k
  {
    hide *;
    StartHasInv(f, maxsize);
    if k == 1 {
      events := ReachFirstFrame(f, maxsize);
    } else {
      var before := ReachFrame(f, maxsize, k - 1);
      StartFile(f, maxsize);
      var next := ReachNextFrame(Run(Start(f, maxsize), before), k - 1);
      RunConcat(Start(f, maxsize), before, next);
      events := before + next;
    }
  }

  lemma StartFile(f: File, maxsize: nat)
    ensures Start(f, maxsize).f == f
  {
  }

  // ----- the end mark -------------------------------------------------------

  /** The end mark is on the line, and nothing else. */
  ghost predicate EndMarkSent(w: World) {
    && Inv(w) && w.sender.state == WaitEotAck && w.sender.pos == Blocks(w.f) + 1
    && w.fwd == [Item(Blocks(w.f) + 1, Eot)] && w.back == [] && w.receiver.returned == None
  }

  /** The receiver's ACK becomes a NAK, and the end mark is sent again. */
  lemma EndMarkAgain(w: World, w1: World, w2: World, w3: World)
    requires EndMarkSent(w) && Wellformed(w) && w1 == Apply(w, ReceiverReads)
    requires Wellformed(w1) && w2 == Apply(w1, DamageReply(0, NAK))
    requires Wellformed(w2) && Inv(w2) && w3 == Apply(w2, SenderReads) && Inv(w3)
    ensures NakFor(w2, SenderReads, Blocks(w.f) + 1) && EndMarkSent(w3)
  {
    hide Inv, NextBlock, GoodPacket, BadPacket, Blocks;
    assert w1 == w.(fwd := [], back := [ACK], receiver := w.receiver.(packets := 0)) by { assert [] + [ACK] == [ACK]; }
    assert w2 == w1.(back := [NAK]) by { assert [ACK][0 := NAK] == [NAK]; }
    assert w3.fwd == [Item(Blocks(w.f) + 1, Eot)] && w3.back == [] by {
      assert [NAK][1..] == [] && [] + Items(Blocks(w.f) + 1, [Eot]) == [Item(Blocks(w.f) + 1, Eot)];
    }
    BlocksAwait(w.f);
  }

  lemma BlocksAwait(f: File)
    ensures Awaiting(f, Blocks(f) + 1) == WaitEotAck
  {
  }

  lemma EndMarkOnceMore(w: World, before: seq<Event>) returns (events: seq<Event>)
    requires Inv(w) && EndMarkSent(Run(w, before))
    ensures EndMarkSent(Run(w, events)) && NakCount(w, events, Blocks(w.f) + 1) > NakCount(w, before, Blocks(w.f) + 1)
  {
    hide *;
    var k := Blocks(w.f) + 1;
    var e1 := before + [ReceiverReads];
    var e2 := e1 + [DamageReply(0, NAK)];
    events := e2 + [SenderReads];
    NakCountConcat(w, before, ReceiverReads, k);
    NakCountConcat(w, e1, DamageReply(0, NAK), k);
    NakCountConcat(w, e2, SenderReads, k);
    EndMarkAgain(Run(w, before), Run(w, e1), Run(w, e2), Run(w, events));
  }

  lemma {:induction false} EndMarkAgainAndAgain(w: World, before: seq<Event>, n: nat) returns (events: seq<Event>)
    requires Inv(w) && EndMarkSent(Run(w, before))
    ensures NakCount(w, events, Blocks(w.f) + 1) >= n && EndMarkSent(Run(w, events))
    decreases n
  {
    hide *;
    if n == 0 {
      events := before;
    } else {
      var more := EndMarkAgainAndAgain(w, before, n - 1);
      events := EndMarkOnceMore(w, more);
    }
  }

  /** Nothing bounds the sends of the end mark: for every number there is a run with as many NAKs. */
  lemma EndMarkSentWithoutLimit(f: File, maxsize: nat, n: nat) returns (events: seq<Event>)
    requires FileInfoFits(f.name, |f.content|) && 1 <= |f.content| <= maxsize
    ensures Inv(Start(f, maxsize))
    ensures SendCount(Start(f, maxsize), events, Blocks(f) + 1) >= NakCount(Start(f, maxsize), events, Blocks(f) + 1) >= n
  {
    hide *;
    StartFile(f, maxsize);
    var before := ReachFrame(f, maxsize, Blocks(f) + 1);
    AtFrameIsEndMark(Run(Start(f, maxsize), before));
    events := EndMarkAgainAndAgain(Start(f, maxsize), before, n);
    SentOnceAndForEachNak(f, maxsize, events, Blocks(f) + 1);
  }

  lemma AtFrameIsEndMark(w: World)
    requires AtFrame(w, Blocks(w.f) + 1)
    ensures EndMarkSent(w)
  {
    hide Inv;
  }
}
