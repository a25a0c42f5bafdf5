/** How many NAKs the sender can read while it waits for one ACK: the receiver gives only so many replies
    before it gives up. */
module YmodemBudget {
  import opened Options
  import opened YmodemPacket
  import opened YmodemProtocol
  import opened YmodemSafety
  import opened YmodemResend
  import opened YmodemCount

  /** The most replies that can come between two ACKs that the sender acts on: the receiver may give up after
      MAX_ERRORS replies to failures both before and after it takes the frame, and adds its ACK and the two
      bytes of a cancel. */
  const MAX_NAKS := 2 * MAX_ERRORS + 3

  // ----- the replies behind the last ACK ------------------------------------

  function Tail(back: seq<bv8>): nat {
    if back == [] || back[|back| - 1] == ACK then 0 else 1 + Tail(back[..|back| - 1])
  }

  lemma {:induction false} TailConcat(a: seq<bv8>, b: seq<bv8>)
    ensures Tail(a + b) == if Acks(b) == 0 then Tail(a) + |b| else Tail(b)
    decreases |b|
  {
    if b == [] {
      assert a + b == a;
    } else {
      assert (a + b)[..|a + b| - 1] == a + b[..|b| - 1];
      TailConcat(a, b[..|b| - 1]);
    }
  }

  lemma {:induction false} TailBound(a: seq<bv8>)
    ensures Tail(a) <= |a| && (Acks(a) == 0 ==> Tail(a) == |a|)
    decreases |a|
  {
    if a != [] { TailBound(a[..|a| - 1]); }
  }

  /** Taking the first reply, or losing or damaging one that is no ACK, makes the tail no longer. */
  lemma TailShrinks(back: seq<bv8>, i: nat, b: bv8)
    requires i < |back|
    ensures Acks(Remove(back, i)) == Acks(back) || i == 0 ==> Tail(Remove(back, i)) <= Tail(back)
    ensures Acks(back[i := b]) == Acks(back) && b != ACK ==> Tail(back[i := b]) <= Tail(back)
  {
    hide Acks, Tail;
    var front, rest := back[..i], back[i + 1..];
    assert back == front + ([back[i]] + rest) && back[i := b] == front + ([b] + rest);
    AcksOfOne(back[i]);
    AcksOfOne(b);
    AcksAppend(front, rest);
    AcksAppend(front, [back[i]] + rest);
    AcksAppend(front, [b] + rest);
    AcksAppend([back[i]], rest);
    AcksAppend([b], rest);
    TailConcat(front, rest);
    TailConcat(front, [back[i]] + rest);
    TailConcat(front, [b] + rest);
    TailConcat([back[i]], rest);
    TailConcat([b], rest);
    TailBound(rest);
    if i == 0 { TailBound(front); }
  }

  // ----- what the receiver can still answer ---------------------------------

  /** The most replies since the receiver has been waiting for its frame. */
  function Quota(r: Receiver): nat {
    if r.returned.Some? then MAX_ERRORS + 2 else r.errors
  }

  /** The most replies since it waited for the frame before. */
  function Quota2(r: Receiver): nat {
    if r.returned.Some? then MAX_NAKS else MAX_ERRORS + 1 + r.errors
  }

  /** Every frame up to the end mark that the receiver has taken is acknowledged to the sender or on the way to be. */
  ghost predicate NoneOutstanding(w: World) {
    && !w.sender.state.Returned? && Expected(w.f, w.receiver) <= Blocks(w.f) + 1
    && Acked(w.f, w.sender) + Acks(w.back) == Expected(w.f, w.receiver)
  }

  /** The request that follows the ACK of the file name. */
  ghost function Slack(w: World): nat {
    if w.sender.pos <= 0 && Expected(w.f, w.receiver) == 1 then 1 else 0
  }

  ghost predicate RepliesInv(w: World) {
    && (w.receiver.returned.None? ==> w.receiver.errors <= MAX_ERRORS)
    && (NoneOutstanding(w) ==> Tail(w.back) <= Quota(w.receiver) + Slack(w))
  }

  /** `n` NAKs have been read while the sender waited for the ACK of frame `k`. */
  ghost predicate BudgetInv(w: World, k: nat, n: nat) {
    && n <= MAX_NAKS && (w.sender.pos < k ==> n == 0)
    && (w.sender.pos == k && w.sender.state == Awaiting(w.f, k) ==>
          var e := Expected(w.f, w.receiver);
          (e == k ==> n + |w.back| + (if k == 0 then 1 else 0) <= Quota(w.receiver)) && (e == k + 1 ==> n + |w.back| <= Quota2(w.receiver)))
  }

  // ----- the receiver -------------------------------------------------------

  /** What a call of the receiver does while blocks are due: it counts an error and answers with one byte,
      gives up, or takes the frame. */
  ghost predicate Answers(f: File, s: Sender, r: Receiver, next: (Receiver, seq<bv8>)) {
    var (r', sent) := next;
    var e, e' := Expected(f, r), Expected(f, r');
    || (e' == e && r'.returned.None? && r'.errors == r.errors + 1 <= MAX_ERRORS && |sent| == 1 && Acks(sent) == 0)
    || (e' == e && r'.returned.Some? && |sent| <= 2 && (Acks(sent) == 0 || s.state.Returned?))
    || (e' == e + 1 && r'.returned.None? && r'.errors == 0 && (sent == [ACK] || (e == 0 && sent == [ACK, CRC16])))
  }

  lemma AcksOfReplies()
    ensures Acks([NAK]) == 0 && Acks([CRC16]) == 0 && Acks([CA, CA]) == 0 && Acks([ACK]) == 1 && Acks([ACK, CRC16]) == 1
  {
    RepliesWithoutAck([]);
    assert [] + [NAK] == [NAK] && [] + [CRC16] == [CRC16] && [] + [CA, CA] == [CA, CA] && [] + [ACK] == [ACK] && [] + [ACK, CRC16] == [ACK, CRC16];
  }

  lemma FailureAnswers(f: File, s: Sender, r: Receiver, maxsize: nat, input: Option<Frame>)
    requires r.returned.None?
    requires input.Some? && input.value.Pkt? ==> input.value.no != r.packets % 256 && |input.value.payload| >= 64
    requires input != Some(Eot) && (input == Some(Cancel) ==> s.state.Returned?)
    ensures Answers(f, s, r, ReceiverStep(r, maxsize, input))
  {
    AcksOfReplies();
    hide Acks;
  }

  lemma InitAnswers(f: File, s: Sender, r: Receiver, maxsize: nat)
    requires FileInfoFits(f.name, |f.content|) && r.returned.None? && r.packets == 0 && !r.open
    ensures Answers(f, s, r, ReceiverStep(r, maxsize, Some(InitPacket(f))))
  {
    AcksOfReplies();
    FileInfoParses(f.name, |f.content|);
    hide Acks, FileInfo, NameOf, SizeOf, FileInfoFits;
  }

  lemma BlockAnswers(f: File, s: Sender, r: Receiver, maxsize: nat)
    requires var e := Expected(f, r); 1 <= e <= Blocks(f) && r.packets == e && r.open && r.returned.None?
    ensures var e := Expected(f, r); Answers(f, s, r, ReceiverStep(r, maxsize, Some(Pkt(e % 256, Block(Chunk(f, e))))))
  {
    AcksOfReplies();
    hide Acks, Chunk, Block;
  }

  lemma ReceiverAnswers(f: File, s: Sender, r: Receiver, maxsize: nat, back: seq<bv8>, item: Item)
    requires FileInfoFits(f.name, |f.content|) && ReceiverBefore(f, s, r, back) && r.returned.None?
    requires ItemInv(f, item, Oldest(f, Expected(f, r)), s) && Expected(f, r) <= Blocks(f) + 1
    requires Intact(item.frame) ==> item.pos <= Blocks(f)
    ensures item.frame.Pkt? ==> |item.frame.payload| >= 64
    ensures Answers(f, s, r, ReceiverStep(r, maxsize, Some(item.frame)))
    ensures Expected(f, ReceiverStep(r, maxsize, Some(item.frame)).0) == Expected(f, r) + 1 ==> Expected(f, r) <= item.pos
  {
    FramePosition(f, s, r, back, item);
    var advanced := ReceiverStepKeeps(f, s, r, maxsize, back, item);
    hide Answers, ReceiverKept, ReceiverStep, Block, Chunk, ProgressInv;
    var e, frame := Expected(f, r), item.frame;
    if frame == Noise || frame == AbortKey || frame == Cancel || item.pos < 0 {
      FailureAnswers(f, s, r, maxsize, Some(frame));
    } else if item.pos < e {
      OldFrameHasOtherNumber(f, item.pos, r.packets);
      FailureAnswers(f, s, r, maxsize, Some(frame));
    } else if e == 0 {
      InitAnswers(f, s, r, maxsize);
    } else {
      BlockAnswers(f, s, r, maxsize);
    }
  }

  lemma ErrorsStay(r: Receiver, maxsize: nat, input: Option<Frame>)
    requires r.returned.None? && r.errors <= MAX_ERRORS && (input.Some? && input.value.Pkt? ==> |input.value.payload| >= 64)
    ensures var r' := ReceiverStep(r, maxsize, input).0; r'.returned.None? ==> r'.errors <= MAX_ERRORS
  {
    hide NameOf, SizeOf;
  }

  /** The replies that a call of the receiver adds. */
  lemma AnswersKeep(w: World, k: nat, n: nat, next: (Receiver, seq<bv8>), w': World)
    requires Answers(w.f, w.sender, w.receiver, next) && Expected(w.f, w.receiver) <= Blocks(w.f) + 1 && w.receiver.returned.None?
    requires w' == w.(receiver := next.0, back := w.back + next.1, fwd := w'.fwd)
    requires RepliesInv(w) && BudgetInv(w, k, n) && ProgressInv(w.f, w.sender, Expected(w.f, w.receiver), w.back, 0)
    requires Expected(w.f, next.0) == Expected(w.f, w.receiver) + 1 ==> Expected(w.f, w.receiver) <= w.sender.pos
    ensures RepliesInv(w') && BudgetInv(w', k, n)
  {
    AcksOfReplies();
    AcksAppend(w.back, next.1);
    TailConcat(w.back, next.1);
    TailOfAck();
    hide Acks, Tail, Blocks, Expected;
  }

  lemma TailOfAck()
    ensures Tail([ACK]) == 0 && Tail([ACK, CRC16]) == 1
  {
    assert [ACK, CRC16][..1] == [ACK];
  }

  /** The frame that the receiver reads next is not the end mark or the empty packet, and it waits for a block or the end mark. */
  predicate Due(w: World)
    requires w.fwd != []
  {
    Expected(w.f, w.receiver) <= Blocks(w.f) + 1 && (Intact(w.fwd[0].frame) ==> w.fwd[0].pos <= Blocks(w.f))
  }

  /** Behind the last block, the receiver waits for the empty packet. */
  lemma LateFrameEnds(f: File, s: Sender, r: Receiver, maxsize: nat, back: seq<bv8>, item: Item)
    requires FileInfoFits(f.name, |f.content|) && ReceiverBefore(f, s, r, back)
    requires ItemInv(f, item, Oldest(f, Expected(f, r)), s)
    requires Expected(f, r) == Blocks(f) + 2 || (Intact(item.frame) && item.pos > Blocks(f))
    ensures item.frame.Pkt? ==> |item.frame.payload| >= 64
    ensures Expected(f, ReceiverStep(r, maxsize, Some(item.frame)).0) == Blocks(f) + 2 && s.pos > Blocks(f)
  {
    FramePosition(f, s, r, back, item);
    var _ := ReceiverStepKeeps(f, s, r, maxsize, back, item);
    hide Block, Chunk;
  }

  lemma ReceiverKeepsBudget(w: World, e: Event, k: nat, n: nat)
    requires Inv(w) && RepliesInv(w) && BudgetInv(w, k, n) && k <= Blocks(w.f)
    requires w.receiver.returned.None? && (e == ReceiverTimesOut || (e == ReceiverReads && w.fwd != []))
    ensures Wellformed(w) && RepliesInv(Apply(w, e)) && BudgetInv(Apply(w, e), k, n)
  {
    StepKeepsInv(w, e);
    var x := Expected(w.f, w.receiver);
    var input := if e == ReceiverReads then Some(w.fwd[0].frame) else None;
    var next := ReceiverStep(w.receiver, w.maxsize, input);
    ErrorsStay(w.receiver, w.maxsize, input);
    if e == ReceiverTimesOut {
      TimeoutKeeps(w.f, w.sender, w.receiver, w.maxsize, w.back);
      FailureAnswers(w.f, w.sender, w.receiver, w.maxsize, None);
    } else {
      assert ItemInv(w.f, w.fwd[0], Oldest(w.f, x), w.sender);
      FramePosition(w.f, w.sender, w.receiver, w.back, w.fwd[0]);
      if Due(w) {
        ReceiverAnswers(w.f, w.sender, w.receiver, w.maxsize, w.back, w.fwd[0]);
      } else {
        LateFrameEnds(w.f, w.sender, w.receiver, w.maxsize, w.back, w.fwd[0]);
      }
    }
    hide ReceiverStep, FrameAt, Answers, SenderInv, ReceiverInv, LineInv;
    if x <= Blocks(w.f) + 1 && (e == ReceiverTimesOut || Due(w)) {
      AnswersKeep(w, k, n, next, Apply(w, e));
    }
  }

  // ----- the sender ---------------------------------------------------------

  /** Where a step of the sender leads, as far as NAKs are concerned. */
  ghost predicate Moves(f: File, s: Sender, s': Sender, input: Option<bv8>) {
    && s'.pos >= s.pos
    && (!s'.state.Returned? ==> Acked(f, s') == Acked(f, s) + if input == Some(ACK) then 1 else 0)
    && (s'.pos == s.pos >= 0 && s'.state == Awaiting(f, s.pos) ==> s'.state == s.state && (input == None || input == Some(NAK)))
    && (s'.pos > s.pos ==> s'.pos == s.pos + 1 && (s'.pos <= Blocks(f) ==> Acked(f, s') == s'.pos))
  }

  lemma MovesFromBlock(f: File, s: Sender, e: nat, back: seq<bv8>, input: Option<bv8>)
    requires FileInfoFits(f.name, |f.content|) && SenderBefore(f, s, e, back, input == Some(ACK))
    requires s.state == WaitDataAck || s.state == WaitInitC
    ensures Moves(f, s, SenderStep(f, s, input).0, input)
  {
    SenderStepKeeps(f, s, e, back, input);
    hide Acks, FrameAt, Chunk, Block, InitPacket, ProgressInv, Blocks, Handshake;
  }

  lemma MovesFromOther(f: File, s: Sender, e: nat, back: seq<bv8>, input: Option<bv8>)
    requires FileInfoFits(f.name, |f.content|) && SenderBefore(f, s, e, back, input == Some(ACK))
    requires s.state != WaitDataAck && s.state != WaitInitC
    ensures Moves(f, s, SenderStep(f, s, input).0, input)
  {
    hide Acks, FrameAt, Chunk, Block, InitPacket, ProgressInv, Blocks, NextBlock;
  }

  lemma SenderMoves(f: File, s: Sender, e: nat, back: seq<bv8>, input: Option<bv8>)
    requires FileInfoFits(f.name, |f.content|) && SenderBefore(f, s, e, back, input == Some(ACK))
    ensures Moves(f, s, SenderStep(f, s, input).0, input)
  {
    hide Moves, SenderStep;
    if s.state == WaitDataAck || s.state == WaitInitC { MovesFromBlock(f, s, e, back, input); } else { MovesFromOther(f, s, e, back, input); }
  }

  lemma ReadKeepsReplies(w: World)
    requires Inv(w) && RepliesInv(w) && !w.sender.state.Returned? && w.back != []
    ensures Wellformed(w) && Inv(Apply(w, SenderReads)) && RepliesInv(Apply(w, SenderReads))
  {
    StepKeepsInv(w, SenderReads);
    ReadMoves(w);
    TailBound(w.back);
    TailBound(w.back[1..]);
    hide Inv, SenderStep, Acks, Tail, Blocks, Expected, Quota;
  }

  lemma ReadMoves(w: World)
    requires Inv(w) && !w.sender.state.Returned? && w.back != []
    ensures SenderReady(w.sender)
    ensures var s', v := SenderStep(w.f, w.sender, Some(w.back[0])).0, w.back[1..];
      Tail(v) <= Tail(w.back) && (!s'.state.Returned? ==> Acked(w.f, s') + Acks(v) == Acked(w.f, w.sender) + Acks(w.back))
  {
    InvIsWellformed(w);
    TakenReply(w);
    SenderMoves(w.f, w.sender, Expected(w.f, w.receiver), w.back[1..], Some(w.back[0]));
    TailShrinks(w.back, 0, NAK);
    assert Remove(w.back, 0) == w.back[1..];
    hide SenderStep, Acks, Tail, Inv, InvWith;
  }

  lemma ReadKeepsBudget(w: World, k: nat, n: nat)
    requires Inv(w) && RepliesInv(w) && BudgetInv(w, k, n) && k <= Blocks(w.f) && !w.sender.state.Returned? && w.back != []
    ensures Wellformed(w) && RepliesInv(Apply(w, SenderReads))
    ensures BudgetInv(Apply(w, SenderReads), k, n + if NakFor(w, SenderReads, k) then 1 else 0)
  {
    ReadKeepsReplies(w);
    TakenReply(w);
    var w' := Apply(w, SenderReads);
    SenderMoves(w.f, w.sender, Expected(w.f, w.receiver), w.back[1..], Some(w.back[0]));
    ExpectedBounds(w, k);
    if w'.sender.pos == k && w'.sender.state == Awaiting(w.f, k) && w.sender.pos < k { Arrives(w, w', k); }
    hide Inv, InvWith, SenderStep, Acks, Tail, Blocks, Expected, Quota, Quota2, RepliesInv;
  }

  /** When the sender has sent frame `k`, all replies on the line are younger than the receiver's wait for it. */
  lemma Arrives(w: World, w': World, k: nat)
    requires Inv(w) && RepliesInv(w) && k <= Blocks(w.f) && w.back != [] && Inv(w') && RepliesInv(w')
    requires w'.f == w.f && w'.receiver == w.receiver && w'.back == w.back[1..] && w.sender.pos < k == w'.sender.pos <= w.sender.pos + 1
    requires w'.sender.state == Awaiting(w.f, k) && !w.sender.state.Returned?
    requires Acked(w.f, w'.sender) == Acked(w.f, w.sender) + if w.back[0] == ACK then 1 else 0
    ensures Expected(w.f, w.receiver) == k
    ensures |w'.back| + (if k == 0 then 1 else 0) <= Quota(w.receiver)
  {
    TakenReply(w);
    ExpectedBounds(w, k);
    ExpectedBounds(w', k);
    TailBound(w.back);
    TailBound(w'.back);
    hide Inv, InvWith, Acks, Tail, Blocks, Expected, Quota;
  }

  /** While the sender waits for the ACK of a block, the receiver waits for that block or for what comes next. */
  lemma ExpectedBounds(w: World, k: nat)
    requires Inv(w) && k <= Blocks(w.f)
    ensures var e := Expected(w.f, w.receiver);
      && (w.receiver.returned.None? && RepliesInv(w) ==> Quota(w.receiver) <= MAX_ERRORS && Quota2(w.receiver) <= MAX_NAKS)
      && (w.sender.pos <= k ==> e <= Blocks(w.f) + 1 && w.sender.pos <= e <= w.sender.pos + 1)
      && (w.sender.pos == k && w.sender.state == Awaiting(w.f, k) ==> Acked(w.f, w.sender) == k && k + Acks(w.back) <= e)
  {
    hide SenderInv, LineInv, FrameAt;
  }

  lemma TimeOutKeepsBudget(w: World, k: nat, n: nat)
    requires Inv(w) && RepliesInv(w) && BudgetInv(w, k, n) && k <= Blocks(w.f) && !w.sender.state.Returned?
    ensures Wellformed(w) && RepliesInv(Apply(w, SenderTimesOut)) && BudgetInv(Apply(w, SenderTimesOut), k, n)
  {
    StepKeepsInv(w, SenderTimesOut);
    SenderMoves(w.f, w.sender, Expected(w.f, w.receiver), w.back, None);
    TimeOutMovesNowhere(w.f, w.sender);
    hide Inv, InvWith, SenderStep, Acks, Tail, Blocks;
  }

  lemma TimeOutMovesNowhere(f: File, s: Sender)
    requires FileInfoFits(f.name, |f.content|) && SenderReady(s)
    ensures SenderStep(f, s, None).0.pos == s.pos
  {
  }

  // ----- the links ----------------------------------------------------------

  lemma RepliesKeepBudget(w: World, back: seq<bv8>, k: nat, n: nat)
    requires Inv(w) && RepliesInv(w) && BudgetInv(w, k, n)
    requires |back| <= |w.back| && Acks(back) <= Acks(w.back) && (Acks(back) == Acks(w.back) ==> Tail(back) <= Tail(w.back))
    ensures RepliesInv(w.(back := back)) && BudgetInv(w.(back := back), k, n)
  {
    hide SenderInv, ReceiverInv, LineInv, Acks, Tail;
  }

  lemma LinkKeepsBudget(w: World, e: Event, k: nat, n: nat)
    requires Inv(w) && RepliesInv(w) && BudgetInv(w, k, n) && (e.LoseFrame? || e.DamageFrame? || e.LoseReply? || e.DamageReply?)
    ensures Wellformed(w) && RepliesInv(Apply(w, e)) && BudgetInv(Apply(w, e), k, n)
  {
    InvIsWellformed(w);
    hide Inv, Acks, Tail, Blocks;
    if e.LoseReply? && e.i < |w.back| {
      FewerAcks(w.back, e.i, NAK);
      TailShrinks(w.back, e.i, NAK);
      RepliesKeepBudget(w, Remove(w.back, e.i), k, n);
    } else if e.DamageReply? && e.i < |w.back| && e.byte != ACK {
      FewerAcks(w.back, e.i, e.byte);
      TailShrinks(w.back, e.i, e.byte);
      RepliesKeepBudget(w, w.back[e.i := e.byte], k, n);
    }
  }

  // ----- every run ----------------------------------------------------------

  lemma StepKeepsBudget(w: World, e: Event, k: nat, n: nat)
    requires Inv(w) && RepliesInv(w) && BudgetInv(w, k, n) && k <= Blocks(w.f)
    ensures Wellformed(w) && RepliesInv(Apply(w, e)) && BudgetInv(Apply(w, e), k, n + if NakFor(w, e, k) then 1 else 0)
  {
    InvIsWellformed(w);
    if e == SenderTimesOut {
      if !w.sender.state.Returned? { TimeOutKeepsBudget(w, k, n); }
    } else if e == SenderReads {
      if !w.sender.state.Returned? && w.back != [] { ReadKeepsBudget(w, k, n); }
    } else if e == ReceiverReads || e == ReceiverTimesOut {
      if w.receiver.returned.None? && (e == ReceiverReads ==> w.fwd != []) { ReceiverKeepsBudget(w, e, k, n); }
    } else {
      LinkKeepsBudget(w, e, k, n);
    }
    hide Inv, RepliesInv, BudgetInv, SenderActs, ReceiverActs, Blocks;
  }

  lemma StartHasBudget(f: File, maxsize: nat, k: nat)
    ensures RepliesInv(Start(f, maxsize)) && BudgetInv(Start(f, maxsize), k, 0)
  {
  }

  lemma {:induction false} BudgetAlways(f: File, maxsize: nat, events: seq<Event>, k: nat)
    requires FileInfoFits(f.name, |f.content|) && k <= Blocks(f)
    ensures Inv(Start(f, maxsize))
    ensures var w := Run(Start(f, maxsize), events);
      RepliesInv(w) && BudgetInv(w, k, NakCount(Start(f, maxsize), events, k))
    decreases |events|
  {
    StartHasInv(f, maxsize);
    hide Inv, RepliesInv, BudgetInv, NakFor, Apply, Blocks;
    if events == [] {
      StartHasBudget(f, maxsize, k);
    } else {
      var front, e := events[..|events| - 1], events[|events| - 1];
      BudgetAlways(f, maxsize, front, k);
      StepKeepsBudget(Run(Start(f, maxsize), front), e, k, NakCount(Start(f, maxsize), front, k));
    }
  }

  /** In every run, the file name and each block are sent at most 94 times, however replies are damaged. */
  lemma SendsAreBounded(f: File, maxsize: nat, events: seq<Event>, k: nat)
    requires FileInfoFits(f.name, |f.content|) && k <= Blocks(f)
    ensures Inv(Start(f, maxsize))
    ensures NakCount(Start(f, maxsize), events, k) <= MAX_NAKS && SendCount(Start(f, maxsize), events, k) <= MAX_NAKS + 1
  {
    BudgetAlways(f, maxsize, events, k);
    SentOnceAndForEachNak(f, maxsize, events, k);
    hide Inv, NakCount, SendCount, Run, Blocks;
  }
}
