/** The empty packet at the end. The receiver answers every end mark without counting an error, but
    each end mark on the line has cost a reply before: what is left for the empty packet is bounded. */
module YmodemLastPacket {
  import opened Options
  import opened YmodemPacket
  import opened YmodemProtocol
  import opened YmodemSafety
  import opened YmodemResend
  import opened YmodemCount
  import opened YmodemBudget

  const MAX_LAST_NAKS := MAX_ERRORS + 3

  function Eots(fwd: seq<Item>): nat {
    if fwd == [] then 0 else (if fwd[0].frame == Eot then 1 else 0) + Eots(fwd[1..])
  }

  lemma {:induction false} EotsConcat(a: seq<Item>, b: seq<Item>)
    ensures Eots(a + b) == Eots(a) + Eots(b)
    decreases |a|
  {
    if a == [] {
      assert a + b == b;
    } else {
      assert (a + b)[1..] == a[1..] + b;
      EotsConcat(a[1..], b);
    }
  }

  lemma {:induction false} NoEots(fwd: seq<Item>)
    requires forall i :: 0 <= i < |fwd| ==> fwd[i].frame != Eot
    ensures Eots(fwd) == 0
    decreases |fwd|
  {
    if fwd != [] { NoEots(fwd[1..]); }
  }

  lemma OneEot(item: Item)
    ensures Eots([item]) == if item.frame == Eot then 1 else 0
  {
    assert [item][1..] == [];
  }

  lemma FewerEots(fwd: seq<Item>, i: nat, item: Item)
    requires i < |fwd| && item.frame != Eot
    ensures Eots(Remove(fwd, i)) <= Eots(fwd) && Eots(fwd[i := item]) <= Eots(fwd)
  {
    hide Eots;
    var front, rest := fwd[..i], fwd[i + 1..];
    assert fwd == front + ([fwd[i]] + rest) && fwd[i := item] == front + ([item] + rest);
    OneEot(item);
    EotsConcat(front, rest);
    EotsConcat(front, [fwd[i]] + rest);
    EotsConcat(front, [item] + rest);
    EotsConcat([fwd[i]], rest);
    EotsConcat([item], rest);
  }

  /** The replies that the receiver can still give without an end mark. */
  function Reserve(r: Receiver): nat {
    if r.returned.Some? || r.errors > MAX_ERRORS then 0 else MAX_ERRORS - r.errors + 2
  }

  /** `n` NAKs have been read while the sender waited for the ACK of the empty packet. */
  ghost predicate LastInv(w: World, n: nat) {
    && n <= MAX_LAST_NAKS && (w.sender.pos < Blocks(w.f) + 2 ==> n == 0)
    && (!w.sender.state.Returned? && w.sender.pos > Blocks(w.f) ==>
          n + |w.back| + Eots(w.fwd) + Reserve(w.receiver) <= MAX_LAST_NAKS)
  }

  // ----- the receiver -------------------------------------------------------

  lemma FailureSpends(r: Receiver, maxsize: nat, input: Option<Frame>)
    requires r.returned.None? && r.errors <= MAX_ERRORS
    requires input.Some? && input.value.Pkt? ==> |input.value.payload| >= 64
    requires input.Some? && input.value.Pkt? && input.value.no == r.packets % 256 ==> r.packets == 0 && input.value == LastPacket
    ensures var (r', sent) := ReceiverStep(r, maxsize, input);
      |sent| + Reserve(r') <= Reserve(r) + if input == Some(Eot) then 1 else 0
  {
  }

  lemma ReceiverSpends(f: File, s: Sender, r: Receiver, maxsize: nat, back: seq<bv8>, item: Item)
    requires FileInfoFits(f.name, |f.content|) && ReceiverBefore(f, s, r, back) && r.returned.None? && r.errors <= MAX_ERRORS
    requires ItemInv(f, item, Oldest(f, Expected(f, r)), s) && s.pos > Blocks(f)
    ensures item.frame.Pkt? ==> |item.frame.payload| >= 64
    ensures var (r', sent) := ReceiverStep(r, maxsize, Some(item.frame));
      |sent| + Reserve(r') <= Reserve(r) + if item.frame == Eot then 1 else 0
  {
    FramePosition(f, s, r, back, item);
    var _ := ReceiverStepKeeps(f, s, r, maxsize, back, item);
    var frame := item.frame;
    if frame.Pkt? && 0 <= item.pos <= Blocks(f) { OldFrameHasOtherNumber(f, item.pos, r.packets); }
    hide ReceiverKept, ReceiverStep, Block, Chunk, FileInfo;
    FailureSpends(r, maxsize, Some(frame));
  }

  lemma ReceiverKeepsLast(w: World, e: Event, n: nat)
    requires Inv(w) && RepliesInv(w) && LastInv(w, n) && w.receiver.returned.None?
    requires e == ReceiverTimesOut || (e == ReceiverReads && w.fwd != [])
    ensures Wellformed(w) && LastInv(Apply(w, e), n)
  {
    InvIsWellformed(w);
    if w.sender.pos > Blocks(w.f) {
      if e == ReceiverTimesOut {
        FailureSpends(w.receiver, w.maxsize, None);
      } else {
        assert ItemInv(w.f, w.fwd[0], Oldest(w.f, Expected(w.f, w.receiver)), w.sender);
        ReceiverSpends(w.f, w.sender, w.receiver, w.maxsize, w.back, w.fwd[0]);
      }
    }
    hide ReceiverStep, Inv, Blocks, Reserve, RepliesInv;
  }

  // ----- the sender ---------------------------------------------------------

  lemma SentEots(fwd: seq<Item>, pos: int, sent: seq<Frame>)
    ensures (forall i :: 0 <= i < |sent| ==> sent[i] != Eot) ==> Eots(fwd + Items(pos, sent)) == Eots(fwd)
    ensures sent == [Eot] ==> Eots(fwd + Items(pos, sent)) == Eots(fwd) + 1
  {
    hide Eots;
    EotsConcat(fwd, Items(pos, sent));
    if sent == [Eot] {
      assert sent[0] == Eot && Items(pos, sent) == [Item(pos, Eot)];
      OneEot(Item(pos, Eot));
    }
    if forall i :: 0 <= i < |sent| ==> sent[i] != Eot { NoEots(Items(pos, sent)); }
  }

  /** Which frames the sender sends when it is near the end. */
  lemma SenderEots(f: File, s: Sender, e: nat, back: seq<bv8>, input: Option<bv8>)
    requires FileInfoFits(f.name, |f.content|) && SenderBefore(f, s, e, back, input == Some(ACK))
    ensures var (s', sent) := SenderStep(f, s, input);
      && (s'.pos <= Blocks(f) || (s'.pos == s.pos && !(input == Some(NAK) && s.state == WaitEotAck)) || s'.pos == Blocks(f) + 2 ==>
            forall i :: 0 <= i < |sent| ==> sent[i] != Eot)
      && (s'.pos == Blocks(f) + 1 && (s'.pos != s.pos || (input == Some(NAK) && s.state == WaitEotAck)) ==> sent == [Eot])
  {
    SenderSends(f, s, e, back, input);
    SenderStepKeeps(f, s, e, back, input);
    hide SenderStep, Block, Chunk, FileInfo, Acks, ProgressInv;
  }

  lemma NoEotYet(w: World)
    requires Inv(w) && w.sender.pos <= Blocks(w.f)
    ensures Eots(w.fwd) == 0
  {
    var low := Oldest(w.f, Expected(w.f, w.receiver));
    forall i | 0 <= i < |w.fwd| ensures w.fwd[i].frame != Eot {
      assert ItemInv(w.f, w.fwd[i], low, w.sender);
    }
    NoEots(w.fwd);
  }

  /** When the sender has sent the end mark, all replies on the line are younger than the receiver's wait for it. */
  lemma EndMarkArrives(w: World, w': World)
    requires Inv(w') && RepliesInv(w') && !w'.sender.state.Returned? && w'.sender.pos == Blocks(w'.f) + 1
    requires Acked(w'.f, w'.sender) == w'.sender.pos && Inv(w) && w.receiver == w'.receiver && w.f == w'.f && w.sender.pos <= Blocks(w.f)
    ensures |w'.back| + Reserve(w'.receiver) <= MAX_ERRORS + 2
  {
    hide SenderInv, ReceiverInv, LineInv, Acks, Tail;
    assert Expected(w.f, w.receiver) <= Blocks(w.f) + 1;
    TailBound(w'.back);
  }

  lemma SenderKeepsLast(w: World, v: World, n: nat, input: Option<bv8>, w': World)
    requires Inv(w) && RepliesInv(w) && LastInv(w, n) && !w.sender.state.Returned?
    requires v == w.(back := v.back) && |v.back| + (if input.Some? then 1 else 0) == |w.back|
    requires InvWith(v, if input == Some(ACK) then 1 else 0) && Wellformed(v) && w' == SenderActs(v, input) && Inv(w') && RepliesInv(w')
    ensures LastInv(w', n + if input == Some(NAK) && w.sender.state == WaitLastAck then 1 else 0)
  {
    var f, s, e := w.f, w.sender, Expected(w.f, w.receiver);
    var (s', sent) := SenderStep(f, s, input);
    SenderEots(f, s, e, v.back, input);
    SenderMoves(f, s, e, v.back, input);
    LastPosition(w);
    LastPosition(w');
    SentEots(w.fwd, s'.pos, sent);
    if s.pos <= Blocks(f) { NoEotYet(w); }
    if s.pos <= Blocks(f) < s'.pos && !s'.state.Returned? { EndMarkAcked(w'); EndMarkArrives(w, w'); }
    hide Inv, InvWith, SenderStep, Blocks, Reserve, RepliesInv, Eots;
  }

  lemma EndMarkAcked(w: World)
    requires Inv(w) && !w.sender.state.Returned? && w.sender.pos == Blocks(w.f) + 1
    ensures Acked(w.f, w.sender) >= w.sender.pos
  {
    hide ReceiverInv, LineInv, ProgressInv;
  }

  /** The states around the end. */
  lemma LastPosition(w: World)
    requires Inv(w)
    ensures w.sender.pos <= Blocks(w.f) + 2
    ensures w.sender.state == WaitLastAck ==> w.sender.pos == Blocks(w.f) + 2
    ensures w.sender.state == WaitEotAck || w.sender.state == WaitEotC ==> w.sender.pos == Blocks(w.f) + 1
    ensures !w.sender.state.Returned? && w.sender.pos == Blocks(w.f) + 1 ==> w.sender.state == WaitEotAck || w.sender.state == WaitEotC
  {
    hide ReceiverInv, LineInv, ProgressInv;
  }

  // ----- every run ----------------------------------------------------------

  lemma LinkKeepsLast(w: World, e: Event, n: nat)
    requires Wellformed(w) && LastInv(w, n) && (e.LoseFrame? || e.DamageFrame? || e.LoseReply? || e.DamageReply?)
    ensures LastInv(Apply(w, e), n)
  {
    hide Eots, Reserve, Blocks, Wellformed;
    if e.LoseFrame? && e.i < |w.fwd| {
      FewerEots(w.fwd, e.i, w.fwd[e.i].(frame := Noise));
    } else if e.DamageFrame? && e.i < |w.fwd| && (e.to == Noise || e.to == AbortKey) {
      FewerEots(w.fwd, e.i, w.fwd[e.i].(frame := e.to));
    }
  }

  lemma SenderEventKeepsLast(w: World, e: Event, n: nat)
    requires Inv(w) && RepliesInv(w) && LastInv(w, n) && !w.sender.state.Returned?
    requires e == SenderTimesOut || (e == SenderReads && w.back != [])
    requires Wellformed(w) && RepliesInv(Apply(w, e))
    ensures LastInv(Apply(w, e), n + if NakFor(w, e, Blocks(w.f) + 2) then 1 else 0)
  {
    StepKeepsInv(w, e);
    LastPosition(w);
    if e == SenderTimesOut {
      SenderKeepsLast(w, w, n, None, Apply(w, e));
    } else {
      TakenReply(w);
      var v := w.(back := w.back[1..]);
      InvIsWellformed(v);
      SenderKeepsLast(w, v, n, Some(w.back[0]), Apply(w, e));
    }
    AwaitsLast(w.f);
    hide Inv, RepliesInv, LastInv, SenderActs, Blocks, Awaiting;
  }

  lemma AwaitsLast(f: File)
    ensures Awaiting(f, Blocks(f) + 2) == WaitLastAck
  {
  }

  lemma StepKeepsLast(w: World, e: Event, n: nat)
    requires Inv(w) && RepliesInv(w) && LastInv(w, n) && Wellformed(w) && RepliesInv(Apply(w, e))
    ensures LastInv(Apply(w, e), n + if NakFor(w, e, Blocks(w.f) + 2) then 1 else 0)
  {
    if e == SenderTimesOut || e == SenderReads {
      if !w.sender.state.Returned? && (e == SenderReads ==> w.back != []) { SenderEventKeepsLast(w, e, n); }
    } else if e == ReceiverReads || e == ReceiverTimesOut {
      if w.receiver.returned.None? && (e == ReceiverReads ==> w.fwd != []) { ReceiverKeepsLast(w, e, n); }
    } else {
      LinkKeepsLast(w, e, n);
    }
    hide Inv, RepliesInv, LastInv, SenderActs, ReceiverActs, Blocks;
  }

  lemma {:induction false} LastAlways(f: File, maxsize: nat, events: seq<Event>)
    requires FileInfoFits(f.name, |f.content|)
    ensures Inv(Start(f, maxsize))
    ensures LastInv(Run(Start(f, maxsize), events), NakCount(Start(f, maxsize), events, Blocks(f) + 2))
    decreases |events|
  {
    var w0 := Start(f, maxsize);
    StartHasInv(f, maxsize);
    hide Inv, RepliesInv, LastInv, NakFor, Apply, Blocks;
    if events == [] {
      StartIsLast(f, maxsize);
    } else {
      var front, e := events[..|events| - 1], events[|events| - 1];
      LastAlways(f, maxsize, front);
      BudgetAlways(f, maxsize, front, 0);
      BudgetAlways(f, maxsize, events, 0);
      InvIsWellformed(Run(w0, front));
      StepKeepsLast(Run(w0, front), e, NakCount(w0, front, Blocks(f) + 2));
    }
  }

  lemma StartIsLast(f: File, maxsize: nat)
    ensures LastInv(Start(f, maxsize), 0)
  {
  }

  /** In every run the empty packet is sent at most 49 times. */
  lemma LastPacketIsBounded(f: File, maxsize: nat, events: seq<Event>)
    requires FileInfoFits(f.name, |f.content|)
    ensures Inv(Start(f, maxsize))
    ensures NakCount(Start(f, maxsize), events, Blocks(f) + 2) <= MAX_LAST_NAKS
    ensures SendCount(Start(f, maxsize), events, Blocks(f) + 2) <= MAX_LAST_NAKS + 1
  {
    hide *;
    LastAlways(f, maxsize, events);
    LastIsFew(Run(Start(f, maxsize), events), NakCount(Start(f, maxsize), events, Blocks(f) + 2));
    SentOnceAndForEachNak(f, maxsize, events, Blocks(f) + 2);
  }

  lemma LastIsFew(w: World, n: nat)
    requires LastInv(w, n)
    ensures n <= MAX_LAST_NAKS
  {
  }
}
