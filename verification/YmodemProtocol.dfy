/** Ymodem_Transmit and Ymodem_Receive as two state machines joined by FIFO links
    (common/ymodem.c). One step of a machine is one return of its blocking read. */
module YmodemProtocol {
  import opened Options
  import opened YmodemPacket

  const MAX_ERRORS := 45
  const WAIT_TRIES := 10

  /** What travels to the receiver: packets, single control bytes, or what damage has made of them. */
  datatype Frame = Pkt(no: nat, payload: seq<bv8>) | Eot | Cancel | Poll | AbortKey | Noise

  // ----- the sender ---------------------------------------------------------

  datatype SenderState =
    Polling | WaitInitAck | WaitInitC | WaitDataAck | WaitEotAck | WaitEotC | WaitLastAck | Returned(code: int)

  /** `pos` numbers the frames: -1 the polls, 0 the file name, then the blocks, the end
      mark and the empty packet. The source keeps it only as the 16-bit blkNumber. */
  datatype Sender = Sender(state: SenderState, pos: int, blkNumber: nat, size: nat, rest: seq<bv8>, packet: Frame, tries: nat)

  datatype File = File(name: seq<bv8>, content: seq<bv8>)

  function InitPacket(f: File): Frame
    requires FileInfoFits(f.name, |f.content|)
  {
    Pkt(0, FileInfo(f.name, |f.content|))
  }

  const LastPacket := Pkt(0, Repeat(0, PACKET_SIZE))

  /** Ymodem_WaitACK: None while it goes on waiting. */
  function WaitAck(expected: bv8, tries: nat, input: Option<bv8>): Option<nat> {
    match input
    case None => if tries + 1 < WAIT_TRIES then None else Some(0)
    case Some(c) => Some(if c == expected then 1 else if c == CA then 2 else if c == NAK then 3 else 4)
  }

  function GiveUp(s: Sender, code: int): (Sender, seq<Frame>) {
    (s.(state := Returned(code)), [Cancel])
  }

  /** Ymodem_WaitACK has already answered a CA with a cancel of its own. */
  function GiveUpAfter(s: Sender, err: nat, code: int): (Sender, seq<Frame>) {
    (s.(state := Returned(code)), if err == 2 then [Cancel, Cancel] else [Cancel])
  }

  /** The block loop: the next packet while something is left, then the end mark. */
  function NextBlock(s: Sender): (Sender, seq<Frame>)
    requires s.size <= |s.rest| || s.size == 0
  {
    if s.size == 0 then (s.(state := WaitEotAck, pos := s.pos + 1, tries := 0), [Eot])
    else
      var n := if s.size < PACKET_1K_SIZE then s.size else PACKET_1K_SIZE;
      var packet := Pkt(s.blkNumber % 256, Block(s.rest[..n]));
      (s.(state := WaitDataAck, pos := s.pos + 1, packet := packet, rest := s.rest[n..], tries := 0), [packet])
  }

  predicate SenderReady(s: Sender) {
    && (s.state == Polling || s.state == WaitInitAck || s.state == WaitInitC ==> s.size == |s.rest|)
    && (s.state == WaitDataAck ==> (if s.size > PACKET_1K_SIZE then s.size - PACKET_1K_SIZE == |s.rest| else s.rest == []))
  }

  /** Anything but the expected ACK: resend after a NAK, else give up. */
  function NotAcked(s: Sender, err: nat, resend: Frame): (Sender, seq<Frame>) {
    if err == 3 then (s.(tries := 0), [resend])
    else if err == 2 then GiveUp(s, 98)
    else GiveUp(s, 90)
  }

  function Handshake(f: File, s: Sender, input: Option<bv8>): (Sender, seq<Frame>)
    requires FileInfoFits(f.name, |f.content|)
  {
    match input
    case None => if s.tries < 45 then (s.(tries := s.tries + 1), [Poll]) else GiveUp(s, 99)
    case Some(c) =>
      if s.tries >= 45 || c != CRC16 then GiveUp(s, 99)
      else (s.(state := WaitInitAck, pos := 0, packet := InitPacket(f), tries := 0), [InitPacket(f)])
  }

  /** What Ymodem_WaitACK's verdict leads to. */
  function Verdict(s: Sender, err: nat): (Sender, seq<Frame>)
    requires SenderReady(s)
  {
    match s.state
    case WaitInitAck => if err == 1 then (s.(state := WaitInitC, tries := 0), []) else NotAcked(s, err, s.packet)
    case WaitInitC => if err == 1 then NextBlock(s.(blkNumber := 1)) else GiveUpAfter(s, err, 90)
    case WaitDataAck =>
      if err == 1 then
        NextBlock(s.(blkNumber := (s.blkNumber + 1) % 65536,
                     size := if s.size > PACKET_1K_SIZE then s.size - PACKET_1K_SIZE else 0))
      else NotAcked(s, err, s.packet)
    case WaitEotAck => if err == 1 then (s.(state := WaitEotC, tries := 0), []) else NotAcked(s, err, Eot)
    case WaitEotC =>
      if err == 1 then (s.(state := WaitLastAck, pos := s.pos + 1, packet := LastPacket, tries := 0), [LastPacket])
      else GiveUpAfter(s, err, 90)
    case WaitLastAck => if err == 1 then (s.(state := Returned(0)), []) else NotAcked(s, err, s.packet)
    case _ => (s, [])
  }

  /** One reply byte, or None when NAK_TIMEOUT passes. */
  function SenderStep(f: File, s: Sender, input: Option<bv8>): (Sender, seq<Frame>)
    requires FileInfoFits(f.name, |f.content|) && SenderReady(s)
  {
    if s.state == Polling then Handshake(f, s, input)
    else
      match WaitAck(if s.state == WaitInitC || s.state == WaitEotC then CRC16 else ACK, s.tries, input)
      case None => (s.(tries := s.tries + 1), [])
      case Some(err) => Verdict(s, err)
  }

  function SenderStart(f: File): Sender {
    Sender(Polling, -1, 0, |f.content|, f.content, Poll, 0)
  }

  // ----- the receiver -------------------------------------------------------

  datatype Receiver = Receiver(returned: Option<int>, packets: nat, errors: nat, fileLen: nat, size: nat,
                               open: bool, name: seq<bv8>, file: seq<bv8>)

  const ReceiverStart := Receiver(None, 0, 0, 0, 0, false, [], [])

  function Finish(r: Receiver, code: int): (Receiver, seq<bv8>) {
    (r.(returned := Some(code)), [CA, CA])
  }

  /** A time-out or a packet that fails: ask again with 'C'. */
  function BadPacket(r: Receiver): (Receiver, seq<bv8>) {
    var e := r.(errors := r.errors + 1);
    if e.errors > MAX_ERRORS then Finish(e, 0) else (e, [CRC16])
  }

  function GoodPacket(r: Receiver, maxsize: nat, p: seq<bv8>): (Receiver, seq<bv8>)
    requires |p| >= 64
  {
    var r := r.(errors := 0);
    if r.packets == 0 then
      if p[0] != 0 then
        var r := r.(name := NameOf(p), size := SizeOf(p));
        if r.size < 1 || r.size > maxsize then Finish(r, -4)
        else (r.(open := true, file := [], fileLen := 0, packets := 1), [ACK, CRC16])
      else (r.(returned := Some(r.size)), [ACK])
    else if r.fileLen < r.size then
      var total := r.fileLen + |p|;
      var n := if total > r.size then |p| - (total - r.size) else |p|;
      if !r.open then Finish(r.(fileLen := total), -2)
      else (r.(fileLen := total, file := r.file + p[..n], packets := r.packets + 1), [ACK])
    else (r.(packets := r.packets + 1), [ACK])
  }

  /** One call of Receive_Packet: a frame, or None when the time-out passes. */
  function ReceiverStep(r: Receiver, maxsize: nat, input: Option<Frame>): (Receiver, seq<bv8>)
    requires input.Some? && input.value.Pkt? ==> |input.value.payload| >= 64
  {
    match input
    case Some(Pkt(no, p)) =>
      if no != r.packets % 256 then
        var e := r.(errors := r.errors + 1);
        if e.errors > MAX_ERRORS then Finish(e, 0) else (e, [NAK])
      else GoodPacket(r, maxsize, p)
    case Some(Eot) => (r.(packets := 0), [ACK])
    case Some(Cancel) => (r.(returned := Some(0)), [ACK])
    case Some(AbortKey) => Finish(r, -3)
    case _ => BadPacket(r)
  }

  // ----- the links ----------------------------------------------------------

  /** A frame on the line with its number; the number is not sent. */
  datatype Item = Item(pos: int, frame: Frame)

  datatype World = World(f: File, maxsize: nat, sender: Sender, receiver: Receiver, fwd: seq<Item>, back: seq<bv8>)

  datatype Event =
    | SenderTimesOut | SenderReads | ReceiverTimesOut | ReceiverReads
    | LoseFrame(i: nat) | DamageFrame(i: nat, to: Frame) | LoseReply(i: nat) | DamageReply(i: nat, byte: bv8)

  function Remove<T>(s: seq<T>, i: nat): seq<T>
    requires i < |s|
  {
    s[..i] + s[i + 1..]
  }

  function Items(pos: int, frames: seq<Frame>): (s: seq<Item>)
    ensures |s| == |frames| && forall i :: 0 <= i < |s| ==> s[i] == Item(pos, frames[i])
  {
    seq(|frames|, i requires 0 <= i < |frames| => Item(pos, frames[i]))
  }

  predicate Wellformed(w: World) {
    && FileInfoFits(w.f.name, |w.f.content|)
    && SenderReady(w.sender)
    && forall i :: 0 <= i < |w.fwd| && w.fwd[i].frame.Pkt? ==> |w.fwd[i].frame.payload| >= 64
  }

  function SenderActs(w: World, input: Option<bv8>): World
    requires Wellformed(w) && !w.sender.state.Returned?
  {
    var (s, sent) := SenderStep(w.f, w.sender, input);
    w.(sender := s, fwd := w.fwd + Items(s.pos, sent))
  }

  function ReceiverActs(w: World, input: Option<Frame>): World
    requires input.Some? && input.value.Pkt? ==> |input.value.payload| >= 64
  {
    var (r, sent) := ReceiverStep(w.receiver, w.maxsize, input);
    w.(receiver := r, back := w.back + sent)
  }

  /** Damage is detected: a frame never turns into another packet, an end mark or a cancel;
      a reply may turn into any byte but ACK. Events that cannot happen change nothing. */
  function Apply(w: World, e: Event): World
    requires Wellformed(w)
  {
    match e
    case SenderTimesOut => if w.sender.state.Returned? then w else SenderActs(w, None)
    case SenderReads =>
      if w.sender.state.Returned? || w.back == [] then w else SenderActs(w.(back := w.back[1..]), Some(w.back[0]))
    case ReceiverTimesOut => if w.receiver.returned.Some? then w else ReceiverActs(w, None)
    case ReceiverReads =>
      if w.receiver.returned.Some? || w.fwd == [] then w
      else ReceiverActs(w.(fwd := w.fwd[1..]), Some(w.fwd[0].frame))
    case LoseFrame(i) => if i < |w.fwd| then w.(fwd := Remove(w.fwd, i)) else w
    case DamageFrame(i, to) =>
      if i < |w.fwd| && (to == Noise || to == AbortKey) then w.(fwd := w.fwd[i := w.fwd[i].(frame := to)]) else w
    case LoseReply(i) => if i < |w.back| then w.(back := Remove(w.back, i)) else w
    case DamageReply(i, b) => if i < |w.back| && b != ACK then w.(back := w.back[i := b]) else w
  }

  function Start(f: File, maxsize: nat): World {
    World(f, maxsize, SenderStart(f), ReceiverStart, [Item(-1, Poll)], [])
  }
}
