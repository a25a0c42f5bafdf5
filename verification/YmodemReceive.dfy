/** Ymodem_Receive with its two loops, over the bytes that arrive at each call of
    Receive_Packet (common/ymodem.c:170-308). */
module YmodemReceive {
  import opened Options
  import opened Bytes
  import opened Crc
  import opened YmodemCode
  import opened YmodemPacket
  import opened YmodemProtocol

  /** What the receiver's state machine sees of an outcome of Receive_Packet. */
  function Seen(o: Received): (input: Option<Frame>)
  {
    match o
    case Packet(no, payload) => Some(Pkt(no as nat, payload))
    case EndOfTransmission => Some(Eot)
    case AbortBySender => Some(Cancel)
    case AbortByUser => Some(AbortKey)
    case Failed => None
  }

  lemma SeenPayload(input: seq<bv8>)
    ensures var o := Outcome(input); o.Packet? ==> |o.payload| == PACKET_SIZE || |o.payload| == PACKET_1K_SIZE
  {
  }

  /** One call: the state machine's step on what arrives before the time-out. */
  ghost function CallStep(r: Receiver, maxsize: nat, input: seq<bv8>): (Receiver, seq<bv8>) {
    SeenPayload(input);
    ReceiverStep(r, maxsize, Seen(Outcome(input)))
  }

  /** The receiver after these calls, and its replies. */
  ghost function ReceiverRun(maxsize: nat, calls: seq<seq<bv8>>): (Receiver, seq<bv8>) {
    if calls == [] then (ReceiverStart, [])
    else
      var (r, sent) := ReceiverRun(maxsize, calls[..|calls| - 1]);
      var (r', more) := CallStep(r, maxsize, calls[|calls| - 1]);
      (r', sent + more)
  }

  /** The variables of Ymodem_Receive; `done` and `ret` stand for the jumps to its exit. */
  class Session {
    const maxsize: nat
    var packetsReceived: nat
    var errors: nat
    var fileLen: nat
    var size: nat
    var isOpen: bool
    var name: seq<bv8>
    var file: seq<bv8>
    var replies: seq<bv8>
    var done: bool
    var ret: int

    constructor (maxsize: nat)
      ensures this.maxsize == maxsize && State() == ReceiverStart && replies == []
    {
      this.maxsize := maxsize;
      packetsReceived, errors, fileLen, size, isOpen := 0, 0, 0, 0, false;
      name, file, replies, done, ret := [], [], [], false, 0;
    }

    ghost function State(): Receiver
      reads this
    {
      Receiver(if done then Some(ret) else None, packetsReceived, errors, fileLen, size, isOpen, name, file)
    }

    method Exit(code: int)
      modifies this
      ensures (State(), replies) == (old(State()).(returned := Some(code)), old(replies))
    {
      done, ret := true, code;
    }

    method Reply(bytes: seq<bv8>)
      modifies this`replies
      ensures replies == old(replies) + bytes
    {
      replies := replies + bytes;
    }

    /** The file name packet. */
    method FirstPacket(p: seq<bv8>)
      requires !done && packetsReceived == 0 && errors == 0 && |p| >= 64
      modifies this
      ensures var (r, sent) := GoodPacket(old(State()), maxsize, p); State() == r && replies == old(replies) + sent
    {
      hide NameOf, SizeOf;
      if p[0] != 0 {
        name := ParseName(p);
        size := ParseSize(p);
        if size < 1 || size > maxsize {
          Reply([CA, CA]);
          Exit(-4);
        } else {
          isOpen, file, fileLen := true, [], 0;
          Reply([ACK]);
          Reply([CRC16]);
          assert old(replies) + [ACK] + [CRC16] == old(replies) + [ACK, CRC16];
          packetsReceived := packetsReceived + 1;
        }
      } else {
        Reply([ACK]);
        Exit(size);
      }
    }

    method DataPacket(p: seq<bv8>)
      requires !done && packetsReceived > 0 && errors == 0 && |p| >= 64
      modifies this
      ensures var (r, sent) := GoodPacket(old(State()), maxsize, p); State() == r && replies == old(replies) + sent
    {
      if fileLen < size {
        fileLen := fileLen + |p|;
        var writeLen := if fileLen > size then |p| - (fileLen - size) else |p|;
        if !isOpen {
          Reply([CA, CA]);
          Exit(-2);
          return;
        }
        file := file + p[..writeLen];
      }
      Reply([ACK]);
      packetsReceived := packetsReceived + 1;
    }

    method NormalPacket(no: bv8, p: seq<bv8>)
      requires !done && |p| >= 64
      modifies this
      ensures var (r, sent) := ReceiverStep(old(State()), maxsize, Some(Pkt(no as nat, p)));
        State() == r && replies == old(replies) + sent
    {
      hide GoodPacket;
      if no as nat != packetsReceived % 256 {
        errors := errors + 1;
        if errors > MAX_ERRORS {
          Reply([CA, CA]);
          Exit(0);
        } else {
          Reply([NAK]);
        }
      } else {
        ErrorsCleared(State(), maxsize, p);
        errors := 0;
        if packetsReceived == 0 { FirstPacket(p); } else { DataPacket(p); }
      }
    }

    method Error()
      requires !done
      modifies this
      ensures var (r, sent) := BadPacket(old(State())); State() == r && replies == old(replies) + sent
    {
      errors := errors + 1;
      if errors > MAX_ERRORS {
        Reply([CA, CA]);
        Exit(0);
      } else {
        Reply([CRC16]);
      }
    }

    /** The body of the inner loop: one call of Receive_Packet and its two switches. */
    method HandleCall(input: seq<bv8>, data: array<bv8>) returns (fileDone: bool)
      requires !done && data.Length == PACKET_1K_SIZE + PACKET_OVERHEAD
      modifies this, data
      ensures var (r, sent) := CallStep(old(State()), maxsize, input);
        && replies == old(replies) + sent
        && State().(packets := if fileDone then 0 else packetsReceived) == r
      ensures fileDone ==> !done
    {
      hide Outcome, GoodPacket, BadPacket;
      SeenPayload(input);
      fileDone := false;
      var port := new Port(input);
      var code, length := ReceivePacket(port, data);
      ghost var o := Outcome(input);
      if code == 0 {
        if length == -1 {
          Reply([ACK]);
          Exit(0);
        } else if length == 0 {
          Reply([ACK]);
          fileDone := true;
        } else {
          assert data[..][1] == data[1] && data[..][PACKET_HEADER..PACKET_HEADER + length] == data[PACKET_HEADER..PACKET_HEADER + length];
          NormalPacket(data[1], data[PACKET_HEADER..PACKET_HEADER + length]);
        }
      } else if code == 1 {
        Reply([CA, CA]);
        Exit(-3);
      } else {
        Error();
      }
    }
  }

  lemma PacketSeen(bytes: seq<bv8>, no: nat, payload: seq<bv8>)
    requires Encodes(bytes, Pkt(no, payload))
    ensures |payload| >= 64 && Seen(Outcome(bytes)) == Some(Pkt(no, payload))
  {
    var header := if |payload| == PACKET_SIZE then SOH else STX;
    assert |payload| >= 64 by { hide Checksum; }
    hide IsPacket, Outcome;
    ByteOf(no);
    BuiltPacketArrives(bytes, header, no as bv8, payload, []);
    assert bytes + [] == bytes;
  }

  /** The bytes of a frame make the receiver take the step of that frame. */
  lemma FrameArrives(bytes: seq<bv8>, frame: Frame, r: Receiver, maxsize: nat)
    requires Encodes(bytes, frame)
    ensures frame.Pkt? ==> |frame.payload| >= 64
    ensures CallStep(r, maxsize, bytes) == ReceiverStep(r, maxsize, Some(frame))
  {
    hide GoodPacket, BadPacket, IsPacket, BodyOutcome;
    if frame.Pkt? {
      PacketSeen(bytes, frame.no, frame.payload);
      hide Outcome, Encodes;
    }
  }

  lemma ErrorsCleared(r: Receiver, maxsize: nat, p: seq<bv8>)
    requires |p| >= 64
    ensures GoodPacket(r, maxsize, p) == GoodPacket(r.(errors := 0), maxsize, p)
  {
    hide NameOf, SizeOf;
  }

  lemma NextCall(maxsize: nat, calls: seq<seq<bv8>>, at: nat)
    requires at < |calls|
    ensures var (r, sent) := ReceiverRun(maxsize, calls[..at]);
      ReceiverRun(maxsize, calls[..at + 1]) == (CallStep(r, maxsize, calls[at]).0, sent + CallStep(r, maxsize, calls[at]).1)
  {
    hide CallStep;
    assert calls[..at + 1][..at] == calls[..at];
  }

  /** Ymodem_Receive over the given calls, for first packets whose name and size end inside the payload
      (`EndsInside`; behind another one the source reads on in its packet buffer): its replies, the file, its name and the returned
      size are those of the receiver's state machine. `ended` tells that the calls are used up. */
  method Receive(calls: seq<seq<bv8>>, maxsize: nat) returns (s: Session, used: nat, ended: bool)
    ensures used <= |calls| && ReceiverRun(maxsize, calls[..used]) == (s.State(), s.replies)
    ensures if ended then used == |calls| && !s.done else s.done
  {
    hide CallStep;
    s := new Session(maxsize);
    var data := new bv8[PACKET_1K_SIZE + PACKET_OVERHEAD];
    used, ended := 0, false;
    while !s.done && !ended
      invariant used <= |calls| && s.maxsize == maxsize && fresh(s) && fresh(data)
      invariant ReceiverRun(maxsize, calls[..used]) == (s.State().(packets := if s.done || ended then s.packetsReceived else 0), s.replies)
      invariant ended ==> used == |calls| && !s.done
      decreases !ended, !s.done, |calls| - used
    {
      ghost var start := used;
      s.packetsReceived := 0;
      var fileDone := false;
      while !s.done && !ended && !fileDone
        invariant start <= used <= |calls| && s.maxsize == maxsize && (fileDone ==> start < used && !s.done && !ended)
        invariant ReceiverRun(maxsize, calls[..used]) == (s.State().(packets := if fileDone then 0 else s.packetsReceived), s.replies)
        invariant ended ==> used == |calls| && !s.done
        decreases !ended, |calls| - used
      {
        if used == |calls| {
          ended := true;
        } else {
          NextCall(maxsize, calls, used);
          fileDone := s.HandleCall(calls[used], data);
          used := used + 1;
        }
      }
    }
  }
}
