/** The receive buffer that the UART interrupt and the Bluetooth handler fill and the Lua thread
    drains (Lua/retarget.c:65-88, 130-162; Lua/bt.c:82-96). Both sides hold a mutex, so their bodies
    do not overlap. */
module RingBuffer {
  const SERIAL_BUFFER_SIZE := 256
  const WRAP: nat := 0x1_0000_0000

  class Buffer {
    const data: array<bv8>
    var head: nat
    var tail: nat

    /** Every byte that has ever been put in, and how many of them have left. */
    ghost var produced: seq<bv8>
    ghost var gone: nat

    /** The counters are 32 bits wide; the buffer holds the bytes from `gone` on. */
    ghost predicate Valid()
      reads this, data
    {
      && data.Length == SERIAL_BUFFER_SIZE
      && gone <= |produced| <= gone + SERIAL_BUFFER_SIZE
      && head == |produced| % WRAP && tail == gone % WRAP
      && Stored(data[..], produced, gone)
    }

    /** What has not been read yet. */
    ghost function Unread(): seq<bv8>
      reads this, data
      requires Valid()
    {
      produced[gone..]
    }

    constructor ()
      ensures Valid() && produced == [] && Unread() == []
    {
      data := new bv8[SERIAL_BUFFER_SIZE];
      head, tail := 0, 0;
      produced, gone := [], 0;
    }

    predicate IsEmpty()
      reads this
    {
      head == tail
    }

    /** The counters are equal only when the buffer is empty, and their difference is its length, even after they wrap. */
    lemma CountersTell()
      requires Valid()
      ensures IsEmpty() <==> Unread() == []
      ensures (head - tail) % WRAP == |Unread()|
      ensures head % SERIAL_BUFFER_SIZE == |produced| % SERIAL_BUFFER_SIZE && tail % SERIAL_BUFFER_SIZE == gone % SERIAL_BUFFER_SIZE
    {
      Difference(|produced|, gone);
      Index(|produced|);
      Index(gone);
    }

    /** One turn of the loop in the interrupt handler. */
    method Put(b: bv8)
      requires Valid()
      modifies this, data
      ensures Valid() && produced == old(produced) + [b]
      ensures Unread() == Pushed(old(Unread()), b)
    {
      CountersTell();
      PushedSlice(produced, gone, b);
      StoredNext(data[..], produced, gone, b);
      Room(|produced|, gone);
      hide Pushed, Stored;
      data[head % SERIAL_BUFFER_SIZE] := b;
      produced := produced + [b];
      head := (head + 1) % WRAP;
      if (head - tail) % WRAP > SERIAL_BUFFER_SIZE {
        tail := (head - SERIAL_BUFFER_SIZE) % WRAP;
        gone := gone + 1;
      }
    }

    /** One event of the interrupt handler: all the bytes that it has read from the port. */
    method Fill(bytes: seq<bv8>)
      requires Valid()
      modifies this, data
      ensures Valid() && produced == old(produced) + bytes && Unread() == PushedAll(old(Unread()), bytes)
    {
      hide Valid, Pushed, Unread;
      assert old(produced) + bytes[..0] == old(produced) && bytes[0..] == bytes;
      for i := 0 to |bytes|
        invariant Valid() && produced == old(produced) + bytes[..i]
        invariant PushedAll(old(Unread()), bytes) == PushedAll(Unread(), bytes[i..])
      {
        assert bytes[i..][1..] == bytes[i + 1..] && bytes[..i + 1] == bytes[..i] + [bytes[i]];
        Put(bytes[i]);
        assert old(produced) + bytes[..i] + [bytes[i]] == old(produced) + bytes[..i + 1];
      }
      assert bytes[..|bytes|] == bytes && bytes[|bytes|..] == [];
    }

    /** The part of retarget_getc behind the wait. */
    method GetC() returns (ch: bv8)
      requires Valid() && !IsEmpty()
      modifies this
      ensures Valid() && produced == old(produced)
      ensures old(Unread()) == [ch] + Unread()
    {
      CountersTell();
      ch := data[tail % SERIAL_BUFFER_SIZE];
      tail := (tail + 1) % WRAP;
      Increment(gone);
      gone := gone + 1;
    }
  }

  // ----- 32-bit counters ----------------------------------------------------

  lemma Difference(h: nat, t: nat)
    requires t <= h <= t + SERIAL_BUFFER_SIZE + 1
    ensures (h % WRAP - t % WRAP) % WRAP == h - t
  {
    var a, b := h / WRAP, t / WRAP;
    assert h % WRAP - t % WRAP == (b - a) * WRAP + (h - t);
    if a == b {
    } else {
      assert a == b + 1;
    }
  }

  lemma Increment(n: nat)
    ensures (n % WRAP + 1) % WRAP == (n + 1) % WRAP
  {
  }

  lemma Behind(n: nat)
    requires n >= SERIAL_BUFFER_SIZE
    ensures (n % WRAP - SERIAL_BUFFER_SIZE) % WRAP == (n - SERIAL_BUFFER_SIZE) % WRAP
  {
  }

  /** The size of the buffer divides 2^32, so the slot survives the wrap-around. */
  lemma Index(n: nat)
    ensures n % WRAP % SERIAL_BUFFER_SIZE == n % SERIAL_BUFFER_SIZE
  {
    var q, r := n / WRAP, n % WRAP;
    assert n == SERIAL_BUFFER_SIZE * (q * (WRAP / SERIAL_BUFFER_SIZE)) + r;
  }

  /** The counters after a byte was put in. */
  lemma Room(h: nat, t: nat)
    requires t <= h <= t + SERIAL_BUFFER_SIZE
    ensures (h % WRAP + 1) % WRAP == (h + 1) % WRAP
    ensures ((h + 1) % WRAP - t % WRAP) % WRAP == h + 1 - t
    ensures h == t + SERIAL_BUFFER_SIZE ==> ((h + 1) % WRAP - SERIAL_BUFFER_SIZE) % WRAP == (t + 1) % WRAP
  {
    Increment(h);
    Difference(h + 1, t);
    if h == t + SERIAL_BUFFER_SIZE { Behind(h + 1); }
  }

  /** Unread bytes and the next one have slots of their own. */
  lemma NewSlot(t: nat, h: nat)
    requires t <= h <= t + SERIAL_BUFFER_SIZE
    ensures forall i :: t <= i < h && i > h - SERIAL_BUFFER_SIZE ==> i % SERIAL_BUFFER_SIZE != h % SERIAL_BUFFER_SIZE
  {
  }

  /** The bytes from number `gone` on stand in their slots. */
  ghost predicate Stored(data: seq<bv8>, produced: seq<bv8>, gone: nat)
    requires |data| == SERIAL_BUFFER_SIZE
  {
    forall i :: gone <= i < |produced| ==> data[i % SERIAL_BUFFER_SIZE] == produced[i]
  }

  lemma StoredNext(data: seq<bv8>, produced: seq<bv8>, gone: nat, b: bv8)
    requires |data| == SERIAL_BUFFER_SIZE && gone <= |produced| <= gone + SERIAL_BUFFER_SIZE && Stored(data, produced, gone)
    ensures Stored(data[|produced| % SERIAL_BUFFER_SIZE := b], produced + [b],
      if |produced| - gone < SERIAL_BUFFER_SIZE then gone else gone + 1)
  {
    NewSlot(gone, |produced|);
  }

  // ----- what gets lost -----------------------------------------------------

  /** A byte arrives: a full buffer gives up its oldest one. */
  function Pushed(unread: seq<bv8>, b: bv8): seq<bv8> {
    if |unread| < SERIAL_BUFFER_SIZE then unread + [b] else unread[1..] + [b]
  }

  lemma PushedSlice(produced: seq<bv8>, gone: nat, b: bv8)
    requires gone <= |produced|
    ensures Pushed(produced[gone..], b) ==
      (produced + [b])[if |produced| - gone < SERIAL_BUFFER_SIZE then gone else gone + 1..]
  {
  }

  function PushedAll(unread: seq<bv8>, bytes: seq<bv8>): seq<bv8>
    decreases |bytes|
  {
    if bytes == [] then unread else PushedAll(Pushed(unread, bytes[0]), bytes[1..])
  }

  datatype Event = Produce(b: bv8) | Read

  /** `at` numbers the bytes that were delivered among those that were produced, and `lost` those that
      were overwritten. A read of an empty buffer waits. */
  datatype History = History(produced: seq<bv8>, gone: nat, at: seq<nat>, unread: seq<bv8>, lost: seq<nat>)

  function Next(h: History, e: Event): History {
    match e
    case Produce(b) =>
      var h' := h.(produced := h.produced + [b], unread := Pushed(h.unread, b));
      if |h.unread| < SERIAL_BUFFER_SIZE then h' else h'.(gone := h.gone + 1, lost := h.lost + [h.gone])
    case Read => if h.unread == [] then h else h.(gone := h.gone + 1, at := h.at + [h.gone], unread := h.unread[1..])
  }

  function Run(events: seq<Event>): History {
    if events == [] then History([], 0, [], [], []) else Next(Run(events[..|events| - 1]), events[|events| - 1])
  }

  predicate Increasing(s: seq<nat>, limit: int) {
    (forall i, j :: 0 <= i < j < |s| ==> s[i] < s[j]) && (forall i :: 0 <= i < |s| ==> s[i] < limit)
  }

  /** The bytes that left the buffer were either delivered or lost, each of them once and in order;
      the others are the unread ones. Only with 256 newer bytes behind it is a byte lost. */
  ghost predicate Accounted(h: History) {
    && |h.unread| <= 256 && h.gone + |h.unread| == |h.produced| && h.unread == h.produced[h.gone..]
    && Increasing(h.at, h.gone) && Increasing(h.lost, h.gone)
    && |h.at| + |h.lost| == h.gone
    && (forall i :: 0 <= i < h.gone ==> i in h.at || i in h.lost)
    && (forall i :: 0 <= i < |h.lost| ==> h.lost[i] + 256 < |h.produced|)
  }

  lemma Grows(s: seq<nat>, limit: nat)
    requires Increasing(s, limit)
    ensures Increasing(s + [limit], limit + 1) && Increasing(s, limit + 1)
  {
  }

  /** In every interleaving of bursts and reads, the delivered bytes and then the unread ones are the
      produced stream without the bytes that were lost, and a byte is lost only as the oldest unread one
      when 256 are unread. */
  lemma {:induction false} NothingElseIsLost(events: seq<Event>)
    ensures Accounted(Run(events))
    decreases |events|
  {
    if events != [] {
      hide Increasing;
      var n := |events| - 1;
      NothingElseIsLost(events[..n]);
      StepAccounted(Run(events[..n]), events[n]);
      assert Run(events) == Next(Run(events[..n]), events[n]);
    }
  }

  lemma StepAccounted(h: History, e: Event)
    requires Accounted(h)
    ensures Accounted(Next(h, e))
  {
    var h' := Next(h, e);
    Grows(h.at, h.gone);
    Grows(h.lost, h.gone);
    hide Increasing;
    match e
    case Produce(b) =>
      assert h.produced[h.gone..] + [b] == h'.produced[h.gone..];
      if h'.gone > h.gone {
        assert h'.produced[h.gone..][1..] == h'.produced[h'.gone..];
        assert forall i :: 0 <= i < h'.gone ==> i in h'.at || i in h'.lost;
      }
    case Read =>
      if h.unread != [] {
        assert h.produced[h.gone..][1..] == h'.produced[h'.gone..];
        assert forall i :: 0 <= i < h'.gone ==> i in h'.at || i in h'.lost;
      }
  }

  /** What was delivered, byte by byte. */
  function Delivered(h: History): seq<bv8>
    requires Accounted(h)
  {
    seq(|h.at|, i requires 0 <= i < |h.at| => Wrote(h, i))
  }

  function Wrote(h: History, i: nat): bv8
    requires Accounted(h) && i < |h.at|
  {
    h.produced[h.at[i]]
  }

  /** While the reader keeps up, nothing is lost: delivered and unread bytes are the whole stream. */
  lemma KeepingUpLosesNothing(h: History)
    requires Accounted(h) && h.lost == []
    ensures Delivered(h) + h.unread == h.produced
  {
    assert |h.at| == h.gone;
    forall i | 0 <= i < |h.at| ensures h.at[i] == i {
      Position(h.at, i, |h.at|);
    }
    assert Delivered(h) == h.produced[..h.gone];
  }

  /** An increasing list of all numbers below its length has each number in its place. */
  lemma {:induction false} Position(s: seq<nat>, i: nat, n: nat)
    requires i < n == |s| && Increasing(s, n)
    ensures s[i] == i
  {
    AtLeast(s, i);
    AtMost(s, i, n);
  }

  lemma {:induction false} AtLeast(s: seq<nat>, i: nat)
    requires i < |s| && forall i, j :: 0 <= i < j < |s| ==> s[i] < s[j]
    ensures s[i] >= i
  {
    if i > 0 { AtLeast(s, i - 1); }
  }

  lemma {:induction false} AtMost(s: seq<nat>, i: nat, n: nat)
    requires i < n == |s| && Increasing(s, n)
    ensures s[i] <= i
    decreases n - i
  {
    if i + 1 < n { AtMost(s, i + 1, n); }
  }
}
