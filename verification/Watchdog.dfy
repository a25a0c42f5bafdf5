/** The watchdog handshake (Lua/main.c:57-80, 97-150; Lua/retarget.c:65-117; Lua/lua/lvm.c:443-447): a timer interrupt asks for
    resets, the main thread does them, and the Lua thread shows that it is alive. _reset_wdg is cut
    into its single accesses, since the interrupt can come between any two of them, and since the
    Lua thread calls it too, at every instruction and while it waits for characters. */
module Watchdog {
  const SYS_TIMER_INTERVAL := 22
  const MAX_WDT_RESET_COUNT := 145
  const SYS_WDT_TMO := 13001
  const SYS_WDT_RST := 10834

  /** Where a thread is in _reset_wdg: in front of the next access that it makes. */
  datatype Place = Outside | AtCount | AtReset | AtTime | AtFlag

  datatype Thread = Main | Shell

  /** `resets` counts vm_wdt_reset, `sinceReset` is the time since the last one in ticks; `pending` counts the
      timer interrupts during a request, and `busy` those since a request came up or while a thread is inside. */
  datatype State = State(rstTime: nat, wdtTime: nat, count: nat, request: bool, main: Place, shell: Place, rebooted: bool,
                         resets: nat, sinceReset: nat, pending: nat, busy: nat)

  const Start := State(0, 0, 0, false, Outside, Outside, false, 0, 0, 0, 0)

  datatype Event = Tick | Enter(t: Thread) | Go(t: Thread) | ShellReads

  function PlaceOf(s: State, t: Thread): Place {
    if t.Main? then s.main else s.shell
  }

  function Other(t: Thread): Thread {
    if t.Main? then Shell else Main
  }

  function Moved(s: State, t: Thread, p: Place): State {
    if t.Main? then s.(main := p) else s.(shell := p)
  }

  /** A request is on or a thread is inside. */
  predicate IsBusy(s: State) {
    s.request || s.main != Outside || s.shell != Outside
  }

  /** sys_timer_callback, without the LED. */
  function TimerInterrupt(s0: State): State {
    var s := s0.(rstTime := s0.rstTime + SYS_TIMER_INTERVAL, wdtTime := s0.wdtTime + SYS_TIMER_INTERVAL,
                 sinceReset := s0.sinceReset + SYS_TIMER_INTERVAL,
                 pending := if s0.request then s0.pending + 1 else s0.pending,
                 busy := if IsBusy(s0) then s0.busy + 1 else 0);
    if s.request then s
    else if s.rstTime < SYS_WDT_RST && s.wdtTime > SYS_WDT_RST then s.(count := s.count + 1, request := true, pending := 0)
    else s
  }

  /** One access of _reset_wdg. */
  function Advance(s: State, t: Thread): State {
    match PlaceOf(s, t)
    case Outside => s
    case AtCount => if s.count > MAX_WDT_RESET_COUNT then s.(rebooted := true) else Moved(s, t, AtReset)
    case AtReset => Moved(s, t, AtTime).(resets := s.resets + 1, sinceReset := 0)
    case AtTime => Moved(s, t, AtFlag).(wdtTime := 0)
    case AtFlag => Moved(s, t, Outside).(request := false)
  }

  /** A reboot is final. The Lua thread executes instructions and reads characters only outside
      of _reset_wdg. */
  function Next(s: State, e: Event): State {
    if s.rebooted then s
    else
      match e
      case Tick => TimerInterrupt(s)
      case Enter(t) => if PlaceOf(s, t) == Outside && s.request then Moved(s, t, AtCount) else s
      case Go(t) => Advance(s, t)
      case ShellReads => if s.shell == Outside then s.(rstTime := 0) else s
  }

  function Run(events: seq<Event>): State {
    if events == [] then Start else Next(Run(events[..|events| - 1]), events[|events| - 1])
  }

  // ----- the count ----------------------------------------------------------

  predicate Past(p: Place) {
    p == AtTime || p == AtFlag
  }

  predicate AnyPast(s: State) {
    Past(s.main) || Past(s.shell)
  }

  /** sys_wdt_rst_count is the number of resets done and the one that is asked for. */
  predicate Counted(s: State) {
    s.count == s.resets + if s.request && !AnyPast(s) then 1 else 0
  }

  /** A thread resets the timer for a request that has been answered already, or an interrupt makes a
      new request while a thread still works on the old one. */
  predicate Doubles(s: State, e: Event) {
    !s.rebooted
    && (|| (e.Go? && PlaceOf(s, e.t) == AtReset && (!s.request || Past(PlaceOf(s, Other(e.t)))))
        || (e.Tick? && !s.request && TimerInterrupt(s).request && AnyPast(s)))
  }

  /** The count stays right in a step if and only if the step doubles no reset. */
  lemma CountKeptIff(s: State, e: Event)
    requires Counted(s)
    ensures Counted(Next(s, e)) <==> !Doubles(s, e)
  {
  }

  lemma RunStep(events: seq<Event>, e: Event)
    ensures Run(events + [e]) == Next(Run(events), e)
  {
    assert (events + [e])[..|events|] == events;
  }

  ghost predicate AlwaysCounted(events: seq<Event>) {
    forall i :: 0 <= i <= |events| ==> Counted(Run(events[..i]))
  }

  ghost predicate NeverDoubles(events: seq<Event>) {
    forall i :: 0 <= i < |events| ==> !Doubles(Run(events[..i]), events[i])
  }

  lemma AlwaysCountedSplit(events: seq<Event>)
    requires events != []
    ensures AlwaysCounted(events) <==> AlwaysCounted(events[..|events| - 1]) && Counted(Run(events))
  {
    hide Run, Counted;
    var n := |events| - 1;
    assert forall i :: 0 <= i <= n ==> events[..n][..i] == events[..i];
    assert events[..n + 1] == events;
    if AlwaysCounted(events) {
      forall i | 0 <= i <= n ensures Counted(Run(events[..n][..i])) { assert Counted(Run(events[..i])); }
    }
    if AlwaysCounted(events[..n]) && Counted(Run(events)) {
      forall i | 0 <= i <= n + 1 ensures Counted(Run(events[..i])) {
        if i <= n { assert Counted(Run(events[..n][..i])); }
      }
    }
  }

  lemma NeverDoublesSplit(events: seq<Event>)
    requires events != []
    ensures var n := |events| - 1;
      NeverDoubles(events) <==> NeverDoubles(events[..n]) && !Doubles(Run(events[..n]), events[n])
  {
    hide Run, Doubles;
    var n := |events| - 1;
    assert forall i :: 0 <= i < n ==> events[..n][..i] == events[..i] && events[..n][i] == events[i];
    if NeverDoubles(events) {
      forall i | 0 <= i < n ensures !Doubles(Run(events[..n][..i]), events[..n][i]) { assert !Doubles(Run(events[..i]), events[i]); }
    }
    if NeverDoubles(events[..n]) && !Doubles(Run(events[..n]), events[n]) {
      forall i | 0 <= i < |events| ensures !Doubles(Run(events[..i]), events[i]) {
        if i < n { assert !Doubles(Run(events[..n][..i]), events[..n][i]); }
      }
    }
  }

  lemma AlwaysCountedAtEnd(events: seq<Event>)
    requires AlwaysCounted(events)
    ensures Counted(Run(events))
  {
    hide Run, Counted;
    assert events[..|events|] == events;
  }

  /** In every interleaving, the count is right all the way if and only if no step doubles a reset. */
  lemma {:induction false} AlwaysCountedIff(events: seq<Event>)
    ensures AlwaysCounted(events) <==> NeverDoubles(events)
    decreases |events|
  {
    hide Next, Doubles, Counted;
    if events == [] {
      assert Counted(Run([])) by { StartIsCounted(); }
    } else {
      var n := |events| - 1;
      AlwaysCountedSplit(events);
      NeverDoublesSplit(events);
      AlwaysCountedIff(events[..n]);
      hide AlwaysCounted, NeverDoubles;
      if AlwaysCounted(events[..n]) {
        AlwaysCountedAtEnd(events[..n]);
        CountKeptIff(Run(events[..n]), events[n]);
      }
    }
  }

  lemma StartIsCounted()
    ensures Counted(Start)
  {
  }

  // ----- every run ----------------------------------------------------------

  /** The thread can still reset the timer before the next request, and gets past the check. */
  function Credit(s: State, p: Place): nat {
    if p == AtReset || (s.count <= MAX_WDT_RESET_COUNT && (p == AtCount || (p == Outside && s.request))) then 1 else 0
  }

  function Capped(count: nat): nat {
    if count <= MAX_WDT_RESET_COUNT then count else MAX_WDT_RESET_COUNT
  }

  predicate Bounded(s: State) {
    s.resets + Credit(s, s.main) + Credit(s, s.shell) <= 2 * Capped(s.count)
  }

  lemma StepKeepsBounded(s: State, e: Event)
    requires Bounded(s)
    ensures Bounded(Next(s, e))
  {
  }

  /** In every interleaving the timer is reset at most twice for each request, and 290 times before the reboot. */
  lemma {:induction false} ResetsAreBounded(events: seq<Event>)
    ensures Bounded(Run(events))
    ensures Run(events).resets <= 2 * Run(events).count && Run(events).resets <= 290
    decreases |events|
  {
    hide Next;
    if events != [] {
      var n := |events| - 1;
      ResetsAreBounded(events[..n]);
      StepKeepsBounded(Run(events[..n]), events[n]);
    }
  }

  // ----- runs in which the two threads do not meet in _reset_wdg -------------

  predicate Inside(p: Place) {
    p != Outside
  }

  /** No thread enters _reset_wdg while the other one is inside. */
  ghost predicate Serial(events: seq<Event>) {
    forall i :: 0 <= i < |events| && events[i].Enter? ==> PlaceOf(Run(events[..i]), Other(events[i].t)) == Outside
  }

  ghost predicate Inv(s: State) {
    && Counted(s) && (s.main == Outside || s.shell == Outside)
    && (Inside(s.main) || Inside(s.shell) ==> s.request)
    && (s.main == AtReset || s.shell == AtReset ==> s.count <= MAX_WDT_RESET_COUNT)
    && s.resets <= MAX_WDT_RESET_COUNT
  }

  lemma StepKeepsInv(s: State, e: Event)
    requires Inv(s) && (e.Enter? ==> PlaceOf(s, Other(e.t)) == Outside)
    ensures Inv(Next(s, e))
  {
    CountKeptIff(s, e);
  }

  lemma SerialPrefix(events: seq<Event>)
    requires Serial(events) && events != []
    ensures var n := |events| - 1;
      Serial(events[..n]) && (events[n].Enter? ==> PlaceOf(Run(events[..n]), Other(events[n].t)) == Outside)
      && Run(events) == Next(Run(events[..n]), events[n])
  {
    hide Next;
    var n := |events| - 1;
    forall i | 0 <= i < n && events[..n][i].Enter? ensures PlaceOf(Run(events[..n][..i]), Other(events[..n][i].t)) == Outside {
      assert events[..n][..i] == events[..i];
      assert events[i].Enter?;
    }
  }

  lemma {:induction false} InvAlways(events: seq<Event>)
    requires Serial(events)
    ensures Inv(Run(events))
    decreases |events|
  {
    hide Next, Serial;
    if events != [] {
      var n := |events| - 1;
      SerialPrefix(events);
      InvAlways(events[..n]);
      StepKeepsInv(Run(events[..n]), events[n]);
    }
  }

  /** In every interleaving in which the threads do not meet, the count is the resets done and the one asked
      for, and the timer is reset at most 145 times before the reboot. */
  lemma ResetsAreCounted(events: seq<Event>)
    requires Serial(events)
    ensures Counted(Run(events)) && Run(events).resets <= 145
  {
    InvAlways(events);
  }

  /** The module reboots exactly when a thread comes to the count and finds more than 145 requests in it; the timer is
      not reset at that. */
  lemma RebootsIff(s: State, e: Event)
    ensures Next(s, e).rebooted <==> s.rebooted || (e.Go? && PlaceOf(s, e.t) == AtCount && s.count > 145)
    ensures Next(s, e).rebooted ==> Next(s, e).resets == s.resets && Next(Next(s, e), e) == Next(s, e)
  {
  }

  // ----- and when they do meet ----------------------------------------------

  /** Nothing is asked for, both threads are elsewhere, and each of the `n` requests has reset the timer twice. */
  predicate IdleAfter(s: State, n: nat) {
    && !s.request && s.main == Outside && s.shell == Outside && !s.rebooted
    && s.rstTime == 0 && s.wdtTime == 0 && s.count == n && s.resets == 2 * n
  }

  /** `k` timer interrupts in a row. */
  lemma {:induction false} Waiting(before: seq<Event>, n: nat, k: nat) returns (events: seq<Event>)
    requires IdleAfter(Run(before), n) && k <= 492
    ensures var s := Run(before); Run(events) == s.(rstTime := 22 * k, wdtTime := 22 * k, sinceReset := s.sinceReset + 22 * k, busy := if k == 0 then s.busy else 0)
  {
    if k == 0 {
      events := before;
    } else {
      var front := Waiting(before, n, k - 1);
      events := front + [Tick];
      RunStep(front, Tick);
    }
  }

  /** Both threads pass the check of do_wdt_reset before either of them has reset the timer. */
  lemma BothReset(before: seq<Event>, n: nat) returns (events: seq<Event>)
    requires var s := Run(before); s.request && s.main == Outside && s.shell == Outside && !s.rebooted
    requires Run(before).count == n + 1 <= MAX_WDT_RESET_COUNT && Run(before).resets == 2 * n
    ensures IdleAfter(Run(events), n + 1)
  {
    hide Run;
    events := before;
    RunStep(events, Enter(Main));
    events := events + [Enter(Main)];
    RunStep(events, Enter(Shell));
    events := events + [Enter(Shell)];
    RunStep(events, Go(Main));
    events := events + [Go(Main)];
    RunStep(events, Go(Shell));
    events := events + [Go(Shell)];
    RunStep(events, Go(Main));
    events := events + [Go(Main)];
    RunStep(events, Go(Shell));
    events := events + [Go(Shell)];
    RunStep(events, Go(Main));
    events := events + [Go(Main)];
    RunStep(events, Go(Shell));
    events := events + [Go(Shell)];
    RunStep(events, Go(Main));
    events := events + [Go(Main)];
    RunStep(events, Go(Shell));
    events := events + [Go(Shell)];
    RunStep(events, ShellReads);
    events := events + [ShellReads];
  }

  lemma OneRequest(before: seq<Event>, n: nat) returns (events: seq<Event>)
    requires IdleAfter(Run(before), n) && n < MAX_WDT_RESET_COUNT
    ensures IdleAfter(Run(events), n + 1)
  {
    hide Run;
    events := Waiting(before, n, 492);
    RunStep(events, ShellReads);
    events := events + [ShellReads];
    RunStep(events, Tick);
    events := BothReset(events + [Tick], n);
  }

  /** One request can reset the timer twice, and so can each of them: the bound of 290 resets is reached. */
  lemma {:induction false} TwoResetsForOneRequest(n: nat) returns (events: seq<Event>)
    requires n <= MAX_WDT_RESET_COUNT
    ensures Run(events).count == n && Run(events).resets == 2 * n && IdleAfter(Run(events), n)
  {
    if n == 0 {
      events := [];
    } else {
      var before := TwoResetsForOneRequest(n - 1);
      events := OneRequest(before, n - 1);
    }
  }

  // ----- the time between two resets ----------------------------------------

  /** At most 48 timer interrupts (4.9 s) come from a request on until it is answered and both threads
      are outside again. */
  const MAX_BUSY := 48

  datatype Limits = Answered(n: nat) | Left(n: nat)

  /** The Lua thread shows in time that it is alive, and at most `n` interrupts come until a request is
      answered, or until both threads are outside again as well. */
  predicate Timely(s: State, l: Limits) {
    s.rstTime < SYS_WDT_RST && match l case Answered(n) => s.pending <= n case Left(n) => s.busy <= n
  }

  ghost predicate TimelyRun(events: seq<Event>, l: Limits) {
    forall i :: 0 <= i <= |events| ==> Timely(Run(events[..i]), l)
  }

  /** Between requests the hardware is at most 48 interrupts ahead of sys_wdt_time. Once a thread has reset
      the timer for a request, or has zeroed sys_wdt_time, that is as long ago as the request at most. */
  ghost predicate TimeInv(s: State) {
    if !IsBusy(s) then s.wdtTime <= SYS_WDT_RST && s.sinceReset <= s.wdtTime + 22 * MAX_BUSY
    else
      && s.sinceReset <= SYS_WDT_RST + 22 + 22 * MAX_BUSY + 22 * s.busy
      && (AnyPast(s) || !s.request ==> s.sinceReset <= 22 * s.busy)
      && (s.main == AtFlag || s.shell == AtFlag || !s.request ==> s.wdtTime <= 22 * s.busy)
  }

  lemma StepKeepsTime(s: State, e: Event)
    requires TimeInv(s) && Timely(s, Left(MAX_BUSY)) && Timely(Next(s, e), Left(MAX_BUSY))
    ensures TimeInv(Next(s, e))
  {
  }

  lemma {:induction false} TimeAlways(events: seq<Event>)
    requires TimelyRun(events, Left(MAX_BUSY))
    ensures TimeInv(Run(events)) && Timely(Run(events), Left(MAX_BUSY))
    decreases |events|
  {
    hide Next, Timely, TimeInv;
    if events == [] {
      assert TimeInv(Start) && Timely(Start, Left(MAX_BUSY)) by { StartInTime(); }
    } else {
      var n := |events| - 1;
      TimelyPrefix(events, n, Left(MAX_BUSY));
      TimelyAtEnd(events, Left(MAX_BUSY));
      TimeAlways(events[..n]);
      StepKeepsTime(Run(events[..n]), events[n]);
    }
  }

  lemma StartInTime()
    ensures TimeInv(Start) && Timely(Start, Left(MAX_BUSY))
  {
  }

  /** In every interleaving in which the Lua thread shows in time that it is alive and requests are answered
      in time, the hardware never sees its time-out pass, even when interrupts come between the reset and
      the zeroing of sys_wdt_time and both threads are inside. */
  lemma ResetInTime(events: seq<Event>)
    requires TimelyRun(events, Left(MAX_BUSY))
    ensures Run(events).sinceReset < 13001
  {
    TimeAlways(events);
  }

  /** While the threads do not meet, only a request keeps them busy. */
  lemma {:induction false} BusyIsPending(events: seq<Event>)
    requires Serial(events)
    ensures Run(events).request ==> Run(events).busy == Run(events).pending
    ensures IsBusy(Run(events)) ==> Run(events).request
    decreases |events|
  {
    hide Serial;
    InvAlways(events);
    if events != [] {
      var n := |events| - 1;
      SerialPrefix(events);
      BusyIsPending(events[..n]);
      InvAlways(events[..n]);
    }
  }

  // ----- runs that meet the limits, step by step -----------------------------

  lemma TimelyMore(events: seq<Event>, e: Event, l: Limits)
    requires TimelyRun(events, l) && Timely(Next(Run(events), e), l)
    ensures TimelyRun(events + [e], l) && Run(events + [e]) == Next(Run(events), e)
  {
    hide Timely, Next, Run;
    RunStep(events, e);
    assert forall i :: 0 <= i <= |events| ==> (events + [e])[..i] == events[..i];
    assert (events + [e])[..|events| + 1] == events + [e];
  }

  lemma TimelyPrefix(events: seq<Event>, n: nat, l: Limits)
    requires TimelyRun(events, l) && n <= |events|
    ensures TimelyRun(events[..n], l) && Timely(Run(events[..n]), l)
  {
    hide Timely, Run;
    assert forall i :: 0 <= i <= n ==> events[..n][..i] == events[..i];
  }

  lemma TimelyAtEnd(events: seq<Event>, l: Limits)
    requires TimelyRun(events, l)
    ensures Timely(Run(events), l)
  {
    hide Run, Timely;
    assert events[..|events|] == events;
  }

  lemma StartIsTimely(l: Limits)
    ensures TimelyRun([], l) && Run([]) == Start
  {
  }

  function After(s: State, more: seq<Event>): State
    decreases |more|
  {
    if more == [] then s else After(Next(s, more[0]), more[1..])
  }

  predicate TimelyFrom(s: State, more: seq<Event>, l: Limits)
    decreases |more|
  {
    more == [] || (Timely(Next(s, more[0]), l) && TimelyFrom(Next(s, more[0]), more[1..], l))
  }

  /** One after the other. */
  lemma {:induction false} TimelySteps(before: seq<Event>, more: seq<Event>, l: Limits)
    requires TimelyRun(before, l) && TimelyFrom(Run(before), more, l)
    ensures TimelyRun(before + more, l) && Run(before + more) == After(Run(before), more)
    decreases |more|
  {
    hide Run, TimelyRun, Timely, Next;
    if more == [] {
      assert before + more == before;
    } else {
      TimelyMore(before, more[0], l);
      TimelySteps(before + [more[0]], more[1..], l);
      assert before + more == before + [more[0]] + more[1..];
    }
  }

  lemma Three(s: State, a: Event, b: Event, c: Event, l: Limits)
    ensures After(s, [a, b, c]) == Next(Next(Next(s, a), b), c)
    ensures TimelyFrom(s, [a, b, c], l) <==> Timely(Next(s, a), l) && Timely(Next(Next(s, a), b), l) && Timely(Next(Next(Next(s, a), b), c), l)
  {
    hide Next, Timely;
    assert [a, b, c][1..] == [b, c] && [b, c][1..] == [c] && [c][1..] == [];
    var s1 := Next(s, a);
    var s2 := Next(s1, b);
    assert TimelyFrom(Next(s2, c), [], l) && After(Next(s2, c), []) == Next(s2, c);
    assert After(s2, [c]) == Next(s2, c) && (TimelyFrom(s2, [c], l) <==> Timely(Next(s2, c), l));
    assert After(s1, [b, c]) == After(s2, [c]);
  }

  lemma {:induction false} FromConcat(s: State, a: seq<Event>, b: seq<Event>, l: Limits)
    ensures After(s, a + b) == After(After(s, a), b)
    ensures TimelyFrom(s, a + b, l) <==> TimelyFrom(s, a, l) && TimelyFrom(After(s, a), b, l)
    decreases |a|
  {
    hide Next, Timely;
    if a == [] {
      assert a + b == b;
    } else {
      assert (a + b)[1..] == a[1..] + b;
      FromConcat(Next(s, a[0]), a[1..], b, l);
    }
  }

  /** `k` interrupts that bring no request. */
  lemma {:induction false} Ticks(before: seq<Event>, k: nat, l: Limits) returns (events: seq<Event>)
    requires TimelyRun(before, l)
    requires var s := Run(before); !s.request && !s.rebooted && s.rstTime + 22 * k < SYS_WDT_RST && s.wdtTime + 22 * k <= SYS_WDT_RST
    requires l.Left? ==> !IsBusy(Run(before))
    ensures TimelyRun(events, l)
    ensures var s, s' := Run(before), Run(events);
      s' == s.(rstTime := s.rstTime + 22 * k, wdtTime := s.wdtTime + 22 * k, sinceReset := s.sinceReset + 22 * k, busy := s'.busy)
  {
    hide TimelyRun, Run;
    if k == 0 {
      events := before;
    } else {
      var front := Ticks(before, k - 1, l);
      TimelyAtEnd(front, l);
      TimelyMore(front, Tick, l);
      events := front + [Tick];
    }
  }

  /** `k` interrupts during a request. */
  lemma {:induction false} TicksInRequest(before: seq<Event>, k: nat, l: Limits) returns (events: seq<Event>)
    requires TimelyRun(before, l)
    requires var s := Run(before); s.request && !s.rebooted && s.rstTime + 22 * k < SYS_WDT_RST
    requires var s := Run(before); match l case Answered(n) => s.pending + k <= n case Left(n) => s.busy + k <= n
    ensures TimelyRun(events, l)
    ensures var s := Run(before);
      Run(events) == s.(rstTime := s.rstTime + 22 * k, wdtTime := s.wdtTime + 22 * k, sinceReset := s.sinceReset + 22 * k,
                        pending := s.pending + k, busy := s.busy + k)
  {
    hide TimelyRun, Run;
    if k == 0 {
      events := before;
    } else {
      var front := TicksInRequest(before, k - 1, l);
      TimelyMore(front, Tick, l);
      events := front + [Tick];
    }
  }

  // ----- the limit of 48 interrupts is exact ---------------------------------

  const ASK: seq<Event> := [ShellReads, Tick, ShellReads]

  /** The interrupt that brings a request. */
  lemma Asks(s: State, l: Limits)
    requires s.rstTime == s.wdtTime == 22 * 492 && !s.rebooted && !IsBusy(s) && Timely(s, l)
    ensures TimelyFrom(s, ASK, l)
    ensures After(s, ASK) == s.(rstTime := 0, wdtTime := 22 * 493, sinceReset := s.sinceReset + 22, count := s.count + 1,
                                request := true, pending := 0, busy := 0)
  {
    Three(s, ShellReads, Tick, ShellReads, l);
  }

  const DO_RESET: seq<Event> := [Enter(Main), Go(Main), Go(Main)]

  lemma Resets(s: State, l: Limits)
    requires s.request && s.main == Outside && s.shell == Outside && !s.rebooted && s.count <= MAX_WDT_RESET_COUNT && Timely(s, l)
    ensures TimelyFrom(s, DO_RESET, l)
    ensures After(s, DO_RESET) == s.(main := AtTime, resets := s.resets + 1, sinceReset := 0)
  {
    Three(s, Enter(Main), Go(Main), Go(Main), l);
  }

  const FINISH: seq<Event> := [Go(Main), Go(Main), ShellReads]

  lemma Finishes(s: State, l: Limits)
    requires s.main == AtTime && s.shell == Outside && !s.rebooted && Timely(s, l)
    ensures TimelyFrom(s, FINISH, l)
    ensures After(s, FINISH) == s.(main := Outside, wdtTime := 0, request := false, rstTime := 0)
  {
    Three(s, Go(Main), Go(Main), ShellReads, l);
  }

  /** 49 interrupts between the reset and the zeroing of sys_wdt_time, and 49 after the next request. */
  lemma FortyNineAreTooMany() returns (events: seq<Event>)
    ensures TimelyRun(events, Left(MAX_BUSY + 1)) && Run(events).sinceReset == 13002
  {
    hide Run, TimelyRun, After, TimelyFrom, Next, ASK, DO_RESET, FINISH;
    var l := Left(MAX_BUSY + 1);
    StartIsTimely(l);
    var e1 := Ticks([], 492, l);
    TimelyAtEnd(e1, l);
    Asks(Run(e1), l);
    TimelySteps(e1, ASK, l);
    Resets(Run(e1 + ASK), l);
    TimelySteps(e1 + ASK, DO_RESET, l);
    var e2 := TicksInRequest(e1 + ASK + DO_RESET, 49, l);
    Finishes(Run(e2), l);
    TimelySteps(e2, FINISH, l);
    var e3 := Ticks(e2 + FINISH, 492, l);
    TimelyAtEnd(e3, l);
    Asks(Run(e3), l);
    TimelySteps(e3, ASK, l);
    events := TicksInRequest(e3 + ASK, 49, l);
  }

  lemma LooserLimit(events: seq<Event>, m: nat, n: nat)
    requires TimelyRun(events, Left(m)) && m <= n
    ensures TimelyRun(events, Left(n))
  {
    hide Run;
    forall i | 0 <= i <= |events| ensures Timely(Run(events[..i]), Left(n)) {
      assert Timely(Run(events[..i]), Left(m));
    }
  }

  /** The time-out passes in no run that keeps a limit of `n` interrupts if and only if `n` is at most 48. */
  lemma LimitIsExact(n: nat)
    ensures (forall events :: TimelyRun(events, Left(n)) ==> Run(events).sinceReset < 13001) <==> n <= 48
  {
    hide TimelyRun, Run;
    if n <= MAX_BUSY {
      forall events | TimelyRun(events, Left(n)) ensures Run(events).sinceReset < SYS_WDT_TMO {
        LooserLimit(events, n, MAX_BUSY);
        ResetInTime(events);
      }
    } else {
      var events := FortyNineAreTooMany();
      LooserLimit(events, MAX_BUSY + 1, n);
    }
  }

  // ----- when a thread stays inside behind an answered request ---------------

  /** Both threads reset the timer for one request, the main thread clears the request, and the Lua thread is
      held up for 50 s before it zeroes sys_wdt_time: the hardware's time-out passes, although no request
      is on for a single interrupt and the Lua thread is never silent for 50 s. */
  lemma HeldUpThreadMissesReset() returns (events: seq<Event>)
    ensures TimelyRun(events, Answered(0)) && Run(events).sinceReset >= 13001 && !Run(events).rebooted
  {
    hide Run, TimelyRun, After, TimelyFrom, Next, ASK;
    var l := Answered(0);
    StartIsTimely(l);
    var e1 := Ticks([], 492, l);
    TimelyAtEnd(e1, l);
    Asks(Run(e1), l);
    TimelySteps(e1, ASK, l);
    var e2 := e1 + ASK;
    BothAnswer(Run(e2), l);
    TimelySteps(e2, Answer(), l);
    var e3 := Ticks(e2 + Answer(), 492, l);
    ShellLeaves(Run(e3), l);
    TimelySteps(e3, Leave(), l);
    events := Ticks(e3 + Leave(), 99, l);
  }

  /** Both enter and reset the timer; the main thread zeroes the time and clears the request. */
  function Answer(): seq<Event> {
    [Enter(Main), Enter(Shell), Go(Main)] + ([Go(Shell), Go(Main), Go(Shell)] + [Go(Main), Go(Main), Go(Main)])
  }

  lemma BothAnswer(s: State, l: Limits)
    requires s.rstTime == 0 && s.request && s.count == 1 && s.main == Outside && s.shell == Outside && !s.rebooted && Timely(s, l)
    ensures TimelyFrom(s, Answer(), l)
    ensures var t := After(s, Answer());
      t.rstTime == 0 && t.wdtTime == 0 && !t.request && t.pending == s.pending && t.main == Outside && t.shell == AtTime && t.sinceReset == 0 && !t.rebooted
  {
    var a, b, c := [Enter(Main), Enter(Shell), Go(Main)], [Go(Shell), Go(Main), Go(Shell)], [Go(Main), Go(Main), Go(Main)];
    FromConcat(s, a, b + c, l);
    Three(s, Enter(Main), Enter(Shell), Go(Main), l);
    var s1 := After(s, a);
    FromConcat(s1, b, c, l);
    Three(s1, Go(Shell), Go(Main), Go(Shell), l);
    Three(After(s1, b), Go(Main), Go(Main), Go(Main), l);
    hide After, TimelyFrom;
  }

  function Leave(): seq<Event> {
    [Go(Shell), Go(Shell), ShellReads]
  }

  lemma ShellLeaves(s: State, l: Limits)
    requires !s.request && s.main == Outside && s.shell == AtTime && !s.rebooted && Timely(s, l)
    ensures TimelyFrom(s, Leave(), l)
    ensures After(s, Leave()) == s.(shell := Outside, wdtTime := 0, rstTime := 0)
  {
    Three(s, Go(Shell), Go(Shell), ShellReads, l);
  }

  // ----- while the threads do not meet ---------------------------------------

  lemma SerialFront(events: seq<Event>, n: nat)
    requires Serial(events) && n <= |events|
    ensures Serial(events[..n])
  {
    hide Run;
    assert forall i :: 0 <= i < n ==> events[..n][..i] == events[..i] && events[..n][i] == events[i];
  }

  lemma {:induction false} AnsweredIsLeft(events: seq<Event>)
    requires Serial(events) && TimelyRun(events, Answered(MAX_BUSY))
    ensures Timely(Run(events), Left(MAX_BUSY))
    decreases |events|
  {
    hide Serial, TimelyRun;
    TimelyAtEnd(events, Answered(MAX_BUSY));
    if events != [] {
      var n := |events| - 1;
      SerialPrefix(events);
      TimelyPrefix(events, n, Answered(MAX_BUSY));
      AnsweredIsLeft(events[..n]);
      BusyIsPending(events[..n]);
    }
  }

  /** While the threads do not meet, it is enough that requests are answered in time. */
  lemma PromptIsEnoughInSerialRuns(events: seq<Event>)
    requires Serial(events) && TimelyRun(events, Answered(MAX_BUSY))
    ensures Run(events).sinceReset < 13001
  {
    hide Serial, Run;
    forall i | 0 <= i <= |events| ensures Timely(Run(events[..i]), Left(MAX_BUSY)) {
      SerialFront(events, i);
      TimelyPrefix(events, i, Answered(MAX_BUSY));
      AnsweredIsLeft(events[..i]);
    }
    ResetInTime(events);
  }

  // ----- the code -----------------------------------------------------------

  class Timer {
    var sysWdtRstTime: nat
    var sysWdtTime: nat
    var sysWdtRstCount: nat
    var doWdtReset: int
    var rebooted: bool
    ghost var resets: nat
    ghost var sinceReset: nat
    ghost var pending: nat
    ghost var busy: nat

    /** The globals while no thread is inside _reset_wdg. */
    ghost function Now(): State
      reads this
    {
      State(sysWdtRstTime, sysWdtTime, sysWdtRstCount, doWdtReset > 0, Outside, Outside, rebooted, resets, sinceReset, pending, busy)
    }

    /** sys_timer_callback. */
    method SysTimerCallback()
      requires !rebooted
      modifies this
      ensures Now() == Next(old(Now()), Tick)
    {
      sysWdtRstTime := sysWdtRstTime + SYS_TIMER_INTERVAL;
      sysWdtTime := sysWdtTime + SYS_TIMER_INTERVAL;
      sinceReset := sinceReset + SYS_TIMER_INTERVAL;
      if doWdtReset > 0 {
        pending, busy := pending + 1, busy + 1;
        return;
      }
      busy := 0;
      if sysWdtRstTime < SYS_WDT_RST && sysWdtTime > SYS_WDT_RST {
        sysWdtRstCount := sysWdtRstCount + 1;
        doWdtReset := 1;
        pending := 0;
      }
    }

    /** _reset_wdg without an interruption: it enters and makes its four accesses. */
    method ResetWdg()
      requires !rebooted
      modifies this
      ensures Now() == Next(Next(Next(Next(Next(old(Now()), Enter(Main)), Go(Main)), Go(Main)), Go(Main)), Go(Main)).(main := Outside)
      ensures rebooted == (old(doWdtReset) > 0 && old(sysWdtRstCount) > 145)
      ensures !rebooted ==> doWdtReset <= 0 && resets == old(resets) + if old(doWdtReset) > 0 then 1 else 0
    {
      if doWdtReset > 0 {
        if sysWdtRstCount > MAX_WDT_RESET_COUNT {
          rebooted := true;
          return;
        }
        resets, sinceReset := resets + 1, 0;
        sysWdtTime := 0;
        doWdtReset := 0;
      }
    }
  }

  /** _scheduled_startup: the next multiple of the wake-up interval. */
  method ScheduledStartup(rtct: nat, wakeupInterval: nat) returns (next: nat)
    requires wakeupInterval > 0
    ensures rtct < next && next % wakeupInterval == 0
    ensures forall k :: k > rtct && k % wakeupInterval == 0 ==> next <= k
  {
    next := rtct / 60 * 60;
    next := next / wakeupInterval * wakeupInterval;
    ghost var m := rtct / 60 * 60 / wakeupInterval;
    while next <= rtct
      invariant next == m * wakeupInterval
      invariant m == 0 || (m - 1) * wakeupInterval <= rtct
      decreases rtct + 1 - next
    {
      next := next + wakeupInterval;
      m := m + 1;
    }
    LeastMultiple(m, wakeupInterval, rtct);
  }

  lemma TimesMonotone(a: nat, b: nat, w: nat)
    requires a <= b
    ensures a * w <= b * w
  {
    assert b * w == a * w + (b - a) * w;
  }

  lemma MultipleOf(m: nat, w: nat)
    requires w > 0
    ensures m * w % w == 0
    decreases m
  {
    if m > 0 {
      MultipleOf(m - 1, w);
      assert m * w == (m - 1) * w + w;
      AddedOnce((m - 1) * w, w);
    }
  }

  lemma AddedOnce(x: nat, w: nat)
    requires w > 0 && x % w == 0
    ensures (x + w) % w == 0
  {
    var q := x / w;
    assert x + w == (q + 1) * w + 0;
    var r := (x + w) / w;
    assert x + w == r * w + (x + w) % w;
    assert (r - (q + 1)) * w == r * w - (q + 1) * w;
    if r > q + 1 { TimesMonotone(1, r - (q + 1), w); } else if r < q + 1 { TimesMonotone(1, q + 1 - r, w); }
  }

  lemma NoneBetween(m: nat, w: nat, x: nat, k: nat)
    requires w > 0 && (m > 0 ==> (m - 1) * w <= x) && k > x && k % w == 0
    ensures m * w <= k
  {
    var q := k / w;
    assert k == q * w;
    if q < m {
      TimesMonotone(q, m - 1, w);
    } else {
      TimesMonotone(m, q, w);
    }
  }

  lemma LeastMultiple(m: nat, w: nat, x: nat)
    requires w > 0 && m * w > x && (m > 0 ==> (m - 1) * w <= x)
    ensures m * w % w == 0 && forall k :: k > x && k % w == 0 ==> m * w <= k
  {
    MultipleOf(m, w);
    forall k: nat | k > x && k % w == 0 ensures m * w <= k {
      NoneBetween(m, w, x, k);
    }
  }
}
