/** The admission gate: N in-flight slots, M queue tickets and a broadcast channel that is
    closed and replaced under the mutex.

    The protocol is a transition system over unboundedly many callers. Each critical section
    of the gate's mutex is one atomic step. A caller that has left `acquire` with an error, or
    has released its slot, is simply absent from `callers`. */
module AdmissionGate {
  import opened Common

  type Caller = nat

  /** A waiter is blocked on the channel it read when it queued (or last re-queued). */
  datatype Pc = Waiting(ch: nat) | Holding

  datatype Error = QueueFull | ShuttingDown | Cancelled

  datatype Outcome = Admitted | Queued | Failed(error: Error)

  /** `gauge` is the gate's net contribution to the Queued metric; channels are numbered in the
      order in which they are made. */
  datatype State = State(
    maxJobs: int, maxQueued: int,
    inFlight: int, queued: int, gauge: int,
    stopped: bool,
    broadcast: nat, closed: set<nat>,
    callers: map<Caller, Pc>)

  datatype Event = Enter(c: Caller) | Wake(c: Caller) | Cancel(c: Caller) | Release(c: Caller) | Stop

  function Max(a: int, b: int): int { if a < b then b else a }

  function Init(maxJobs: int, maxQueued: int): State {
    State(maxJobs, maxQueued, 0, 0, 0, false, 0, {}, map[])
  }

  // ---------------------------------------------------------------- the steps

  predicate IsWaiting(s: State, c: Caller) { c in s.callers && s.callers[c].Waiting? }

  predicate IsHolding(s: State, c: Caller) { c in s.callers && s.callers[c].Holding? }

  /** A waiter whose channel is closed is ready to run; it has not yet noticed the broadcast. */
  predicate IsWoken(s: State, c: Caller) { IsWaiting(s, c) && s.callers[c].ch in s.closed }

  /** Cancel is enabled for every waiter: the client may disconnect at any moment. */
  predicate Enabled(s: State, e: Event) {
    match e
    case Enter(c) => c !in s.callers
    case Wake(c) => IsWoken(s, c)
    case Cancel(c) => IsWaiting(s, c)
    case Release(c) => IsHolding(s, c)
    case Stop => true
  }

  /** Close the current channel and make a new one, if anyone is queued. */
  function Notify(s: State): State {
    if s.queued > 0 then s.(closed := s.closed + {s.broadcast}, broadcast := s.broadcast + 1) else s
  }

  function Dequeue(s: State): State { s.(queued := s.queued - 1, gauge := s.gauge - 1) }

  function Leave(s: State, c: Caller): State { s.(callers := s.callers - {c}) }

  function Become(s: State, c: Caller, pc: Pc): State { s.(callers := s.callers[c := pc]) }

  function Apply(s: State, e: Event): State {
    match e
    case Enter(c) =>
      if s.stopped then s
      else if s.inFlight < s.maxJobs then Become(s.(inFlight := s.inFlight + 1), c, Holding)
      else if s.maxQueued <= 0 || s.queued >= s.maxQueued then s
      else Become(s.(queued := s.queued + 1, gauge := s.gauge + 1), c, Waiting(s.broadcast))
    case Wake(c) =>
      if s.stopped then Leave(Dequeue(s), c)
      else if s.inFlight < s.maxJobs then Become(Dequeue(s).(inFlight := s.inFlight + 1), c, Holding)
      else Become(s, c, Waiting(s.broadcast))
    case Cancel(c) => Leave(Dequeue(s), c)
    case Release(c) => Notify(Leave(s.(inFlight := s.inFlight - 1), c))
    case Stop => Notify(s.(stopped := true))
  }

  predicate Legal(s: State, es: seq<Event>)
    decreases |es|
  {
    es == [] || (Enabled(s, es[0]) && Legal(Apply(s, es[0]), es[1..]))
  }

  /** The state after a legal run. Every prefix of a legal run is legal, so a statement about
      every final state is a statement about every reachable state. */
  function Exec(s: State, es: seq<Event>): State
    requires Legal(s, es)
    decreases |es|
  {
    if es == [] then s else Exec(Apply(s, es[0]), es[1..])
  }

  // ---------------------------------------------------------------- the invariant

  ghost function Waiters(s: State): set<Caller> { set c | c in s.callers && s.callers[c].Waiting? }

  ghost function Holders(s: State): set<Caller> { set c | c in s.callers && s.callers[c].Holding? }

  ghost function Woken(s: State): set<Caller> {
    set c | c in s.callers && s.callers[c].Waiting? && s.callers[c].ch in s.closed
  }

  /** A waiter never sleeps through a chance to make progress. */
  ghost predicate NoLostWakeup(s: State) {
    s.stopped || s.inFlight < s.maxJobs ==> forall c | IsWaiting(s, c) :: IsWoken(s, c)
  }

  /** Tickets and slots are conserved, and both bounds hold. */
  ghost predicate Conserved(s: State) {
    && s.queued == s.gauge == |Waiters(s)|
    && s.inFlight == |Holders(s)|
    && s.inFlight <= Max(s.maxJobs, 0)
    && s.queued <= Max(s.maxQueued, 0)
  }

  /** The closed channels are exactly the ones made before the current one, which is open. */
  ghost predicate ChannelsOrdered(s: State) {
    && (forall ch: nat :: ch in s.closed <==> ch < s.broadcast)
    && (forall c | c in s.callers && s.callers[c].Waiting? :: s.callers[c].ch <= s.broadcast)
  }

  ghost predicate Inv(s: State) { Conserved(s) && ChannelsOrdered(s) && NoLostWakeup(s) }

  // ---------------------------------------------------------------- how steps move callers

  /** Only Enter and Wake can create a holder, and only when a slot is free and the gate is open. */
  lemma HoldersMove(s: State, e: Event)
    requires Enabled(s, e)
    ensures e.Release? ==> Holders(Apply(s, e)) == Holders(s) - {e.c}
    ensures (e.Enter? || e.Wake?) && !s.stopped && s.inFlight < s.maxJobs
            ==> Holders(Apply(s, e)) == Holders(s) + {e.c}
    ensures e.Stop? || e.Cancel? || ((e.Enter? || e.Wake?) && (s.stopped || s.inFlight >= s.maxJobs))
            ==> Holders(Apply(s, e)) == Holders(s)
  {}

  /** A newcomer takes a queue ticket. */
  predicate Queues(s: State) {
    !s.stopped && s.inFlight >= s.maxJobs && s.maxQueued > 0 && s.queued < s.maxQueued
  }

  lemma WaitersMove(s: State, e: Event)
    requires Enabled(s, e)
    ensures e.Release? || e.Stop? ==> Waiters(Apply(s, e)) == Waiters(s)
    ensures e.Cancel? ==> Waiters(Apply(s, e)) == Waiters(s) - {e.c}
    ensures e.Wake? && (s.stopped || s.inFlight < s.maxJobs) ==> Waiters(Apply(s, e)) == Waiters(s) - {e.c}
    ensures e.Wake? && !(s.stopped || s.inFlight < s.maxJobs) ==> Waiters(Apply(s, e)) == Waiters(s)
    ensures e.Enter? && Queues(s) ==> Waiters(Apply(s, e)) == Waiters(s) + {e.c}
    ensures e.Enter? && !Queues(s) ==> Waiters(Apply(s, e)) == Waiters(s)
  {}

  lemma SlotsConserved(s: State, e: Event)
    requires Conserved(s) && Enabled(s, e)
    ensures Apply(s, e).inFlight == |Holders(Apply(s, e))| <= Max(s.maxJobs, 0)
  {
    HoldersMove(s, e);
    if e.Release? { assert e.c in Holders(s); }
    if e.Enter? || e.Wake? { assert e.c !in Holders(s); }
  }

  lemma TicketsConserved(s: State, e: Event)
    requires Conserved(s) && Enabled(s, e)
    ensures var t := Apply(s, e); t.queued == t.gauge == |Waiters(t)| <= Max(s.maxQueued, 0)
  {
    WaitersMove(s, e);
    if e.Cancel? || e.Wake? { assert e.c in Waiters(s); }
    if e.Enter? { assert e.c !in Waiters(s); }
  }

  lemma StepConserves(s: State, e: Event)
    requires Conserved(s) && Enabled(s, e)
    ensures Conserved(Apply(s, e))
  {
    SlotsConserved(s, e);
    TicketsConserved(s, e);
  }

  lemma StepOrdersChannels(s: State, e: Event)
    requires ChannelsOrdered(s) && Enabled(s, e)
    ensures ChannelsOrdered(Apply(s, e))
  {}

  /** A broadcast wakes every waiter there is. */
  lemma NotifyWakesAll(s: State, c: Caller)
    requires ChannelsOrdered(s) && s.queued == |Waiters(s)| && IsWaiting(Notify(s), c)
    ensures IsWoken(Notify(s), c)
  {
    assert c in Waiters(s);
  }

  lemma StepWakes(s: State, e: Event)
    requires Inv(s) && Enabled(s, e)
    ensures NoLostWakeup(Apply(s, e))
  {
    var t := Apply(s, e);
    forall c | IsWaiting(t, c) && (t.stopped || t.inFlight < t.maxJobs) ensures IsWoken(t, c) {
      if e.Stop? {
        assert Waiters(s.(stopped := true)) == Waiters(s);
        NotifyWakesAll(s.(stopped := true), c);
      } else if e.Release? {
        var u := Leave(s.(inFlight := s.inFlight - 1), e.c);
        assert Waiters(u) == Waiters(s);
        NotifyWakesAll(u, c);
      } else {
        assert IsWaiting(s, c);
      }
    }
  }

  lemma InitInv(maxJobs: int, maxQueued: int)
    ensures Inv(Init(maxJobs, maxQueued))
  {}

  lemma StepInv(s: State, e: Event)
    requires Inv(s) && Enabled(s, e)
    ensures Inv(Apply(s, e))
  {
    StepConserves(s, e);
    StepOrdersChannels(s, e);
    StepWakes(s, e);
  }

  lemma {:induction false} RunInv(s: State, es: seq<Event>)
    requires Inv(s) && Legal(s, es)
    ensures Inv(Exec(s, es))
    decreases |es|
  {
    if es != [] {
      StepInv(s, es[0]);
      RunInv(Apply(s, es[0]), es[1..]);
    }
  }

  /** In every reachable state of every gate, under every interleaving: no lost wake-up, tickets
      and slots conserved and bounded, and the current channel open. */
  lemma ReachableInv(maxJobs: int, maxQueued: int, es: seq<Event>)
    requires Legal(Init(maxJobs, maxQueued), es)
    ensures var s := Exec(Init(maxJobs, maxQueued), es);
      && NoLostWakeup(s) && Conserved(s) && s.broadcast !in s.closed
      && s.inFlight <= Max(maxJobs, 0) && s.queued <= Max(maxQueued, 0)
  {
    InitInv(maxJobs, maxQueued);
    RunInv(Init(maxJobs, maxQueued), es);
    LimitsFixed(Init(maxJobs, maxQueued), es);
  }

  lemma {:induction false} LimitsFixed(s: State, es: seq<Event>)
    requires Legal(s, es)
    ensures Exec(s, es).maxJobs == s.maxJobs && Exec(s, es).maxQueued == s.maxQueued
    decreases |es|
  {
    if es != [] { LimitsFixed(Apply(s, es[0]), es[1..]); }
  }

  /** A free slot is never idle while someone waits: every waiter can run at once, and the one
      that runs is admitted. */
  lemma FreeSlotAdmitsAnyWaiter(s: State, c: Caller)
    requires Inv(s) && IsWaiting(s, c) && !s.stopped && s.inFlight < s.maxJobs
    ensures Enabled(s, Wake(c)) && IsHolding(Apply(s, Wake(c)), c)
  {}

  /** Waiters are never all asleep with nobody left to wake them. */
  lemma NoDeadlock(s: State)
    requires Inv(s) && s.queued > 0 && s.maxJobs > 0
    ensures (exists c :: Enabled(s, Release(c))) || (forall c | IsWaiting(s, c) :: Enabled(s, Wake(c)))
  {
    if s.inFlight >= s.maxJobs {
      assert Holders(s) != {};
      var h :| h in Holders(s);
      assert Enabled(s, Release(h));
    } else {
      assert forall c | IsWaiting(s, c) :: Enabled(s, Wake(c));
    }
  }

  // ---------------------------------------------------------------- no spinning

  function Wakes(es: seq<Event>): nat {
    if es == [] then 0 else (if es[0].Wake? then 1 else 0) + Wakes(es[1..])
  }

  /** A step that closes a channel. */
  predicate Notifies(s: State, e: Event) { (e.Release? || e.Stop?) && s.queued > 0 }

  function Broadcasts(s: State, es: seq<Event>): nat
    requires Legal(s, es)
    decreases |es|
  {
    if es == [] then 0
    else (if Notifies(s, es[0]) then 1 else 0) + Broadcasts(Apply(s, es[0]), es[1..])
  }

  lemma WakeUsesOne(s: State, c: Caller)
    requires ChannelsOrdered(s) && Enabled(s, Wake(c))
    ensures |Woken(Apply(s, Wake(c)))| == |Woken(s)| - 1
  {
    assert Woken(Apply(s, Wake(c))) == Woken(s) - {c};
  }

  lemma QuietStepWakesNone(s: State, e: Event)
    requires ChannelsOrdered(s) && Enabled(s, e) && !e.Wake? && !Notifies(s, e)
    ensures |Woken(Apply(s, e))| <= |Woken(s)|
  {
    assert Woken(Apply(s, e)) <= Woken(s);
    SubsetSize(Woken(Apply(s, e)), Woken(s));
  }

  lemma WokenWithinTickets(s: State)
    requires Conserved(s)
    ensures |Woken(s)| <= Max(s.maxQueued, 0)
  {
    assert Woken(s) <= Waiters(s);
    SubsetSize(Woken(s), Waiters(s));
  }

  /** Each wake consumes one woken waiter; nothing but a broadcast makes new ones. */
  lemma StepWoken(s: State, e: Event)
    requires Inv(s) && Enabled(s, e)
    ensures e.Wake? ==> |Woken(Apply(s, e))| == |Woken(s)| - 1
    ensures !e.Wake? && !Notifies(s, e) ==> |Woken(Apply(s, e))| <= |Woken(s)|
    ensures Notifies(s, e) ==> |Woken(Apply(s, e))| <= Max(s.maxQueued, 0)
  {
    if e.Wake? {
      WakeUsesOne(s, e.c);
    } else if Notifies(s, e) {
      StepConserves(s, e);
      WokenWithinTickets(Apply(s, e));
    } else {
      QuietStepWakesNone(s, e);
    }
  }

  lemma Distribute(q: nat, b: nat, b1: nat)
    requires b1 == b || b1 == b + 1
    ensures q * b1 == q * b + (if b1 == b then 0 else q)
  {}

  /** A broadcast is answered by at most one wake per ticket, so the wait loop cannot spin. With no
      broadcast in the run, the wakes are bounded by the waiters already woken when it starts. */
  lemma {:induction false} NoSpin(s: State, es: seq<Event>)
    requires Inv(s) && Legal(s, es)
    ensures Wakes(es) + |Woken(Exec(s, es))| <= |Woken(s)| + Max(s.maxQueued, 0) * Broadcasts(s, es)
    decreases |es|
  {
    if es != [] {
      var t := Apply(s, es[0]);
      StepInv(s, es[0]);
      StepWoken(s, es[0]);
      NoSpin(t, es[1..]);
      Distribute(Max(s.maxQueued, 0), Broadcasts(t, es[1..]), Broadcasts(s, es));
    }
  }

  /** Every broadcast closes a channel that was open: no channel is ever closed twice. */
  lemma {:induction false} NoDoubleClose(s: State, es: seq<Event>)
    requires Inv(s) && Legal(s, es)
    ensures |Exec(s, es).closed| == |s.closed| + Broadcasts(s, es)
    decreases |es|
  {
    if es != [] {
      StepInv(s, es[0]);
      NoDoubleClose(Apply(s, es[0]), es[1..]);
    }
  }

  // ---------------------------------------------------------------- draining after Stop

  ghost function Population(s: State): nat { |Waiters(s)| + |Holders(s)| }

  /** Steps of callers that already hold a ticket or a slot. */
  function Progress(es: seq<Event>): nat {
    if es == [] then 0 else (if es[0].Wake? || es[0].Cancel? || es[0].Release? then 1 else 0) + Progress(es[1..])
  }

  lemma StoppedStep(s: State, e: Event)
    requires Inv(s) && s.stopped && Enabled(s, e)
    ensures Apply(s, e).stopped
    ensures Holders(Apply(s, e)) <= Holders(s) && Waiters(Apply(s, e)) <= Waiters(s)
    ensures e.Wake? || e.Cancel? || e.Release? ==> Population(Apply(s, e)) == Population(s) - 1
    ensures e.Enter? || e.Stop? ==> Population(Apply(s, e)) == Population(s)
  {
    HoldersMove(s, e);
    WaitersMove(s, e);
  }

  /** The gate is stopped by Stop and by nothing else, whoever is queued or holds a slot. */
  lemma StopsOnlyByStop(s: State, e: Event)
    ensures Apply(s, e).stopped <==> s.stopped || e.Stop?
  {}

  /** On a stopped gate nobody is ever admitted or queued, and each step of a remaining caller removes
      exactly one of them. */
  lemma {:induction false} StoppedRun(s: State, es: seq<Event>)
    requires Inv(s) && s.stopped && Legal(s, es)
    ensures Exec(s, es).stopped
    ensures Holders(Exec(s, es)) <= Holders(s) && Waiters(Exec(s, es)) <= Waiters(s)
    ensures Population(Exec(s, es)) + Progress(es) == Population(s)
    decreases |es|
  {
    if es != [] {
      StepInv(s, es[0]);
      StoppedStep(s, es[0]);
      StoppedRun(Apply(s, es[0]), es[1..]);
    }
  }

  /** Whatever the queue holds when Stop is called: in every continuation the holders and the waiters are
      among those of that moment, and each step of one of them removes it. */
  lemma StopEndsAdmission(s: State, es: seq<Event>)
    requires Inv(s) && Legal(Apply(s, Stop), es)
    ensures var t := Exec(Apply(s, Stop), es);
      && t.stopped && Holders(t) <= Holders(s) && Waiters(t) <= Waiters(s)
      && Population(t) + Progress(es) == Population(s)
  {
    StepInv(s, Stop);
    StopsOnlyByStop(s, Stop);
    HoldersMove(s, Stop);
    WaitersMove(s, Stop);
    StoppedRun(Apply(s, Stop), es);
  }

  /** After Stop every waiter can run, and leaves when it does; a newcomer changes nothing. */
  lemma StopTurnsAway(s: State, c: Caller)
    requires Inv(s)
    ensures IsWaiting(s, c) ==> Enabled(Apply(s, Stop), Wake(c)) && c !in Apply(Apply(s, Stop), Wake(c)).callers
    ensures c !in s.callers ==> Apply(Apply(s, Stop), Enter(c)) == Apply(s, Stop)
  {
    StepInv(s, Stop);
    StopsOnlyByStop(s, Stop);
  }

  /** A stopped gate that is not empty can always move: every waiter is awake and every holder may
      release. */
  lemma StoppedNeverStuck(s: State) returns (e: Event)
    requires Inv(s) && s.stopped && Population(s) > 0
    ensures Enabled(s, e) && (e.Wake? || e.Release?)
  {
    if Waiters(s) != {} {
      var c :| c in Waiters(s);
      e := Wake(c);
    } else {
      var h :| h in Holders(s);
      e := Release(h);
    }
  }

  /** From any stopped state the gate drains to empty in as many steps as it has callers. */
  lemma {:induction false} StoppedDrains(s: State) returns (es: seq<Event>)
    requires Inv(s) && s.stopped
    ensures Legal(s, es) && |es| == Population(s)
    ensures Exec(s, es).inFlight == 0 == Exec(s, es).queued
    decreases Population(s)
  {
    if Population(s) == 0 {
      es := [];
    } else {
      var e := StoppedNeverStuck(s);
      StepInv(s, e);
      StoppedStep(s, e);
      var rest := StoppedDrains(Apply(s, e));
      es := [e] + rest;
      assert es[1..] == rest;
    }
  }

  // ---------------------------------------------------------------- runs, extended at the end

  lemma {:induction false} ExecAppend(s: State, es: seq<Event>, e: Event)
    requires Legal(s, es) && Enabled(Exec(s, es), e)
    ensures Legal(s, es + [e]) && Exec(s, es + [e]) == Apply(Exec(s, es), e)
    decreases |es|
  {
    if es == [] {
      assert es + [e] == [e];
    } else {
      ExecAppend(Apply(s, es[0]), es[1..], e);
      assert (es + [e])[1..] == es[1..] + [e];
    }
  }

  lemma {:induction false} LegalAt(s: State, es: seq<Event>, k: nat)
    requires Legal(s, es) && k < |es|
    ensures Legal(s, es[..k]) && Enabled(Exec(s, es[..k]), es[k])
    decreases |es|
  {
    if k > 0 {
      LegalAt(Apply(s, es[0]), es[1..], k - 1);
      assert es[..k][1..] == es[1..][..k - 1];
    }
  }

  lemma ExecNext(s: State, es: seq<Event>, k: nat)
    requires Legal(s, es) && k < |es|
    ensures Legal(s, es[..k]) && Enabled(Exec(s, es[..k]), es[k])
    ensures Legal(s, es[..k + 1]) && Exec(s, es[..k + 1]) == Apply(Exec(s, es[..k]), es[k])
  {
    LegalAt(s, es, k);
    ExecAppend(s, es[..k], es[k]);
    assert es[..k] + [es[k]] == es[..k + 1];
  }

  // ---------------------------------------------------------------- the gate object

  /** One turn of the wait loop's surroundings: another caller's step, or one of the two arms of
      the waiter's select. */
  datatype Turn = Other(e: Event) | ContextDone | ChannelClosed

  function TurnEvent(c: Caller, t: Turn): Event {
    match t
    case Other(e) => e
    case ContextDone => Cancel(c)
    case ChannelClosed => Wake(c)
  }

  function TurnEvents(c: Caller, ts: seq<Turn>): seq<Event> {
    seq(|ts|, i requires 0 <= i < |ts| => TurnEvent(c, ts[i]))
  }

  function Script(c: Caller, ts: seq<Turn>): seq<Event> { [Enter(c)] + TurnEvents(c, ts) }

  lemma ScriptStarts(s: State, c: Caller, ts: seq<Turn>)
    requires Legal(s, Script(c, ts))
    ensures Enabled(s, Enter(c)) && Legal(Apply(s, Enter(c)), TurnEvents(c, ts))
  {
    assert Script(c, ts)[1..] == TurnEvents(c, ts);
  }

  lemma ScriptRuns(s: State, c: Caller, ts: seq<Turn>, n: nat)
    requires n <= |ts| && Enabled(s, Enter(c)) && Legal(Apply(s, Enter(c)), TurnEvents(c, ts)[..n])
    ensures Legal(s, Script(c, ts)[..1 + n])
    ensures Exec(s, Script(c, ts)[..1 + n]) == Exec(Apply(s, Enter(c)), TurnEvents(c, ts)[..n])
  {
    var es := Script(c, ts)[..1 + n];
    assert es[0] == Enter(c) && es[1..] == TurnEvents(c, ts)[..n];
  }

  predicate Foreign(c: Caller, e: Event) { e.Stop? || e.c != c }

  class Gate {
    var inFlight: int
    var queued: int
    var maxJobs: int
    var maxQueued: int
    var stopped: bool
    var broadcast: nat
    var gauge: int
    ghost var closed: set<nat>
    ghost var callers: map<Caller, Pc>

    ghost function Abs(): State
      reads this
    {
      State(maxJobs, maxQueued, inFlight, queued, gauge, stopped, broadcast, closed, callers)
    }

    constructor (n: int, m: int)
      ensures Abs() == Init(n, m) && Inv(Abs())
    {
      inFlight, queued, gauge, stopped, broadcast := 0, 0, 0, false, 0;
      maxJobs, maxQueued := n, m;
      closed, callers := {}, map[];
      new;
      InitInv(n, m);
    }

    /** Closing a closed channel panics, hence the precondition. */
    method CloseAndReplace()
      requires broadcast !in closed
      modifies this`broadcast, this`closed
      ensures closed == old(closed) + {old(broadcast)} && broadcast == old(broadcast) + 1
    {
      closed := closed + {broadcast};
      broadcast := broadcast + 1;
    }

    /** The critical section on entry to acquire. */
    method TryEnter(c: Caller) returns (r: Outcome)
      requires Inv(Abs()) && c !in callers
      modifies this
      ensures Abs() == Apply(old(Abs()), Enter(c)) && Inv(Abs())
      ensures r == Admitted <==> IsHolding(Abs(), c)
      ensures r == Queued <==> IsWaiting(Abs(), c)
      ensures r == Failed(ShuttingDown) <==> old(stopped)
      ensures r.Failed? ==> r.error != Cancelled
    {
      StepInv(Abs(), Enter(c));
      if stopped { return Failed(ShuttingDown); }
      if inFlight < maxJobs {
        inFlight := inFlight + 1;
        callers := callers[c := Holding];
        return Admitted;
      }
      if maxQueued <= 0 || queued >= maxQueued { return Failed(QueueFull); }
      queued := queued + 1;
      gauge := gauge + 1;
      callers := callers[c := Waiting(broadcast)];
      return Queued;
    }

    /** The critical section after the waiter's channel was seen closed. */
    method OnBroadcast(c: Caller) returns (r: Outcome)
      requires Inv(Abs()) && IsWoken(Abs(), c)
      modifies this
      ensures Abs() == Apply(old(Abs()), Wake(c)) && Inv(Abs())
      ensures r == Admitted <==> IsHolding(Abs(), c)
      ensures r == Queued <==> IsWaiting(Abs(), c)
      ensures r.Failed? <==> old(stopped)
      ensures r.Failed? ==> r.error == ShuttingDown
    {
      StepInv(Abs(), Wake(c));
      if stopped {
        queued := queued - 1;
        gauge := gauge - 1;
        callers := callers - {c};
        return Failed(ShuttingDown);
      }
      if inFlight < maxJobs {
        queued := queued - 1;
        gauge := gauge - 1;
        inFlight := inFlight + 1;
        callers := callers[c := Holding];
        return Admitted;
      }
      callers := callers[c := Waiting(broadcast)];
      return Queued;
    }

    /** The critical section after the waiter's context was cancelled. */
    method OnCancel(c: Caller)
      requires Inv(Abs()) && IsWaiting(Abs(), c)
      modifies this
      ensures Abs() == Apply(old(Abs()), Cancel(c)) && Inv(Abs())
    {
      StepInv(Abs(), Cancel(c));
      queued := queued - 1;
      gauge := gauge - 1;
      callers := callers - {c};
    }

    method FreeSlot(c: Caller)
      requires Inv(Abs()) && IsHolding(Abs(), c)
      modifies this
      ensures Abs() == Apply(old(Abs()), Release(c)) && Inv(Abs())
    {
      StepInv(Abs(), Release(c));
      inFlight := inFlight - 1;
      callers := callers - {c};
      if queued > 0 { CloseAndReplace(); }
    }

    method Shut()
      requires Inv(Abs())
      modifies this
      ensures Abs() == Apply(old(Abs()), Stop) && Inv(Abs())
      ensures stopped
    {
      StepInv(Abs(), Stop);
      stopped := true;
      if queued > 0 { CloseAndReplace(); }
    }

    /** Any caller's critical section. */
    method Step(e: Event)
      requires Inv(Abs()) && Enabled(Abs(), e)
      modifies this
      ensures Abs() == Apply(old(Abs()), e) && Inv(Abs())
    {
      match e
      case Enter(c) => var _ := TryEnter(c);
      case Wake(c) => var _ := OnBroadcast(c);
      case Cancel(c) => OnCancel(c);
      case Release(c) => FreeSlot(c);
      case Stop => Shut();
    }

    /** One turn while `c` waits. */
    method TakeTurn(c: Caller, t: Turn) returns (r: Outcome)
      requires Inv(Abs()) && IsWaiting(Abs(), c)
      requires Enabled(Abs(), TurnEvent(c, t)) && (t.Other? ==> Foreign(c, t.e))
      modifies this
      ensures Abs() == Apply(old(Abs()), TurnEvent(c, t)) && Inv(Abs())
      ensures r == Admitted <==> IsHolding(Abs(), c)
      ensures r == Queued <==> IsWaiting(Abs(), c)
      ensures r == Failed(Cancelled) <==> t == ContextDone
      ensures r == Failed(ShuttingDown) ==> stopped
    {
      match t
      case Other(e) =>
        Step(e);
        r := Queued;
      case ContextDone =>
        OnCancel(c);
        r := Failed(Cancelled);
      case ChannelClosed =>
        r := OnBroadcast(c);
    }

    /** The result of the call says what the caller holds. */
    ghost predicate Agrees(r: Outcome, c: Caller)
      reads this
    {
      (r == Admitted <==> IsHolding(Abs(), c)) && (r == Queued <==> IsWaiting(Abs(), c))
    }

    /** The gate is where the first n events of a run lead. */
    ghost predicate Ran(s: State, es: seq<Event>, n: nat)
      reads this
    {
      n <= |es| && Legal(s, es[..n]) && Abs() == Exec(s, es[..n]) && Inv(Abs())
    }

    /** The wait loop, with the interleaving of the other callers given as a script. */
    method Wait(c: Caller, turns: seq<Turn>) returns (r: Outcome, used: nat)
      requires Inv(Abs()) && IsWaiting(Abs(), c) && Legal(Abs(), TurnEvents(c, turns))
      requires forall i | 0 <= i < |turns| && turns[i].Other? :: Foreign(c, turns[i].e)
      modifies this
      ensures used <= |turns| && Ran(old(Abs()), TurnEvents(c, turns), used) && Agrees(r, c)
      ensures r == Queued ==> used == |turns|
      ensures r == Failed(Cancelled) ==> used > 0 && turns[used - 1] == ContextDone
      ensures r == Failed(ShuttingDown) ==> stopped
    {
      ghost var s0, es := Abs(), TurnEvents(c, turns);
      r, used := Queued, 0;
      while r == Queued && used < |turns|
        invariant used <= |turns| && Ran(s0, es, used) && Agrees(r, c)
        invariant r == Failed(Cancelled) ==> used > 0 && turns[used - 1] == ContextDone
        invariant r == Failed(ShuttingDown) ==> stopped
      {
        ExecNext(s0, es, used);
        r := TakeTurn(c, turns[used]);
        used := used + 1;
      }
    }

    /** The whole of acquire. The call returns after `used` turns; it is still queued only if the script
        ran out. */
    method Acquire(c: Caller, turns: seq<Turn>) returns (r: Outcome, used: nat)
      requires Inv(Abs())
      requires Legal(Abs(), Script(c, turns))
      requires forall i | 0 <= i < |turns| && turns[i].Other? :: Foreign(c, turns[i].e)
      modifies this
      ensures used <= |turns|
      ensures Legal(old(Abs()), Script(c, turns)[..1 + used])
      ensures Abs() == Exec(old(Abs()), Script(c, turns)[..1 + used])
      ensures Inv(Abs())
      ensures r == Admitted <==> IsHolding(Abs(), c)
      ensures r == Queued <==> IsWaiting(Abs(), c)
      ensures r == Queued ==> used == |turns|
      ensures r == Failed(Cancelled) ==> used > 0 && turns[used - 1] == ContextDone
      ensures r == Failed(ShuttingDown) ==> stopped
      ensures old(stopped) ==> r == Failed(ShuttingDown) && used == 0
    {
      ghost var s0 := Abs();
      ScriptStarts(s0, c, turns);
      used := 0;
      r := TryEnter(c);
      if r == Queued { r, used := Wait(c, turns); }
      ScriptRuns(s0, c, turns, used);
    }
  }
}
