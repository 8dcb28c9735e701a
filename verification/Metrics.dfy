/** The run counters: recordRun updates them in four separate steps, Snapshot reads them in four
    separate steps, and any number of both interleave. */
module Metrics {
  import opened Common
  import opened Sums

  type Tid = nat

  /** How far one recordRun has come. */
  datatype Pc = CountedRun | CountedError | CountedStatus

  datatype Rec = Rec(status: string, bucket: string, isError: bool, pc: Pc)

  /** What one Snapshot has read so far; a number is None until it is loaded. */
  datatype Snap = Snap(
    statuses: map<string, nat>, latency: Option<map<string, nat>>, total: Option<nat>, errors: Option<nat>)

  datatype State = State(
    total: nat, errors: nat, statuses: map<string, nat>, latency: map<string, nat>,
    recs: map<Tid, Rec>, snaps: map<Tid, Snap>)

  datatype Event =
    | CountRun(t: Tid, status: string, bucket: string, isError: bool)
    | CountError(t: Tid)
    | CountStatus(t: Tid)
    | CountLatency(t: Tid)
    | CopyStatuses(s: Tid)
    | CopyLatency(s: Tid)
    | LoadTotal(s: Tid)
    | LoadErrors(s: Tid)

  const INIT: State := State(0, 0, map[], map[], map[], map[])

  predicate Enabled(s: State, e: Event) {
    match e
    case CountRun(t, _, _, _) => t !in s.recs
    case CountError(t) => t in s.recs && s.recs[t].pc == CountedRun && s.recs[t].isError
    case CountStatus(t) => t in s.recs && s.recs[t].pc == (if s.recs[t].isError then CountedError else CountedRun)
    case CountLatency(t) => t in s.recs && s.recs[t].pc == CountedStatus
    case CopyStatuses(n) => n !in s.snaps
    case CopyLatency(n) => n in s.snaps && s.snaps[n].latency.None?
    case LoadTotal(n) => n in s.snaps && s.snaps[n].latency.Some? && s.snaps[n].total.None?
    case LoadErrors(n) => n in s.snaps && s.snaps[n].total.Some? && s.snaps[n].errors.None?
  }

  function Apply(s: State, e: Event): State
    requires Enabled(s, e)
  {
    match e
    case CountRun(t, status, bucket, isError) =>
      s.(total := s.total + 1, recs := s.recs[t := Rec(status, bucket, isError, CountedRun)])
    case CountError(t) => s.(errors := s.errors + 1, recs := s.recs[t := s.recs[t].(pc := CountedError)])
    case CountStatus(t) =>
      s.(statuses := Bump(s.statuses, s.recs[t].status), recs := s.recs[t := s.recs[t].(pc := CountedStatus)])
    case CountLatency(t) => s.(latency := Bump(s.latency, s.recs[t].bucket), recs := s.recs - {t})
    case CopyStatuses(n) => s.(snaps := s.snaps[n := Snap(s.statuses, None, None, None)])
    case CopyLatency(n) => s.(snaps := s.snaps[n := s.snaps[n].(latency := Some(s.latency))])
    case LoadTotal(n) => s.(snaps := s.snaps[n := s.snaps[n].(total := Some(s.total))])
    case LoadErrors(n) => s.(snaps := s.snaps[n := s.snaps[n].(errors := Some(s.errors))])
  }

  // ---------------------------------------------------------------- the invariant

  ghost function NoStatusYet(recs: map<Tid, Rec>): set<Tid> { set t | t in recs && recs[t].pc != CountedStatus }

  ghost function NoLatencyYet(recs: map<Tid, Rec>): set<Tid> { set t | t in recs && recs[t].pc == CountedStatus }

  ghost function NoErrorYet(recs: map<Tid, Rec>): set<Tid> {
    set t | t in recs && recs[t].pc == CountedRun && recs[t].isError
  }

  /** The three totals differ exactly by the records in progress. */
  ghost predicate Balanced(s: State) {
    && s.total == Sum(s.statuses) + |NoStatusYet(s.recs)|
    && Sum(s.statuses) == Sum(s.latency) + |NoLatencyYet(s.recs)|
    && s.errors + |NoErrorYet(s.recs)| <= s.total
  }

  /** What a snapshot has read was true once and counters only grow. */
  ghost predicate SnapOk(s: State, n: Snap) {
    && Sum(n.statuses) <= Sum(s.statuses)
    && (n.errors.Some? ==> n.total.Some?)
    && (n.latency.Some? ==> Sum(n.latency.value) <= Sum(s.latency))
    && (n.total.Some? ==> n.latency.Some? && Sum(n.statuses) <= n.total.value && Sum(n.latency.value) <= n.total.value)
  }

  ghost predicate Inv(s: State) { Balanced(s) && forall n | n in s.snaps :: SnapOk(s, s.snaps[n]) }

  lemma RecSets(recs: map<Tid, Rec>, t: Tid, r: Rec)
    ensures NoStatusYet(recs[t := r]) ==
      if r.pc != CountedStatus then NoStatusYet(recs) + {t} else NoStatusYet(recs) - {t}
    ensures NoLatencyYet(recs[t := r]) ==
      if r.pc == CountedStatus then NoLatencyYet(recs) + {t} else NoLatencyYet(recs) - {t}
    ensures NoErrorYet(recs[t := r]) ==
      if r.pc == CountedRun && r.isError then NoErrorYet(recs) + {t} else NoErrorYet(recs) - {t}
  {}

  lemma RecSetsDone(recs: map<Tid, Rec>, t: Tid)
    ensures NoStatusYet(recs - {t}) == NoStatusYet(recs) - {t}
    ensures NoLatencyYet(recs - {t}) == NoLatencyYet(recs) - {t}
    ensures NoErrorYet(recs - {t}) == NoErrorYet(recs) - {t}
  {}

  lemma RunBalanced(s: State, e: Event)
    requires Balanced(s) && Enabled(s, e) && e.CountRun?
    ensures Balanced(Apply(s, e))
  {
    RecSets(s.recs, e.t, Apply(s, e).recs[e.t]);
    assert e.t !in NoStatusYet(s.recs) && e.t !in NoLatencyYet(s.recs) && e.t !in NoErrorYet(s.recs);
  }

  lemma ErrorBalanced(s: State, e: Event)
    requires Balanced(s) && Enabled(s, e) && e.CountError?
    ensures Balanced(Apply(s, e))
  {
    RecSets(s.recs, e.t, Apply(s, e).recs[e.t]);
    assert e.t in NoStatusYet(s.recs) && e.t !in NoLatencyYet(s.recs) && e.t in NoErrorYet(s.recs);
    assert NoStatusYet(s.recs) + {e.t} == NoStatusYet(s.recs);
  }

  lemma StatusBalanced(s: State, e: Event)
    requires Balanced(s) && Enabled(s, e) && e.CountStatus?
    ensures Balanced(Apply(s, e)) && Sum(Apply(s, e).statuses) == Sum(s.statuses) + 1
  {
    RecSets(s.recs, e.t, Apply(s, e).recs[e.t]);
    SumBump(s.statuses, s.recs[e.t].status);
    assert e.t in NoStatusYet(s.recs) && e.t !in NoLatencyYet(s.recs) && e.t !in NoErrorYet(s.recs);
  }

  lemma LatencyBalanced(s: State, e: Event)
    requires Balanced(s) && Enabled(s, e) && e.CountLatency?
    ensures Balanced(Apply(s, e)) && Sum(Apply(s, e).latency) == Sum(s.latency) + 1
  {
    RecSetsDone(s.recs, e.t);
    SumBump(s.latency, s.recs[e.t].bucket);
    assert e.t !in NoStatusYet(s.recs) && e.t in NoLatencyYet(s.recs) && e.t !in NoErrorYet(s.recs);
  }

  lemma StepBalanced(s: State, e: Event)
    requires Balanced(s) && Enabled(s, e)
    ensures Balanced(Apply(s, e))
    ensures Sum(s.statuses) <= Sum(Apply(s, e).statuses) && Sum(s.latency) <= Sum(Apply(s, e).latency)
  {
    match e
    case CountRun(_, _, _, _) => RunBalanced(s, e);
    case CountError(_) => ErrorBalanced(s, e);
    case CountStatus(_) => StatusBalanced(s, e);
    case CountLatency(_) => LatencyBalanced(s, e);
    case _ =>
  }

  lemma StepInv(s: State, e: Event)
    requires Inv(s) && Enabled(s, e)
    ensures Inv(Apply(s, e))
  {
    StepBalanced(s, e);
    var u := Apply(s, e);
    forall n | n in u.snaps ensures SnapOk(u, u.snaps[n]) {
      if n in s.snaps { assert SnapOk(s, s.snaps[n]); }
    }
  }

  ghost predicate Legal(s: State, es: seq<Event>)
    decreases |es|
  {
    es == [] || (Enabled(s, es[0]) && Legal(Apply(s, es[0]), es[1..]))
  }

  ghost function Exec(s: State, es: seq<Event>): State
    requires Legal(s, es)
    decreases |es|
  {
    if es == [] then s else Exec(Apply(s, es[0]), es[1..])
  }

  lemma {:induction false} RunInv(s: State, es: seq<Event>)
    requires Inv(s) && Legal(s, es)
    ensures Inv(Exec(s, es))
    decreases |es|
  {
    if es != [] {
      StepInv(s, es[0]);
      RunInv(Apply(s, es[0]), es[1..]);
    }
  }

  /** In every interleaving the totals are ordered, and they agree when no record is in progress. */
  lemma TotalsOrdered(es: seq<Event>)
    requires Legal(INIT, es)
    ensures var s := Exec(INIT, es);
      && Sum(s.latency) <= Sum(s.statuses) <= s.total && s.errors <= s.total
      && (s.recs == map[] ==> Sum(s.latency) == Sum(s.statuses) == s.total)
  {
    InitInv();
    RunInv(INIT, es);
    var s := Exec(INIT, es);
    if s.recs == map[] { assert NoStatusYet(s.recs) == {} && NoLatencyYet(s.recs) == {}; }
  }

  lemma InitInv()
    ensures Inv(INIT)
  {}

  /** Every finished snapshot reports at least as many runs as statuses and as latencies. */
  lemma SnapshotConsistent(es: seq<Event>, n: Tid)
    requires Legal(INIT, es) && n in Exec(INIT, es).snaps && Exec(INIT, es).snaps[n].errors.Some?
    ensures var snap := Exec(INIT, es).snaps[n];
      && snap.total.Some? && snap.latency.Some?
      && Sum(snap.statuses) <= snap.total.value && Sum(snap.latency.value) <= snap.total.value
  {
    InitInv();
    RunInv(INIT, es);
    assert SnapOk(Exec(INIT, es), Exec(INIT, es).snaps[n]);
  }

  // ---------------------------------------------------------------- every key of every counter

  function At(m: map<string, nat>, key: string): nat { if key in m then m[key] else 0 }

  /** The runs that es begins, those with this status, those with this bucket, and those that fail. */
  function Begun(es: seq<Event>): nat {
    if es == [] then 0 else (if es[0].CountRun? then 1 else 0) + Begun(es[1..])
  }

  function BegunAs(es: seq<Event>, status: string): nat {
    if es == [] then 0 else (if es[0].CountRun? && es[0].status == status then 1 else 0) + BegunAs(es[1..], status)
  }

  function BegunIn(es: seq<Event>, bucket: string): nat {
    if es == [] then 0 else (if es[0].CountRun? && es[0].bucket == bucket then 1 else 0) + BegunIn(es[1..], bucket)
  }

  function BegunFailing(es: seq<Event>): nat {
    if es == [] then 0 else (if es[0].CountRun? && es[0].isError then 1 else 0) + BegunFailing(es[1..])
  }

  ghost function OwesStatus(s: State, status: string): set<Tid> {
    set t | t in s.recs && s.recs[t].pc != CountedStatus && s.recs[t].status == status
  }

  ghost function OwesLatency(s: State, bucket: string): set<Tid> { set t | t in s.recs && s.recs[t].bucket == bucket }

  lemma BumpAt(m: map<string, nat>, k: string, key: string)
    ensures At(Bump(m, k), key) == At(m, key) + (if k == key then 1 else 0)
  {}

  lemma OneKeyStatus(s: State, e: Event, key: string)
    requires Enabled(s, e)
    ensures At(Apply(s, e).statuses, key) + |OwesStatus(Apply(s, e), key)| ==
      At(s.statuses, key) + |OwesStatus(s, key)| + BegunAs([e], key)
  {
    var u := Apply(s, e);
    assert [e][1..] == [];
    if e.CountRun? || e.CountError? || e.CountStatus? || e.CountLatency? {
      SizeMoves(OwesStatus(s, key), OwesStatus(u, key), e.t);
      if e.CountStatus? { BumpAt(s.statuses, s.recs[e.t].status, key); }
    } else {
      assert OwesStatus(u, key) == OwesStatus(s, key);
    }
  }

  lemma OneKeyLatency(s: State, e: Event, key: string)
    requires Enabled(s, e)
    ensures At(Apply(s, e).latency, key) + |OwesLatency(Apply(s, e), key)| ==
      At(s.latency, key) + |OwesLatency(s, key)| + BegunIn([e], key)
  {
    var u := Apply(s, e);
    assert [e][1..] == [];
    if e.CountRun? || e.CountError? || e.CountStatus? || e.CountLatency? {
      SizeMoves(OwesLatency(s, key), OwesLatency(u, key), e.t);
      if e.CountLatency? { BumpAt(s.latency, s.recs[e.t].bucket, key); }
    } else {
      assert OwesLatency(u, key) == OwesLatency(s, key);
    }
  }

  lemma OneError(s: State, e: Event)
    requires Enabled(s, e)
    ensures Apply(s, e).errors + |NoErrorYet(Apply(s, e).recs)| == s.errors + |NoErrorYet(s.recs)| + BegunFailing([e])
    ensures Apply(s, e).total == s.total + Begun([e])
  {
    var u := Apply(s, e);
    assert [e][1..] == [];
    if e.CountRun? || e.CountError? || e.CountStatus? || e.CountLatency? {
      SizeMoves(NoErrorYet(s.recs), NoErrorYet(u.recs), e.t);
    }
  }

  lemma CountOne(e: Event, rest: seq<Event>, key: string)
    ensures BegunAs([e] + rest, key) == BegunAs([e], key) + BegunAs(rest, key)
    ensures BegunIn([e] + rest, key) == BegunIn([e], key) + BegunIn(rest, key)
    ensures Begun([e] + rest) == Begun([e]) + Begun(rest)
    ensures BegunFailing([e] + rest) == BegunFailing([e]) + BegunFailing(rest)
  {
    assert ([e] + rest)[1..] == rest && [e][1..] == [];
  }

  /** Each run raises the key of its own status once, the key of its own bucket once, and the errors once if
      it failed, and nothing else is ever counted: what is not counted yet is owed by a record in progress. */
  lemma {:induction false} EveryKeyCounted(s: State, es: seq<Event>, key: string)
    requires Legal(s, es)
    ensures var u := Exec(s, es);
      && At(u.statuses, key) + |OwesStatus(u, key)| == At(s.statuses, key) + |OwesStatus(s, key)| + BegunAs(es, key)
      && At(u.latency, key) + |OwesLatency(u, key)| == At(s.latency, key) + |OwesLatency(s, key)| + BegunIn(es, key)
      && u.errors + |NoErrorYet(u.recs)| == s.errors + |NoErrorYet(s.recs)| + BegunFailing(es)
      && u.total == s.total + Begun(es)
    decreases |es|
  {
    if es != [] {
      OneKeyStatus(s, es[0], key);
      OneKeyLatency(s, es[0], key);
      OneError(s, es[0]);
      assert es == [es[0]] + es[1..];
      CountOne(es[0], es[1..], key);
      EveryKeyCounted(Apply(s, es[0]), es[1..], key);
    }
  }

  /** With no record in progress every key stands at the number of its runs. */
  lemma QuietCounts(es: seq<Event>, key: string)
    requires Legal(INIT, es) && Exec(INIT, es).recs == map[]
    ensures var u := Exec(INIT, es);
      && At(u.statuses, key) == BegunAs(es, key) && At(u.latency, key) == BegunIn(es, key)
      && u.errors == BegunFailing(es) && u.total == Begun(es)
  {
    var u := Exec(INIT, es);
    EveryKeyCounted(INIT, es, key);
    assert OwesStatus(INIT, key) == {} == OwesLatency(INIT, key) && NoErrorYet(INIT.recs) == {};
    assert OwesStatus(u, key) == {} == OwesLatency(u, key) && NoErrorYet(u.recs) == {};
  }

  // ---------------------------------------------------------------- the moments a snapshot shows

  /** The states the run goes through. */
  ghost function States(s: State, es: seq<Event>): (r: seq<State>)
    requires Legal(s, es)
    ensures |r| == |es| + 1 && r[0] == s
    decreases |es|
  {
    if es == [] then [s] else [s] + States(Apply(s, es[0]), es[1..])
  }

  lemma LaterState(s: State, es: seq<Event>, k: nat)
    requires Legal(s, es) && es != [] && k <= |es| - 1
    ensures States(s, es)[k + 1] == States(Apply(s, es[0]), es[1..])[k]
  {}

  lemma Shifted(s: State, es: seq<Event>)
    requires Legal(s, es) && es != []
    ensures var rest := States(Apply(s, es[0]), es[1..]);
      |States(s, es)| == |rest| + 1 && forall k | 0 <= k < |rest| :: States(s, es)[k + 1] == rest[k]
    ensures Exec(s, es) == Exec(Apply(s, es[0]), es[1..])
  {
    forall k | 0 <= k <= |es| - 1
      ensures States(s, es)[k + 1] == States(Apply(s, es[0]), es[1..])[k]
    {
      LaterState(s, es, k);
    }
  }

  /** A snapshot loads in order: latencies, runs, errors. */
  predicate InOrder(snap: Snap) {
    (snap.total.Some? ==> snap.latency.Some?) && (snap.errors.Some? ==> snap.total.Some?)
  }

  /** What the finished snapshot shows of what was not read yet: the counters at moments k1, k2 and k3. */
  ghost predicate Shows(states: seq<State>, was: Snap, snap: Snap, k1: nat, k2: nat, k3: nat)
    requires k1 <= k2 <= k3 < |states|
  {
    && (if was.latency.Some? then snap.latency == was.latency
        else snap.latency.Some? ==> snap.latency.value == states[k1].latency)
    && (if was.total.Some? then snap.total == was.total
        else snap.total.Some? ==> snap.total.value == states[k2].total)
    && (if was.errors.Some? then snap.errors == was.errors
        else snap.errors.Some? ==> snap.errors.value == states[k3].errors)
  }

  lemma ShowsLater(states: seq<State>, rest: seq<State>, was: Snap, snap: Snap, k1: nat, k2: nat, k3: nat)
    requires k1 <= k2 <= k3 < |rest| && |states| == |rest| + 1 && Shows(rest, was, snap, k1, k2, k3)
    requires forall k | 0 <= k < |rest| :: states[k + 1] == rest[k]
    ensures Shows(states, was, snap, k1 + 1, k2 + 1, k3 + 1)
  {}

  /** What one step does to a snapshot that is under way. */
  lemma SnapStep(s: State, e: Event, n: Tid)
    requires Enabled(s, e) && n in s.snaps && InOrder(s.snaps[n])
    ensures var u := Apply(s, e);
      && n in u.snaps && InOrder(u.snaps[n]) && u.snaps[n].statuses == s.snaps[n].statuses
      && Shows([s], s.snaps[n], u.snaps[n], 0, 0, 0)
  {}

  lemma {:induction false} ReadsOn(s: State, es: seq<Event>, n: Tid) returns (k1: nat, k2: nat, k3: nat)
    requires Legal(s, es) && n in s.snaps && InOrder(s.snaps[n])
    ensures n in Exec(s, es).snaps && Exec(s, es).snaps[n].statuses == s.snaps[n].statuses
    ensures k1 <= k2 <= k3 <= |es| && Shows(States(s, es), s.snaps[n], Exec(s, es).snaps[n], k1, k2, k3)
    ensures (s.snaps[n].latency.Some? ==> k1 == 0) && (s.snaps[n].total.Some? ==> k2 == 0)
    ensures s.snaps[n].errors.Some? ==> k3 == 0
    decreases |es|
  {
    if es == [] {
      k1, k2, k3 := 0, 0, 0;
    } else {
      var u, rest := Apply(s, es[0]), es[1..];
      SnapStep(s, es[0], n);
      var j1, j2, j3 := ReadsOn(u, rest, n);
      Shifted(s, es);
      ShowsLater(States(s, es), States(u, rest), u.snaps[n], Exec(u, rest).snaps[n], j1, j2, j3);
      k1 := if u.snaps[n].latency.Some? then 0 else j1 + 1;
      k2 := if u.snaps[n].total.Some? then 0 else j2 + 1;
      k3 := if u.snaps[n].errors.Some? then 0 else j3 + 1;
    }
  }

  /** The snapshot shows the four counters at these four moments. */
  ghost predicate AtMoments(states: seq<State>, snap: Snap, k0: nat, k1: nat, k2: nat, k3: nat)
    requires k0 <= k1 <= k2 <= k3 < |states|
  {
    && snap.statuses == states[k0].statuses
    && (snap.latency.Some? ==> snap.latency.value == states[k1].latency)
    && (snap.total.Some? ==> snap.total.value == states[k2].total)
    && (snap.errors.Some? ==> snap.errors.value == states[k3].errors)
  }

  lemma MomentsLater(states: seq<State>, rest: seq<State>, snap: Snap, k0: nat, k1: nat, k2: nat, k3: nat)
    requires k0 <= k1 <= k2 <= k3 < |rest| && |states| == |rest| + 1 && AtMoments(rest, snap, k0, k1, k2, k3)
    requires forall k | 0 <= k < |rest| :: states[k + 1] == rest[k]
    ensures AtMoments(states, snap, k0 + 1, k1 + 1, k2 + 1, k3 + 1)
  {}

  lemma MomentsFromStart(states: seq<State>, rest: seq<State>, was: Snap, snap: Snap, k1: nat, k2: nat, k3: nat)
    requires k1 <= k2 <= k3 < |rest| && |states| == |rest| + 1
    requires forall k | 0 <= k < |rest| :: states[k + 1] == rest[k]
    requires was.latency.None? && was.total.None? && was.errors.None? && Shows(rest, was, snap, k1, k2, k3)
    requires snap.statuses == states[0].statuses
    ensures AtMoments(states, snap, 0, k1 + 1, k2 + 1, k3 + 1)
  {}

  lemma SnapStarts(s: State, e: Event, n: Tid)
    requires Enabled(s, e) && n !in s.snaps && n in Apply(s, e).snaps
    ensures var snap := Apply(s, e).snaps[n];
      snap.statuses == s.statuses && snap.latency.None? && snap.total.None? && snap.errors.None?
  {}

  lemma ShowsFromStart(s: State, es: seq<Event>, n: Tid) returns (k1: nat, k2: nat, k3: nat)
    requires Legal(s, es) && es != [] && n !in s.snaps && n in Apply(s, es[0]).snaps
    ensures n in Exec(s, es).snaps
    ensures k1 <= k2 <= k3 <= |es| && AtMoments(States(s, es), Exec(s, es).snaps[n], 0, k1, k2, k3)
  {
    var u, rest := Apply(s, es[0]), es[1..];
    SnapStarts(s, es[0], n);
    k1, k2, k3 := ReadsOn(u, rest, n);
    FirstMoment(s, es, u.snaps[n], Exec(u, rest).snaps[n], k1, k2, k3);
    k1, k2, k3 := k1 + 1, k2 + 1, k3 + 1;
  }

  lemma FirstMoment(s: State, es: seq<Event>, was: Snap, snap: Snap, k1: nat, k2: nat, k3: nat)
    requires Legal(s, es) && es != [] && k1 <= k2 <= k3 <= |es| - 1
    requires was.latency.None? && was.total.None? && was.errors.None? && snap.statuses == s.statuses
    requires Shows(States(Apply(s, es[0]), es[1..]), was, snap, k1, k2, k3)
    ensures AtMoments(States(s, es), snap, 0, k1 + 1, k2 + 1, k3 + 1)
  {
    Shifted(s, es);
    MomentsFromStart(States(s, es), States(Apply(s, es[0]), es[1..]), was, snap, k1, k2, k3);
  }

  /** A finished snapshot shows the statuses, the latencies, the runs and the errors, each as it was at one
      moment of the run, and these moments come in that order. */
  lemma {:induction false} SnapshotShowsMoments(s: State, es: seq<Event>, n: Tid)
    returns (k0: nat, k1: nat, k2: nat, k3: nat)
    requires Legal(s, es) && n !in s.snaps && n in Exec(s, es).snaps
    ensures k0 <= k1 <= k2 <= k3 <= |es| && AtMoments(States(s, es), Exec(s, es).snaps[n], k0, k1, k2, k3)
    decreases |es|
  {
    var u, rest := Apply(s, es[0]), es[1..];
    var snap := Exec(u, rest).snaps[n];
    Shifted(s, es);
    if n in u.snaps {
      k1, k2, k3 := ShowsFromStart(s, es, n);
      k0 := 0;
    } else {
      k0, k1, k2, k3 := SnapshotShowsMoments(u, rest, n);
      MomentsLater(States(s, es), States(u, rest), snap, k0, k1, k2, k3);
      k0, k1, k2, k3 := k0 + 1, k1 + 1, k2 + 1, k3 + 1;
    }
  }

  // ---------------------------------------------------------------- errors in a snapshot

  /** The errors counted in es by runs that begin in es; `begun` are the records that have. */
  function LateErrors(es: seq<Event>, begun: set<Tid>): nat {
    if es == [] then 0
    else match es[0]
      case CountRun(t, _, _, _) => LateErrors(es[1..], begun + {t})
      case CountError(t) => (if t in begun then 1 else 0) + LateErrors(es[1..], begun)
      case _ => LateErrors(es[1..], begun)
  }

  ghost function EarlyErrors(s: State, begun: set<Tid>): set<Tid> { NoErrorYet(s.recs) - begun }

  /** Only a run that begins later adds to the errors that are counted or still to be counted. */
  lemma ErrorStep(s: State, e: Event, begun: set<Tid>)
    requires Enabled(s, e)
    ensures var u := Apply(s, e);
      var now := if e.CountRun? then begun + {e.t} else begun;
      u.errors + |EarlyErrors(u, now)| <=
        s.errors + |EarlyErrors(s, begun)| + (if e.CountError? && e.t in begun then 1 else 0)
  {
    var u := Apply(s, e);
    var now := if e.CountRun? then begun + {e.t} else begun;
    if e.CountError? && e.t !in begun {
      assert e.t in EarlyErrors(s, begun);
      assert EarlyErrors(u, now) <= EarlyErrors(s, begun) - {e.t};
      SubsetSize(EarlyErrors(u, now), EarlyErrors(s, begun) - {e.t});
    } else {
      assert EarlyErrors(u, now) <= EarlyErrors(s, begun);
      SubsetSize(EarlyErrors(u, now), EarlyErrors(s, begun));
    }
  }

  lemma {:induction false} ErrorsBounded(s: State, es: seq<Event>, begun: set<Tid>)
    requires Legal(s, es)
    ensures Exec(s, es).errors <= s.errors + |EarlyErrors(s, begun)| + LateErrors(es, begun)
    decreases |es|
  {
    if es != [] {
      ErrorStep(s, es[0], begun);
      ErrorsBounded(Apply(s, es[0]), es[1..], if es[0].CountRun? then begun + {es[0].t} else begun);
    }
  }

  /** The run count is loaded before the error count. Whatever happens in between, the snapshot shows
      more errors than runs by at most the errors of runs that begin in between. */
  lemma SnapshotErrorsBounded(s: State, n: Tid, es: seq<Event>)
    requires Inv(s) && Enabled(s, LoadTotal(n)) && Legal(Apply(s, LoadTotal(n)), es)
    ensures Exec(Apply(s, LoadTotal(n)), es).errors <= s.total + LateErrors(es, {})
  {
    var u := Apply(s, LoadTotal(n));
    assert EarlyErrors(u, {}) == NoErrorYet(s.recs);
    ErrorsBounded(u, es, {});
  }

  /** The runs begun so far that do not fail. */
  ghost function CleanRuns(s: State): int { s.total - s.errors - |NoErrorYet(s.recs)| }

  /** However the next k late errors fall, the snapshot shows no more errors than runs. */
  ghost predicate SafeFor(s: State, n: Tid, k: nat)
    requires Enabled(s, LoadTotal(n))
  {
    var u := Apply(s, LoadTotal(n));
    forall es | Legal(u, es) && LateErrors(es, {}) <= k :: Exec(u, es).errors <= s.total
  }

  /** k failing runs begin and count their errors. */
  lemma {:induction false} FailMore(s: State, k: nat, begun: set<Tid>) returns (es: seq<Event>)
    ensures Legal(s, es) && Exec(s, es).errors == s.errors + k && LateErrors(es, begun) == k
    decreases k
  {
    if k == 0 {
      es := [];
    } else {
      var t := FreshKey(s.recs);
      var run := CountRun(t, "internal_error", "<=50", true);
      var s1 := Apply(s, run);
      var s2 := Apply(s1, CountError(t));
      var rest := FailMore(s2, k - 1, begun + {t});
      Prepend(s1, CountError(t), rest);
      Prepend(s, run, [CountError(t)] + rest);
      es := [run] + ([CountError(t)] + rest);
      assert es[1..] == [CountError(t)] + rest && es[1..][1..] == rest;
    }
  }

  /** The records under way count the errors they still owe, then k more runs fail. */
  lemma {:induction false} WorstCase(s: State, k: nat) returns (es: seq<Event>)
    ensures Legal(s, es) && LateErrors(es, {}) == k
    ensures Exec(s, es).errors == s.errors + |NoErrorYet(s.recs)| + k
    decreases |NoErrorYet(s.recs)|
  {
    if NoErrorYet(s.recs) == {} {
      es := FailMore(s, k, {});
    } else {
      var t :| t in NoErrorYet(s.recs);
      var u := Apply(s, CountError(t));
      assert NoErrorYet(u.recs) == NoErrorYet(s.recs) - {t};
      var rest := WorstCase(u, k);
      Prepend(s, CountError(t), rest);
      es := [CountError(t)] + rest;
      assert es[1..] == rest;
    }
  }

  /** The snapshot is safe for k errors of later runs exactly when, at its first load, at least k of the
      runs begun so far do not fail. */
  lemma SnapshotSafeIff(s: State, n: Tid, k: nat)
    requires Inv(s) && Enabled(s, LoadTotal(n))
    ensures SafeFor(s, n, k) <==> k <= CleanRuns(s)
  {
    var u := Apply(s, LoadTotal(n));
    if k <= CleanRuns(s) {
      assert EarlyErrors(u, {}) == NoErrorYet(s.recs);
      forall es | Legal(u, es) && LateErrors(es, {}) <= k
        ensures Exec(u, es).errors <= s.total
      {
        ErrorsBounded(u, es, {});
      }
    } else {
      var es := WorstCase(u, k);
      assert Legal(u, es) && LateErrors(es, {}) <= k;
    }
  }

  lemma Prepend(s: State, e: Event, rest: seq<Event>)
    requires Enabled(s, e) && Legal(Apply(s, e), rest)
    ensures Legal(s, [e] + rest) && Exec(s, [e] + rest) == Exec(Apply(s, e), rest)
  {}

  /** So a snapshot can report more errors than runs: one failing run between the two loads. */
  lemma SnapshotCanShowMoreErrorsThanRuns() returns (es: seq<Event>)
    ensures Legal(INIT, es) && 0 in Exec(INIT, es).snaps
    ensures Exec(INIT, es).snaps[0].errors == Some(1) && Exec(INIT, es).snaps[0].total == Some(0)
  {
    var run := CountRun(0, "queue_full", "<=50", true);
    var s1 := Apply(INIT, CopyStatuses(0));
    var s2 := Apply(s1, CopyLatency(0));
    var s3 := Apply(s2, LoadTotal(0));
    var s4 := Apply(s3, run);
    var s5 := Apply(s4, CountError(0));
    es := [];
    Prepend(s5, LoadErrors(0), es);
    es := [LoadErrors(0)] + es;
    Prepend(s4, CountError(0), es);
    es := [CountError(0)] + es;
    Prepend(s3, run, es);
    es := [run] + es;
    Prepend(s2, LoadTotal(0), es);
    es := [LoadTotal(0)] + es;
    Prepend(s1, CopyLatency(0), es);
    es := [CopyLatency(0)] + es;
    Prepend(INIT, CopyStatuses(0), es);
    es := [CopyStatuses(0)] + es;
  }

  // ---------------------------------------------------------------- the latency histogram

  const BUCKETS: seq<int> := [50, 100, 250, 500, 1000, 2000, 5000]

  /** The smallest boundary that is not exceeded; None is the overflow bucket. */
  method FindBucket(ms: int) returns (b: Option<int>)
    ensures ms <= 50 ==> b == Some(50)
    ensures 50 < ms <= 100 ==> b == Some(100)
    ensures 100 < ms <= 250 ==> b == Some(250)
    ensures 250 < ms <= 500 ==> b == Some(500)
    ensures 500 < ms <= 1000 ==> b == Some(1000)
    ensures 1000 < ms <= 2000 ==> b == Some(2000)
    ensures 2000 < ms <= 5000 ==> b == Some(5000)
    ensures 5000 < ms ==> b == None
  {
    b := None;
    for i := 0 to |BUCKETS|
      invariant forall j | 0 <= j < i :: ms > BUCKETS[j]
    {
      if ms <= BUCKETS[i] {
        BucketList();
        return Some(BUCKETS[i]);
      }
    }
    BucketList();
  }

  lemma BucketList()
    ensures |BUCKETS| == 7 && BUCKETS[0] == 50 && BUCKETS[1] == 100 && BUCKETS[2] == 250 && BUCKETS[3] == 500
    ensures BUCKETS[4] == 1000 && BUCKETS[5] == 2000 && BUCKETS[6] == 5000
  {}

  // ---------------------------------------------------------------- one record, undisturbed

  class Counters {
    var total: nat
    var errors: nat
    var statuses: map<string, nat>
    var latency: map<string, nat>

    constructor ()
      ensures total == 0 == errors && statuses == map[] == latency
    {
      total, errors, statuses, latency := 0, 0, map[], map[];
    }

    method RecordRun(status: string, bucket: string, isError: bool)
      modifies this
      ensures total == old(total) + 1 && errors == old(errors) + (if isError then 1 else 0)
      ensures statuses == Bump(old(statuses), status) && Sum(statuses) == old(Sum(statuses)) + 1
      ensures latency == Bump(old(latency), bucket) && Sum(latency) == old(Sum(latency)) + 1
    {
      SumBump(statuses, status);
      SumBump(latency, bucket);
      total := total + 1;
      if isError { errors := errors + 1; }
      statuses := statuses[status := (if status in statuses then statuses[status] else 0) + 1];
      latency := latency[bucket := (if bucket in latency then latency[bucket] else 0) + 1];
    }
  }

  /** Snapshot copies each map key by key. */
  method CopyCounts(m: map<string, nat>) returns (copy: map<string, nat>)
    ensures copy == m
  {
    copy := map[];
    var keys := m.Keys;
    while keys != {}
      invariant keys <= m.Keys
      invariant copy == map k | k in m && k !in keys :: m[k]
      decreases |keys|
    {
      var k :| k in keys;
      copy := copy[k := m[k]];
      keys := keys - {k};
    }
    assert copy == m;
  }
}
