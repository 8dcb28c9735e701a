/** What is left of a jail while it is torn down. The uid is given back before the directory is removed,
    so for a while a directory may belong to a uid that another jail can get. */
module Remains {
  import opened Common
  import G = AdmissionGate
  import P = UidPool
  import opened Sandbox

  /** Two directories that exist at the same time belong to the same uid. */
  ghost predicate SharedBy(s: System, j: JailId, k: JailId) {
    j != k && j in s.dirs && k in s.dirs && j in s.jails && k in s.jails && s.jails[j].uid == s.jails[k].uid
  }

  ghost predicate Shared(s: System) { exists j, k :: SharedBy(s, j, k) }

  /** At most one of them still holds the uid. */
  lemma SharedWithRemains(s: System, j: JailId, k: JailId)
    requires Inv(s) && SharedBy(s, j, k)
    ensures !Live(s, j) || !Live(s, k)
  {}

  // ---------------------------------------------------------------- when it cannot happen

  /** uid v is free in every state the run goes through. */
  ghost predicate StaysFree(s: System, es: seq<Event>, v: int)
    requires Legal(s, es)
    decreases |es|
  {
    v !in s.pool.held && (es == [] || StaysFree(Apply(s, es[0]), es[1..], v))
  }

  /** What a step does to the pool. */
  lemma PoolMoves(s: System, e: Event) returns (pe: Option<P.Event>)
    requires s.pool.size > 0 && Enabled(s, e)
    ensures pe.None? ==> Apply(s, e).pool == s.pool
    ensures pe.Some? ==> Apply(s, e).pool == P.Next(s.pool, pe.value)
  {
    pe := None;
    match e
    case CallNewJail(_, _) => pe := Some(P.AllocOne);
    case JailFails(t) => pe := Released(s, s.threads[t].pc.j);
    case CallTeardown(j) => if Live(s, j) { pe := Released(s, j); }
    case RunDeferred(t) =>
      var d := Top(s.threads[t]);
      if UnderWay(s, d) && Live(s, d.j) { pe := Released(s, d.j); }
    case _ =>
  }

  function Released(s: System, j: JailId): Option<P.Event> {
    if j in s.jails then Some(P.ReleaseOne(s.jails[j].uid)) else None
  }

  /** Only newJail makes a jail, with the uid the pool hands out. */
  lemma NewJailsOnly(s: System, e: Event, k: JailId)
    requires s.pool.size > 0 && Enabled(s, e) && k !in s.jails && k in Apply(s, e).jails
    ensures e.CallNewJail? && P.Alloc(s.pool).1 == Some(Apply(s, e).jails[k].uid)
  {}

  ghost predicate Nearer(p: P.Pool, v: int, u: int) {
    P.InRange(p, u) && P.InRange(p, v) && P.Distance(p, v) < P.Distance(p, u)
  }

  lemma NearerStep(s: System, e: Event, u: int, v: int)
    requires Inv(s) && Enabled(s, e) && Nearer(s.pool, v, u) && v !in s.pool.held && v !in Apply(s, e).pool.held
    ensures Nearer(Apply(s, e).pool, v, u)
  {
    var pe := PoolMoves(s, e);
    if pe.Some? { P.StaysNearer(s.pool, pe.value, u, v); }
  }

  /** While a nearer uid stays free, no jail gets u. */
  lemma {:induction false} NobodyGets(s: System, es: seq<Event>, u: int, v: int, k: JailId)
    requires Inv(s) && Legal(s, es) && Nearer(s.pool, v, u) && StaysFree(s, es, v)
    requires k !in s.jails && k in Exec(s, es).jails
    ensures Exec(s, es).jails[k].uid != u
    decreases |es|
  {
    var t := Apply(s, es[0]);
    StepInv(s, es[0]);
    NearerStep(s, es[0], u, v);
    if k in t.jails {
      NewJailsOnly(s, es[0], k);
      P.NearerFreeWins(s.pool, u, v);
      JailHistory(t, es[1..], k);
    } else {
      NobodyGets(t, es[1..], u, v, k);
    }
  }

  /** A jail that has just got its uid is last in line for it. */
  lemma LastInLine(s: System, t: Tid, j: JailId, v: int)
    requires Inv(s) && Enabled(s, CallNewJail(t, j)) && P.InRange(s.pool, v)
    ensures var s1 := Apply(s, CallNewJail(t, j));
      && j in s1.jails && s1.jails[j].uid == P.NextUid(s.pool)
      && (v != P.NextUid(s.pool) ==> Nearer(s1.pool, v, s1.jails[j].uid))
  {
    NewJailNeverStarves(s, t, j);
    if v != P.NextUid(s.pool) { P.HandedOutIsLast(s.pool, P.NextUid(s.pool), v); }
  }

  /** No jail made in the run ever shares its uid with jail j in the end. */
  ghost predicate NeverShares(s: System, es: seq<Event>, j: JailId)
    requires Legal(s, es)
  {
    forall k | k in Exec(s, es).jails && k !in s.jails :: !SharedBy(Exec(s, es), j, k)
  }

  lemma NoneShares(s: System, es: seq<Event>, j: JailId, v: int)
    requires Inv(s) && Legal(s, es) && j in s.jails && Nearer(s.pool, v, s.jails[j].uid) && StaysFree(s, es, v)
    ensures NeverShares(s, es, j)
  {
    JailHistory(s, es, j);
    forall k | k in Exec(s, es).jails && k !in s.jails ensures !SharedBy(Exec(s, es), j, k) {
      NobodyGets(s, es, s.jails[j].uid, v, k);
    }
  }

  /** From the moment a jail gets its uid, and as long as some other uid stays free, no later jail gets the
      same one: the directories of the two can never be there together. */
  lemma NoSharingWhileAnotherStaysFree(s: System, t: Tid, j: JailId, es: seq<Event>, v: int)
    requires Inv(s) && Enabled(s, CallNewJail(t, j)) && P.InRange(s.pool, v)
    ensures var s1 := Apply(s, CallNewJail(t, j));
      Legal(s1, es) && StaysFree(s1, es, v) && v != P.NextUid(s.pool) ==> NeverShares(s1, es, j)
  {
    LastInLine(s, t, j, v);
    StepInv(s, CallNewJail(t, j));
    var s1 := Apply(s, CallNewJail(t, j));
    if Legal(s1, es) && StaysFree(s1, es, v) && v != P.NextUid(s.pool) { NoneShares(s1, es, j, v); }
  }

  // ---------------------------------------------------------------- one job on one cpu

  lemma {:induction false} ConfigFixed(s: System, es: seq<Event>)
    requires Legal(s, es)
    ensures Exec(s, es).cpus == s.cpus && Exec(s, es).gate.maxJobs == s.gate.maxJobs
    decreases |es|
  {
    if es != [] { ConfigFixed(Apply(s, es[0]), es[1..]); }
  }

  ghost predicate OneAtATime(s: System) { s.gate.maxJobs <= 0 || (s.gate.maxJobs == 1 && s.cpus == 1) }

  /** With one job on one cpu there is one goroutine at a time, and it cleans up before it goes. */
  lemma OneGoroutine(s: System, t: Tid, q: Tid)
    requires Inv(s) && OneAtATime(s) && t in s.threads && q in s.threads
    ensures t == q
  {
    assert ThreadOk(s, t) && ThreadOk(s, q) && CountersOk(s, t.r) && CountersOk(s, q.r);
    SubsetSize({t.r, q.r}, G.Holders(s.gate));
  }

  lemma NothingShared(s: System)
    requires Inv(s) && OneAtATime(s)
    ensures !Shared(s)
  {
    forall j, k ensures !SharedBy(s, j, k) {
      if j != k && j in s.dirs && k in s.dirs && j in s.jails && k in s.jails {
        assert JailOk(s, j) && JailOk(s, k) && Present(s, j) && Present(s, k);
        OneGoroutine(s, s.jails[j].owner, s.jails[k].owner);
        OneJailEach(s, j, k);
        assert false;
      }
    }
  }

  // ---------------------------------------------------------------- otherwise it can

  ghost predicate Reaches(s: System, u: System) { exists es :: Legal(s, es) && Exec(s, es) == u }

  lemma ReachStep(s: System, e: Event)
    requires s.pool.size > 0 && Enabled(s, e)
    ensures Reaches(s, Apply(s, e))
  {
    assert [e][1..] == [] && Legal(Apply(s, e), []) && Exec(Apply(s, e), []) == Apply(s, e);
    assert Legal(s, [e]) && Exec(s, [e]) == Apply(s, e);
  }

  lemma ExecCons(s: System, e: Event, rest: seq<Event>)
    requires s.pool.size > 0 && Enabled(s, e) && Legal(Apply(s, e), rest)
    ensures Legal(s, [e] + rest) && Exec(s, [e] + rest) == Exec(Apply(s, e), rest)
  {
    assert ([e] + rest)[0] == e && ([e] + rest)[1..] == rest;
  }

  lemma Regrouped(a: seq<Event>, b: seq<Event>)
    requires a != []
    ensures a + b == [a[0]] + (a[1..] + b)
  {}

  lemma {:induction false} ExecConcat(s: System, a: seq<Event>, b: seq<Event>)
    requires Legal(s, a) && Legal(Exec(s, a), b)
    ensures Legal(s, a + b) && Exec(s, a + b) == Exec(Exec(s, a), b)
    decreases |a|
  {
    if a == [] {
      assert a + b == b;
    } else {
      var e, rest := a[0], a[1..];
      Regrouped(a, b);
      ExecConcat(Apply(s, e), rest, b);
      ExecCons(s, e, rest + b);
    }
  }

  lemma ReachTrans(s: System, u: System, v: System)
    requires Reaches(s, u) && Reaches(u, v)
    ensures Reaches(s, v)
  {
    var a :| Legal(s, a) && Exec(s, a) == u;
    var b :| Legal(u, b) && Exec(u, b) == v;
    ExecConcat(s, a, b);
  }

  lemma ReachInv(s: System, u: System)
    requires Inv(s) && Reaches(s, u)
    ensures Inv(u)
  {
    var es :| Legal(s, es) && Exec(s, es) == u;
    RunInv(s, es);
  }

  lemma ReachSelf(s: System)
    ensures Reaches(s, s)
  {
    assert Legal(s, []) && Exec(s, []) == s;
  }

  /** A goroutine at its entry makes a jail, returns, and has given its uid back; the directory is still
      there. */
  function Paused(s: System, t: Tid, j: JailId): System
    requires t in s.threads && s.pool.size > 0
  {
    s.(pool := P.Refunded(s.pool),
       jails := s.jails[j := JailRecord(t, P.NextUid(s.pool), Gone, 1)],
       threads := s.threads[t := Thread(Unwinding, s.threads[t].defers + [Teardown(j)])],
       dirs := s.dirs + {j})
  }

  /** The same, with the jail made and not yet returned. */
  function Made(s: System, t: Tid, j: JailId): System
    requires t in s.threads && s.pool.size > 0
  {
    s.(pool := P.Alloc(s.pool).0,
       jails := s.jails[j := JailRecord(t, P.NextUid(s.pool), Open, 0)],
       threads := s.threads[t := Thread(Body, s.threads[t].defers + [Teardown(j)])],
       dirs := s.dirs + {j})
  }

  lemma ReachMade(s: System, t: Tid, j: JailId)
    requires s.pool.size > 0 && Pcs(s, t, Entry) && j !in s.jails && P.Alloc(s.pool).1.Some?
    ensures Reaches(s, Made(s, t, j))
  {
    var s1 := Apply(s, CallNewJail(t, j));
    var s2 := Apply(s1, MakeDir(t));
    ReachStep(s, CallNewJail(t, j));
    ReachStep(s1, MakeDir(t));
    ReachTrans(s, s1, s2);
    ReachStep(s2, JailReady(t));
    assert Apply(s2, JailReady(t)).threads == Made(s, t, j).threads;
    assert Apply(s2, JailReady(t)).jails == Made(s, t, j).jails;
    ReachTrans(s, s2, Made(s, t, j));
  }

  lemma ReachReturned(s: System, t: Tid)
    requires s.pool.size > 0 && Pcs(s, t, Body)
    ensures Reaches(s, SetPc(s, t, Unwinding))
  {
    ReachStep(s, Return(t));
  }

  lemma ReachGivenBack(s: System, t: Tid, j: JailId)
    requires s.pool.size > 0 && Pcs(s, t, Unwinding) && s.threads[t].defers != [] && Top(s.threads[t]) == Teardown(j)
    requires Live(s, j)
    ensures Reaches(s, GiveBack(s, j))
  {
    ReachStep(s, RunDeferred(t));
  }

  lemma PausedIs(s: System, t: Tid, j: JailId)
    requires s.pool.size > 0 && t in s.threads && P.Alloc(s.pool).1.Some?
    ensures GiveBack(SetPc(Made(s, t, j), t, Unwinding), j) == Paused(s, t, j)
  {
    assert Made(s, t, j).threads[t := Paused(s, t, j).threads[t]] == Paused(s, t, j).threads;
    assert GiveBack(SetPc(Made(s, t, j), t, Unwinding), j).jails == Paused(s, t, j).jails;
  }

  lemma ReachPaused(s: System, t: Tid, j: JailId)
    requires s.pool.size > 0 && Pcs(s, t, Entry) && j !in s.jails && P.Alloc(s.pool).1.Some?
    ensures Reaches(s, Paused(s, t, j))
  {
    var u := Made(s, t, j);
    var v := SetPc(u, t, Unwinding);
    ReachMade(s, t, j);
    ReachReturned(u, t);
    ReachTrans(s, u, v);
    ReachGivenBack(v, t, j);
    PausedIs(s, t, j);
    ReachTrans(s, v, Paused(s, t, j));
  }

  /** It removes the directory and is done with its jail. */
  lemma ReachClean(s: System, t: Tid, j: JailId, d: seq<Deferred>)
    requires s.pool.size > 0 && t in s.threads && s.threads[t] == Thread(Unwinding, d + [Teardown(j)])
    requires j in s.jails && s.jails[j].phase == Gone && j in s.dirs && (t.Test? ==> d != [])
    ensures Reaches(s, s.(dirs := s.dirs - {j}, threads := s.threads[t := Thread(Unwinding, d)]))
  {
    assert Top(s.threads[t]) == Teardown(j);
    var u := Apply(s, RunDeferred(t));
    ReachStep(s, RunDeferred(t));
    assert (d + [Teardown(j)])[..|d|] == d;
    ReachStep(u, RunDeferred(t));
    ReachTrans(s, u, Apply(u, RunDeferred(t)));
  }

  // ---------------------------------------------------------------- a goroutine that comes and goes

  /** A test goroutine of a run in its parallel loop, or a request of its own. */
  datatype Worker = TestOf(r: Caller, i: nat) | Handler(r: Caller, maxParallel: Option<int>)

  function Goroutine(w: Worker): Tid { if w.TestOf? then Test(w.r, w.i) else Main(w.r) }

  ghost predicate CanWork(s: System, w: Worker) {
    match w
    case TestOf(r, i) => Enabled(s, Spawn(r, i))
    case Handler(r, _) =>
      && r !in s.gate.callers && r !in s.runs && Main(r) !in s.threads
      && !s.gate.stopped && s.gate.inFlight < s.gate.maxJobs && s.gate.queued == 0
  }

  /** The worker is at its entry. */
  function Started(s: System, w: Worker): System {
    match w
    case TestOf(r, i) => SetThread(Adjust(s, r, 1, 1), Test(r, i), Thread(Entry, [WgDone, SemRelease]))
    case Handler(r, mp) =>
      s.(gate := G.Apply(s.gate, G.Enter(r)), inFlight := s.inFlight + 1,
         runs := s.runs[r := Run(Executing, EffectiveParallel(mp, s.cpus), 0, 0)],
         threads := s.threads[Main(r) := Thread(Entry, [])])
  }

  lemma ReachEntered(s: System, r: Caller, mp: Option<int>)
    requires s.pool.size > 0 && CanWork(s, Handler(r, mp))
    ensures var run := Run(Admitted, EffectiveParallel(mp, s.cpus), 0, 0);
      Reaches(s, s.(gate := G.Apply(s.gate, G.Enter(r)), runs := s.runs[r := run]))
  {
    ReachStep(s, GateStep(G.Enter(r), mp));
  }

  lemma ReachCounted(s: System, r: Caller)
    requires s.pool.size > 0 && At(s, r, Admitted)
    ensures Reaches(s, SetStage(s, r, Counted).(inFlight := s.inFlight + 1))
  {
    ReachStep(s, CountUp(r));
  }

  lemma ReachBegun(s: System, r: Caller)
    requires s.pool.size > 0 && At(s, r, Counted)
    ensures Reaches(s, SetThread(SetStage(s, r, Executing), Main(r), Thread(Entry, [])))
  {
    ReachStep(s, Begin(r));
  }

  lemma ReachStarted(s: System, w: Worker)
    requires s.pool.size > 0 && CanWork(s, w)
    ensures Reaches(s, Started(s, w))
  {
    match w
    case TestOf(r, i) => ReachStep(s, Spawn(r, i));
    case Handler(r, mp) => HandlerStarts(s, r, mp);
  }

  lemma HandlerStarts(s: System, r: Caller, mp: Option<int>)
    requires s.pool.size > 0 && CanWork(s, Handler(r, mp))
    ensures Reaches(s, Started(s, Handler(r, mp)))
  {
    var run := Run(Admitted, EffectiveParallel(mp, s.cpus), 0, 0);
    var s1 := s.(gate := G.Apply(s.gate, G.Enter(r)), runs := s.runs[r := run]);
    var s2 := SetStage(s1, r, Counted).(inFlight := s.inFlight + 1);
    var s3 := SetThread(SetStage(s2, r, Executing), Main(r), Thread(Entry, []));
    ReachEntered(s, r, mp);
    ReachCounted(s1, r);
    ReachTrans(s, s1, s2);
    ReachBegun(s2, r);
    ReachTrans(s, s2, s3);
    assert s3.runs == Started(s, Handler(r, mp)).runs;
  }

  /** s with another pool and more jails. */
  function With(s: System, pool: P.Pool, jails: map<JailId, JailRecord>): System { s.(pool := pool, jails := jails) }

  lemma ReachPopped(s: System, t: Tid, d: Deferred)
    requires s.pool.size > 0 && Pcs(s, t, Unwinding) && s.threads[t].defers != [] && Top(s.threads[t]) == d
    requires !d.Teardown?
    ensures Reaches(s, Ended(Popped(s, t), t.r, d))
  {
    ReachStep(s, RunDeferred(t));
  }

  lemma TestEnds(s: System, r: Caller, i: nat)
    requires s.pool.size > 0 && CanWork(s, TestOf(r, i))
    ensures Reaches(SetThread(Started(s, TestOf(r, i)), Test(r, i), Thread(Unwinding, [WgDone, SemRelease])), s)
  {
    var t := Test(r, i);
    var u := SetThread(Started(s, TestOf(r, i)), t, Thread(Unwinding, [WgDone, SemRelease]));
    assert [WgDone, SemRelease][..1] == [WgDone];
    var v := Adjust(SetThread(u, t, Thread(Unwinding, [WgDone])), r, -1, 0);
    ReachPopped(u, t, SemRelease);
    ReachPopped(v, t, WgDone);
    var x := Adjust(v.(threads := v.threads - {t}), r, 0, -1);
    assert x.threads == s.threads && x.runs == s.runs;
    ReachTrans(u, v, x);
  }

  lemma ReachFinished(s: System, r: Caller)
    requires s.pool.size > 0 && Main(r) in s.threads && s.threads[Main(r)] == Thread(Unwinding, [])
    ensures Reaches(s, SetStage(s, r, Finished).(threads := s.threads - {Main(r)}))
  {
    ReachStep(s, Finish(r));
  }

  lemma ReachUncounted(s: System, r: Caller)
    requires s.pool.size > 0 && At(s, r, Finished)
    ensures Reaches(s, SetStage(s, r, Uncounted).(inFlight := s.inFlight - 1))
  {
    ReachStep(s, CountDown(r));
  }

  lemma ReachLeft(s: System, r: Caller)
    requires s.pool.size > 0 && At(s, r, Uncounted) && G.IsHolding(s.gate, r)
    ensures Reaches(s, s.(gate := G.Apply(s.gate, G.Release(r)), runs := s.runs - {r}))
  {
    ReachStep(s, GateStep(G.Release(r), None));
  }

  /** With nobody queued, entering and leaving restores the gate. */
  lemma EnterAndLeave(g: G.State, r: Caller)
    requires r !in g.callers && !g.stopped && g.inFlight < g.maxJobs && g.queued == 0
    ensures G.IsHolding(G.Apply(g, G.Enter(r)), r) && G.Apply(G.Apply(g, G.Enter(r)), G.Release(r)) == g
  {
    assert g.callers[r := G.Holding] - {r} == g.callers;
  }

  lemma HandlerEnds(s: System, r: Caller, mp: Option<int>)
    requires s.pool.size > 0 && CanWork(s, Handler(r, mp))
    ensures Reaches(SetThread(Started(s, Handler(r, mp)), Main(r), Thread(Unwinding, [])), s)
  {
    var u := SetThread(Started(s, Handler(r, mp)), Main(r), Thread(Unwinding, []));
    var v := SetStage(u, r, Finished).(threads := u.threads - {Main(r)});
    var x := SetStage(v, r, Uncounted).(inFlight := v.inFlight - 1);
    var y := x.(gate := G.Apply(x.gate, G.Release(r)), runs := x.runs - {r});
    EnterAndLeave(s.gate, r);
    ReachFinished(u, r);
    ReachUncounted(v, r);
    ReachTrans(u, v, x);
    ReachLeft(x, r);
    ReachTrans(u, x, y);
    assert y.threads == s.threads && y.runs == s.runs;
  }

  lemma WorkerEnds(s: System, w: Worker)
    requires s.pool.size > 0 && CanWork(s, w)
    ensures Reaches(SetThread(Started(s, w), Goroutine(w), Thread(Unwinding, Base(Goroutine(w)))), s)
  {
    match w
    case TestOf(r, i) => TestEnds(s, r, i);
    case Handler(r, mp) => HandlerEnds(s, r, mp);
  }

  /** The worker has a jail, gives its uid back, removes its directory, and has its own calls left. */
  function Emptied(s: System, t: Tid, j: JailId): System
    requires t in s.threads && s.pool.size > 0
  {
    SetThread(With(s, P.Refunded(s.pool), Paused(s, t, j).jails), t, Thread(Unwinding, s.threads[t].defers))
  }

  lemma ReachEmptied(s: System, t: Tid, j: JailId)
    requires s.pool.size > 0 && Pcs(s, t, Entry) && j !in s.jails && j !in s.dirs && P.Alloc(s.pool).1.Some?
    requires t.Test? ==> s.threads[t].defers != []
    ensures Reaches(s, Emptied(s, t, j))
  {
    var u, d := Paused(s, t, j), s.threads[t].defers;
    ReachPaused(s, t, j);
    ReachClean(u, t, j, d);
    var v := u.(dirs := u.dirs - {j}, threads := u.threads[t := Thread(Unwinding, d)]);
    assert v.dirs == s.dirs && v.threads == Emptied(s, t, j).threads;
    assert v == Emptied(s, t, j);
    ReachTrans(s, u, v);
  }

  /** One whole visit: the worker leaves nothing but a moved cursor and the record of its jail. */
  function Visited(s: System, w: Worker, j: JailId): System
    requires s.pool.size > 0
  {
    With(s, P.Refunded(s.pool), s.jails[j := JailRecord(Goroutine(w), P.NextUid(s.pool), Gone, 1)])
  }

  lemma EmptiedIsEnding(s: System, w: Worker, j: JailId)
    requires s.pool.size > 0 && CanWork(s, w) && P.Alloc(s.pool).1.Some?
    ensures var t := Goroutine(w);
      && Pcs(Started(s, w), t, Entry) && Started(s, w).pool == s.pool && Started(s, w).threads[t].defers == Base(t)
      && Emptied(Started(s, w), t, j) == SetThread(Started(Visited(s, w, j), w), t, Thread(Unwinding, Base(t)))
  {
    var a, b := Started(s, w), Started(Visited(s, w, j), w);
    assert a.pool == s.pool && a.jails == s.jails;
    assert b == With(a, b.pool, b.jails);
  }

  lemma WorksAgain(s: System, w: Worker, j: JailId)
    requires s.pool.size > 0 && CanWork(s, w) && P.Alloc(s.pool).1.Some?
    ensures CanWork(Visited(s, w, j), w) && Visited(s, w, j).pool.size == s.pool.size
  {}

  lemma StartReady(s: System, w: Worker)
    requires CanWork(s, w)
    ensures Pcs(Started(s, w), Goroutine(w), Entry) && Started(s, w).threads[Goroutine(w)].defers == Base(Goroutine(w))
    ensures Started(s, w).pool == s.pool && Started(s, w).jails == s.jails && Started(s, w).dirs == s.dirs
  {}

  lemma ReachVisited(s: System, w: Worker, j: JailId)
    requires s.pool.size > 0 && CanWork(s, w) && j !in s.jails && j !in s.dirs && P.Alloc(s.pool).1.Some?
    ensures Reaches(s, Visited(s, w, j))
  {
    var t := Goroutine(w);
    ReachStarted(s, w);
    StartReady(s, w);
    ReachEmptied(Started(s, w), t, j);
    ReachTrans(s, Started(s, w), Emptied(Started(s, w), t, j));
    EmptiedIsEnding(s, w, j);
    WorksAgain(s, w, j);
    WorkerEnds(Visited(s, w, j), w);
    ReachTrans(s, Emptied(Started(s, w), t, j), Visited(s, w, j));
  }

  /** s with only its pool's cursor moved and jails added. */
  ghost predicate OnlyVisits(s: System, u: System) {
    && u == With(s, s.pool.(next := u.pool.next), u.jails)
    && forall j | j in s.jails :: j in u.jails && u.jails[j] == s.jails[j]
  }

  /** By visit after visit the cursor comes round to a free uid. */
  lemma {:induction false} ComesRound(s: System, w: Worker, u: int) returns (v: System)
    requires Inv(s) && CanWork(s, w) && P.InRange(s.pool, u) && u !in s.pool.held
    ensures Reaches(s, v) && OnlyVisits(s, v) && Inv(v) && CanWork(v, w) && P.Alloc(v.pool).1 == Some(u)
    decreases P.Distance(s.pool, u)
  {
    P.AllocExact(s.pool);
    if P.Alloc(s.pool).1 == Some(u) {
      ReachSelf(s);
      v := s;
    } else {
      var j := FreshKey(s.jails);
      var x := Visited(s, w, j);
      P.RefundComesNearer(s.pool, u);
      ReachVisited(s, w, j);
      ReachInv(s, x);
      WorksAgain(s, w, j);
      v := ComesRound(x, w, u);
      ReachTrans(s, x, v);
    }
  }

  /** A worker is sure of a uid. */
  lemma WorkerAllocs(s: System, w: Worker, j: JailId)
    requires Inv(s) && CanWork(s, w) && j !in s.jails
    ensures P.Alloc(s.pool).1.Some?
  {
    ReachStarted(s, w);
    ReachInv(s, Started(s, w));
    StartReady(s, w);
    NewJailNeverStarves(Started(s, w), Goroutine(w), j);
  }

  /** A worker that finds the cursor at the uid of a directory still there makes a second one. */
  lemma SecondOwner(s: System, w: Worker, u: int, j: JailId) returns (v: System)
    requires Inv(s) && CanWork(s, w) && j in s.jails && j in s.dirs && s.jails[j].uid == u
    ensures Reaches(s, v) && (P.Alloc(s.pool).1 == Some(u) ==> Shared(v))
  {
    var k := FreshKey(s.jails);
    var s1 := Started(s, w);
    ReachStarted(s, w);
    WorkerAllocs(s, w, k);
    StartReady(s, w);
    v := Made(s1, Goroutine(w), k);
    ReachMade(s1, Goroutine(w), k);
    ReachTrans(s, s1, v);
    assert P.Alloc(s.pool).1 == Some(u) ==> SharedBy(v, j, k);
  }

  /** The uid of a paused worker is free again, and its directory is there. */
  lemma PausedFrees(s: System, t: Tid, j: JailId)
    requires P.Exact(s.pool) && t in s.threads
    ensures P.Alloc(s.pool).1.Some? ==>
      var u, v := P.NextUid(s.pool), Paused(s, t, j);
      P.InRange(v.pool, u) && u !in v.pool.held && j in v.jails && j in v.dirs && v.jails[j].uid == u
  {
    P.AllocExact(s.pool);
  }

  lemma SharesLater(s: System, w: Worker, u: int, j: JailId) returns (v: System)
    requires Inv(s) && CanWork(s, w) && P.InRange(s.pool, u) && u !in s.pool.held
    requires j in s.jails && j in s.dirs && s.jails[j].uid == u
    ensures Reaches(s, v) && Shared(v)
  {
    var x := ComesRound(s, w, u);
    v := SecondOwner(x, w, u, j);
    ReachTrans(s, x, v);
  }

  /** One worker pauses with its directory still there, and another comes and goes until it gets the uid. */
  lemma TwoWorkersShare(s: System, a: Worker, b: Worker, j: JailId) returns (v: System)
    requires Inv(s) && CanWork(s, a) && j !in s.jails
    ensures CanWork(Paused(Started(s, a), Goroutine(a), j), b) ==> Reaches(s, v) && Shared(v)
  {
    var t := Goroutine(a);
    WorkerAllocs(s, a, j);
    ReachStarted(s, a);
    StartReady(s, a);
    ReachPaused(Started(s, a), t, j);
    PausedFrees(Started(s, a), t, j);
    ReachTrans(s, Started(s, a), Paused(Started(s, a), t, j));
    ReachInv(s, Paused(Started(s, a), t, j));
    v := s;
    if CanWork(Paused(Started(s, a), t, j), b) {
      v := SharesLater(Paused(Started(s, a), t, j), b, P.NextUid(s.pool), j);
      ReachTrans(s, Paused(Started(s, a), t, j), v);
    }
  }

  lemma FreshServerAllocs(s: System)
    requires Inv(s) && s.pool.held == {}
    ensures P.Alloc(s.pool).1.Some?
  {
    P.AllocSucceedsBelowSize(s.pool);
  }

  /** Two requests at once. */
  lemma TwoRequestsShare(maxJobs: int, maxQueued: int, cpus: int, minUid: int) returns (v: System)
    requires maxJobs >= 2 && 1 <= cpus < P.MAX_INT && P.Exact(Init(maxJobs, maxQueued, cpus, minUid).pool)
    ensures Reaches(Init(maxJobs, maxQueued, cpus, minUid), v) && Shared(v)
  {
    var s := Init(maxJobs, maxQueued, cpus, minUid);
    InitInv(maxJobs, maxQueued, cpus, minUid);
    FreshServerAllocs(s);
    v := TwoWorkersShare(s, Handler(0, None), Handler(1, None), 0);
  }

  /** One request has its template and is in its parallel loop. */
  function Looping(s: System): System
    requires s.pool.size > 0
  {
    var u := Made(Started(s, Handler(0, Some(2))), Main(0), 0);
    SetPc(u, Main(0), FanOut)
  }

  lemma ReachLooping(s: System)
    requires s.pool.size > 0 && CanWork(s, Handler(0, Some(2))) && 0 !in s.jails && P.Alloc(s.pool).1.Some?
    ensures Reaches(s, Looping(s))
  {
    var w := Handler(0, Some(2));
    var s1 := Started(s, w);
    var u := Made(s1, Main(0), 0);
    ReachStarted(s, w);
    StartReady(s, w);
    ReachMade(s1, Main(0), 0);
    ReachTrans(s, s1, u);
    ReachStep(u, StartTests(0));
    ReachTrans(s, u, Looping(s));
  }

  lemma LoopWorks(s: System)
    requires s.pool.size > 0 && CanWork(s, Handler(0, Some(2))) && s.threads == map[] && s.cpus >= 2
    requires P.Alloc(s.pool).1.Some?
    ensures CanWork(Looping(s), TestOf(0, 0))
    ensures Looping(s).runs[0] == Run(Executing, 2, 0, 0) && Looping(s).jails.Keys == s.jails.Keys + {0}
    ensures Looping(s).threads.Keys == {Main(0)}
  {}

  /** While one test goroutine pauses there is a slot for another. */
  lemma SecondSlot(s: System, j: JailId)
    requires s.pool.size > 0 && CanWork(s, TestOf(0, 0)) && s.runs[0] == Run(Executing, 2, 0, 0)
    requires s.threads.Keys == {Main(0)}
    ensures CanWork(Paused(Started(s, TestOf(0, 0)), Test(0, 0), j), TestOf(0, 1))
  {}

  /** One request with two tests at once. */
  lemma TwoTestsShare(maxJobs: int, maxQueued: int, cpus: int, minUid: int) returns (v: System)
    requires maxJobs >= 1 && 2 <= cpus < P.MAX_INT && P.Exact(Init(maxJobs, maxQueued, cpus, minUid).pool)
    ensures Reaches(Init(maxJobs, maxQueued, cpus, minUid), v) && Shared(v)
  {
    var s := Init(maxJobs, maxQueued, cpus, minUid);
    InitInv(maxJobs, maxQueued, cpus, minUid);
    FreshServerAllocs(s);
    ReachLooping(s);
    ReachInv(s, Looping(s));
    LoopWorks(s);
    v := TestsShare(Looping(s));
    ReachTrans(s, Looping(s), v);
  }

  lemma TestsShare(s: System) returns (v: System)
    requires Inv(s) && CanWork(s, TestOf(0, 0)) && s.runs[0] == Run(Executing, 2, 0, 0) && s.threads.Keys == {Main(0)}
    requires 1 !in s.jails
    ensures Reaches(s, v) && Shared(v)
  {
    SecondSlot(s, 1);
    v := TwoWorkersShare(s, TestOf(0, 0), TestOf(0, 1), 1);
  }

  ghost predicate CanShare(s: System) { exists es :: Legal(s, es) && Shared(Exec(s, es)) }

  /** Two existing jail directories can belong to the same uid exactly on a server that can have two
      goroutines with jails at once: more than one job, or one job and more than one cpu. */
  lemma CanShareIff(maxJobs: int, maxQueued: int, cpus: int, minUid: int)
    requires 1 <= cpus < P.MAX_INT && P.Exact(Init(maxJobs, maxQueued, cpus, minUid).pool)
    ensures CanShare(Init(maxJobs, maxQueued, cpus, minUid)) <==> maxJobs >= 2 || (maxJobs == 1 && cpus >= 2)
  {
    var s := Init(maxJobs, maxQueued, cpus, minUid);
    if maxJobs >= 2 {
      var v := TwoRequestsShare(maxJobs, maxQueued, cpus, minUid);
      assert Reaches(s, v);
    } else if maxJobs == 1 && cpus >= 2 {
      var v := TwoTestsShare(maxJobs, maxQueued, cpus, minUid);
      assert Reaches(s, v);
    } else {
      InitInv(maxJobs, maxQueued, cpus, minUid);
      forall es | Legal(s, es) ensures !Shared(Exec(s, es)) {
        RunInv(s, es);
        ConfigFixed(s, es);
        NothingShared(Exec(s, es));
      }
    }
  }
}
