/** Requests, goroutines, jails and uids together: the admission gate, ExecuteRun with its test
    goroutines and their deferred calls, the jail life cycle and the uid pool composed into one
    transition system, with the in-flight metric that the shutdown drain polls. */
module Sandbox {
  import opened Common
  import G = AdmissionGate
  import P = UidPool

  type Caller = G.Caller
  type JailId = nat

  /** Where an admitted handler is: before and after the in-flight metric counts it, and before,
      inside and after ExecuteRun. */
  datatype Stage = Admitted | Counted | Executing | Finished | Uncounted

  /** `par` is the capacity of the request's semaphore, `sem` the slots taken of it, `wg` the counter
      of its wait group. */
  datatype Run = Run(stage: Stage, par: int, sem: int, wg: int)

  /** The goroutine inside ExecuteRun for request r, and the test goroutines it starts. */
  datatype Tid = Main(r: Caller) | Test(r: Caller, i: nat)

  datatype Deferred = WgDone | SemRelease | Teardown(j: JailId)

  /** Entry: before newJail. InNewJail: its uid is allocated. Failing: newJail cleans up after an error.
      Body: it has returned a jail. FanOut: the loop over the tests. Unwinding: returned, running the
      deferred calls from the last one down. */
  datatype Pc = Entry | InNewJail(j: JailId) | Failing(j: JailId) | Body | FanOut | Unwinding

  datatype Thread = Thread(pc: Pc, defers: seq<Deferred>)

  /** Bare: the uid is allocated, no jail object exists yet. Open: teardown has not run.
      Gone: the uid was given back. `releases` counts the calls of Release made for this jail. */
  datatype Phase = Bare | Open | Gone
  datatype JailRecord = JailRecord(owner: Tid, uid: int, phase: Phase, releases: nat)

  /** `dirs` are the jails whose directory exists; it is owned by the jail's uid. */
  datatype System = System(
    cpus: int, gate: G.State, pool: P.Pool, inFlight: int,
    runs: map<Caller, Run>, threads: map<Tid, Thread>, jails: map<JailId, JailRecord>, dirs: set<JailId>)

  datatype Event =
    | GateStep(e: G.Event, maxParallel: Option<int>)
    | CountUp(r: Caller)
    | Begin(r: Caller)
    | CallNewJail(t: Tid, j: JailId)
    | MakeDir(t: Tid)
    | JailFails(t: Tid)
    | CleanUp(t: Tid)
    | JailReady(t: Tid)
    | StartTests(r: Caller)
    | Spawn(r: Caller, i: nat)
    | Return(t: Tid)
    | RunDeferred(t: Tid)
    | CallTeardown(j: JailId)
    | Finish(r: Caller)
    | CountDown(r: Caller)

  /** The number of tests of one request that may run at once: the most that the request and the
      cpus both allow, and one if the request asks for none. */
  function EffectiveParallel(maxParallel: Option<int>, numCpu: int): (n: int)
    ensures n >= 1
    ensures numCpu >= 1 ==> n <= numCpu
    ensures n > 1 ==> maxParallel.Some? && n <= maxParallel.value
    ensures maxParallel.Some? && maxParallel.value >= 1 ==>
      n == maxParallel.value || (n == numCpu && n < maxParallel.value)
  {
    if maxParallel.Some? && maxParallel.value > 1 then
      if numCpu > 0 && maxParallel.value > numCpu then numCpu else maxParallel.value
    else 1
  }

  function Init(maxJobs: int, maxQueued: int, cpus: int, minUid: int): System
    requires cpus < P.MAX_INT
  {
    var n := P.UidBudget(maxJobs, cpus);
    System(cpus, G.Init(maxJobs, maxQueued), P.Pool(minUid, P.AtLeastOne(n), 0, {}), 0, map[], map[], map[], {})
  }

  // ---------------------------------------------------------------- the steps

  predicate At(s: System, r: Caller, g: Stage) { r in s.runs && s.runs[r].stage == g }

  predicate Pcs(s: System, t: Tid, pc: Pc) { t in s.threads && s.threads[t].pc == pc }

  /** Live: the uid is held. Present: it is, or the directory still exists. */
  predicate Live(s: System, j: JailId) { j in s.jails && s.jails[j].phase != Gone }

  predicate Present(s: System, j: JailId) { Live(s, j) || (j in s.jails && j in s.dirs) }

  /** The test loop is left when the tests are done: the wait group's counter is zero, if it was used. */
  predicate TestsDone(s: System, r: Caller) { r in s.runs && (s.runs[r].par > 1 ==> s.runs[r].wg == 0) }

  /** No step looks at who holds a uid: what a goroutine may do is decided by its program counter, its
      stack of deferred calls, the semaphore and the wait group. */
  predicate Enabled(s: System, e: Event) {
    match e
    case GateStep(g, _) => G.Enabled(s.gate, g) && (g.Release? ==> At(s, g.c, Uncounted))
    case CountUp(r) => At(s, r, Admitted)
    case Begin(r) => At(s, r, Counted)
    case CallNewJail(t, j) => Pcs(s, t, Entry) && j !in s.jails
    case MakeDir(t) => t in s.threads && s.threads[t].pc.InNewJail?
    case JailFails(t) => t in s.threads && s.threads[t].pc.InNewJail?
    case CleanUp(t) => t in s.threads && s.threads[t].pc.Failing?
    case JailReady(t) => t in s.threads && s.threads[t].pc.InNewJail? && s.threads[t].pc.j in s.dirs
    case StartTests(r) => Pcs(s, Main(r), Body)
    case Spawn(r, i) =>
      && Pcs(s, Main(r), FanOut) && Test(r, i) !in s.threads
      && r in s.runs && s.runs[r].par > 1 && s.runs[r].sem < s.runs[r].par
    case Return(t) => Pcs(s, t, Body) || (Pcs(s, t, FanOut) && TestsDone(s, t.r))
    case RunDeferred(t) => Pcs(s, t, Unwinding) && s.threads[t].defers != []
    case CallTeardown(j) => j in s.jails && s.jails[j].phase != Bare
    case Finish(r) => Pcs(s, Main(r), Unwinding) && s.threads[Main(r)].defers == []
    case CountDown(r) => At(s, r, Finished)
  }

  function SetStage(s: System, r: Caller, g: Stage): System {
    if r in s.runs then s.(runs := s.runs[r := s.runs[r].(stage := g)]) else s
  }

  function Adjust(s: System, r: Caller, sem: int, wg: int): System {
    if r in s.runs then s.(runs := s.runs[r := s.runs[r].(sem := s.runs[r].sem + sem, wg := s.runs[r].wg + wg)]) else s
  }

  function SetThread(s: System, t: Tid, th: Thread): System { s.(threads := s.threads[t := th]) }

  function SetPc(s: System, t: Tid, pc: Pc): System
    requires t in s.threads
  {
    SetThread(s, t, s.threads[t].(pc := pc))
  }

  function GiveBack(s: System, j: JailId): System {
    if j in s.jails then
      var jail := s.jails[j];
      s.(pool := P.Release(s.pool, jail.uid),
         jails := s.jails[j := jail.(phase := Gone, releases := jail.releases + 1)])
    else s
  }

  /** The next step of teardown: the uid is given back first, and the directory is removed after that.
      Each happens once, however often teardown is called. */
  function TornDown(s: System, j: JailId): System {
    if Live(s, j) then GiveBack(s, j) else s.(dirs := s.dirs - {j})
  }

  /** The last deferred call is taken off; a test goroutine is over when none is left. */
  function Popped(s: System, t: Tid): System
    requires t in s.threads && s.threads[t].defers != []
  {
    var d := s.threads[t].defers;
    if t.Test? && |d| == 1 then s.(threads := s.threads - {t})
    else SetThread(s, t, s.threads[t].(defers := d[..|d| - 1]))
  }

  /** What a deferred call does to the counters of its run when it has ended. */
  function Ended(s: System, r: Caller, d: Deferred): System {
    match d
    case WgDone => Adjust(s, r, 0, -1)
    case SemRelease => Adjust(s, r, -1, 0)
    case Teardown(_) => s
  }

  /** A teardown that has something left to do stays on the stack. */
  predicate UnderWay(s: System, d: Deferred) { d.Teardown? && Present(s, d.j) }

  function RunTop(s: System, t: Tid): System
    requires t in s.threads && s.threads[t].defers != []
  {
    var d := Top(s.threads[t]);
    if UnderWay(s, d) then TornDown(s, d.j) else Ended(Popped(s, t), t.r, d)
  }

  function Top(th: Thread): Deferred
    requires th.defers != []
  {
    th.defers[|th.defers| - 1]
  }

  /** newJail starts by taking a uid; without one it fails at once. */
  function Allocated(s: System, t: Tid, j: JailId): System
    requires t in s.threads && s.pool.size > 0
  {
    var (pool, uid) := P.Alloc(s.pool);
    if uid.None? then SetPc(s, t, Unwinding)
    else SetPc(s, t, InNewJail(j)).(pool := pool, jails := s.jails[j := JailRecord(t, uid.value, Bare, 0)])
  }

  function Materialized(s: System, t: Tid, j: JailId): System
    requires t in s.threads
  {
    var u := SetThread(s, t, Thread(Body, s.threads[t].defers + [Teardown(j)]));
    if j in s.jails then u.(jails := s.jails[j := s.jails[j].(phase := Open)]) else u
  }

  /** The runs after a gate step: a caller that becomes a holder starts a run, a release ends one. */
  function RunsAfter(s: System, g: G.Event, maxParallel: Option<int>): map<Caller, Run> {
    var gate := G.Apply(s.gate, g);
    if g.Release? then s.runs - {g.c}
    else if (g.Enter? || g.Wake?) && G.IsHolding(gate, g.c) && !G.IsHolding(s.gate, g.c) then
      s.runs[g.c := Run(Admitted, EffectiveParallel(maxParallel, s.cpus), 0, 0)]
    else s.runs
  }

  function Apply(s: System, e: Event): System
    requires Enabled(s, e) && s.pool.size > 0
  {
    match e
    case GateStep(g, maxParallel) => s.(gate := G.Apply(s.gate, g), runs := RunsAfter(s, g, maxParallel))
    case CountUp(r) => SetStage(s, r, Counted).(inFlight := s.inFlight + 1)
    case Begin(r) => SetThread(SetStage(s, r, Executing), Main(r), Thread(Entry, []))
    case CallNewJail(t, j) => Allocated(s, t, j)
    case MakeDir(t) => s.(dirs := s.dirs + {s.threads[t].pc.j})
    case JailFails(t) => SetPc(GiveBack(s, s.threads[t].pc.j), t, Failing(s.threads[t].pc.j))
    case CleanUp(t) =>
      if s.threads[t].pc.j in s.dirs then s.(dirs := s.dirs - {s.threads[t].pc.j}) else SetPc(s, t, Unwinding)
    case JailReady(t) => Materialized(s, t, s.threads[t].pc.j)
    case StartTests(r) => SetPc(s, Main(r), FanOut)
    case Spawn(r, i) => SetThread(Adjust(s, r, 1, 1), Test(r, i), Thread(Entry, [WgDone, SemRelease]))
    case Return(t) => SetPc(s, t, Unwinding)
    case RunDeferred(t) => RunTop(s, t)
    case CallTeardown(j) => TornDown(s, j)
    case Finish(r) => SetStage(s, r, Finished).(threads := s.threads - {Main(r)})
    case CountDown(r) => SetStage(s, r, Uncounted).(inFlight := s.inFlight - 1)
  }

  // ---------------------------------------------------------------- the invariant

  predicate IsCounted(g: Stage) { g == Counted || g == Executing || g == Finished }

  ghost function CountedRuns(runs: map<Caller, Run>): set<Caller> { set r | r in runs && IsCounted(runs[r].stage) }

  /** The runs are the gate's holders, and the metric counts those between its two updates. */
  ghost predicate RunsOk(s: System) {
    && s.runs.Keys == G.Holders(s.gate)
    && s.inFlight == |CountedRuns(s.runs)|
  }

  /** The calls a goroutine has deferred before it asks for a jail. */
  function Base(t: Tid): seq<Deferred> { if t.Test? then [WgDone, SemRelease] else [] }

  /** A jail's teardown is deferred last, above the release of the semaphore slot. */
  predicate Loaded(t: Tid, d: seq<Deferred>) {
    d != [] && d[|d| - 1].Teardown? && d == Base(t) + [d[|d| - 1]]
  }

  predicate StackOk(t: Tid, th: Thread) {
    match th.pc
    case Entry => th.defers == Base(t)
    case InNewJail(_) => th.defers == Base(t)
    case Failing(_) => th.defers == Base(t)
    case Body => Loaded(t, th.defers)
    case FanOut => t.Main? && Loaded(t, th.defers)
    case Unwinding => Loaded(t, th.defers) || th.defers == Base(t) || (t.Test? && th.defers == [WgDone])
  }

  /** A test goroutine exists only while ExecuteRun is in its parallel loop. */
  predicate ThreadOk(s: System, t: Tid) {
    t in s.threads ==>
      && StackOk(t, s.threads[t]) && At(s, t.r, Executing)
      && (t.Test? ==> Pcs(s, Main(t.r), FanOut) && s.runs[t.r].par > 1)
  }

  ghost predicate ThreadsOk(s: System) {
    && (forall t :: ThreadOk(s, t))
    && (forall r | At(s, r, Executing) :: Main(r) in s.threads)
  }

  ghost function Workers(threads: map<Tid, Thread>, r: Caller): set<Tid> { set t | t in threads && t.Test? && t.r == r }

  ghost function SlotHolders(threads: map<Tid, Thread>, r: Caller): set<Tid> {
    set t | t in threads && t.Test? && t.r == r && SemRelease in threads[t].defers
  }

  /** The semaphore counts the goroutines that have not released their slot, the wait group those that
      are not over. */
  ghost predicate CountersOk(s: System, r: Caller) {
    r in s.runs ==>
      && s.runs[r].sem == |SlotHolders(s.threads, r)| && s.runs[r].wg == |Workers(s.threads, r)|
      && s.runs[r].sem <= s.runs[r].par <= s.cpus
  }

  /** The goroutine is in the newJail call that makes j, or will tear j down next when it returns, or is
      doing so. */
  predicate Holds(th: Thread, jail: JailRecord, j: JailId) {
    match jail.phase
    case Bare => th.pc == InNewJail(j)
    case Open => th.defers != [] && Top(th) == Teardown(j)
    case Gone => th.pc == Failing(j) || (th.defers != [] && Top(th) == Teardown(j))
  }

  predicate JailOk(s: System, j: JailId) {
    j in s.jails ==>
      var jail := s.jails[j];
      && jail.releases == (if jail.phase == Gone then 1 else 0)
      && (jail.phase != Gone ==> jail.uid in s.pool.held)
      && (Present(s, j) ==> jail.owner in s.threads && Holds(s.threads[jail.owner], jail, j))
  }

  predicate RefersTo(s: System, t: Tid, j: JailId) { j in s.jails && s.jails[j].owner == t }

  /** What a goroutine refers to is its own. */
  predicate RefsOk(s: System, t: Tid) {
    t in s.threads ==>
      var th := s.threads[t];
      && (th.pc.InNewJail? ==> RefersTo(s, t, th.pc.j) && s.jails[th.pc.j].phase == Bare)
      && (th.pc.Failing? ==> RefersTo(s, t, th.pc.j) && s.jails[th.pc.j].phase == Gone)
      && (th.defers != [] && Top(th).Teardown? ==> RefersTo(s, t, Top(th).j) && s.jails[Top(th).j].phase != Bare)
  }

  ghost predicate DistinctUids(s: System) {
    forall j, k | Live(s, j) && Live(s, k) && j != k :: s.jails[j].uid != s.jails[k].uid
  }

  ghost predicate HeldByLive(s: System) { forall u | u in s.pool.held :: exists j :: Live(s, j) && s.jails[j].uid == u }

  ghost predicate JailsOk(s: System) {
    && (forall j :: JailOk(s, j)) && (forall t :: RefsOk(s, t))
    && DistinctUids(s) && HeldByLive(s) && s.dirs <= s.jails.Keys
  }

  /** The pool is the one UidBudget asks for, unsaturated, on a range that fits an int. */
  ghost predicate PoolOk(s: System) {
    && s.cpus >= 1
    && P.Exact(s.pool) && P.HeldInRange(s.pool)
    && s.pool.size == P.AtLeastOne(s.gate.maxJobs) * (s.cpus + 1)
  }

  ghost predicate Inv(s: System) {
    G.Inv(s.gate) && RunsOk(s) && ThreadsOk(s) && (forall r :: CountersOk(s, r)) && JailsOk(s) && PoolOk(s)
  }

  // ---------------------------------------------------------------- every step keeps it

  lemma InitInv(maxJobs: int, maxQueued: int, cpus: int, minUid: int)
    requires 1 <= cpus < P.MAX_INT
    requires P.Exact(Init(maxJobs, maxQueued, cpus, minUid).pool)
    ensures Inv(Init(maxJobs, maxQueued, cpus, minUid))
  {
    var s := Init(maxJobs, maxQueued, cpus, minUid);
    G.InitInv(maxJobs, maxQueued);
    EmptyOk(s);
  }

  lemma EmptyOk(s: System)
    requires s.gate.callers == map[] && s.runs == map[] && s.threads == map[] && s.jails == map[]
    requires s.inFlight == 0 && s.pool.held == {} && s.dirs == {}
    ensures RunsOk(s) && ThreadsOk(s) && (forall r :: CountersOk(s, r)) && JailsOk(s)
  {
    assert G.Holders(s.gate) == {} && CountedRuns(s.runs) == {};
  }

  lemma CountedAfter(runs: map<Caller, Run>, r: Caller, run: Run)
    ensures CountedRuns(runs[r := run]) ==
      if IsCounted(run.stage) then CountedRuns(runs) + {r} else CountedRuns(runs) - {r}
  {}

  lemma GateKeepsRuns(s: System, g: G.Event, mp: Option<int>)
    requires RunsOk(s) && s.pool.size > 0 && Enabled(s, GateStep(g, mp))
    ensures RunsOk(Apply(s, GateStep(g, mp)))
  {
    var t := Apply(s, GateStep(g, mp));
    G.HoldersMove(s.gate, g);
    if g.Enter? || g.Wake? {
      assert g.c !in G.Holders(s.gate);
      assert G.IsHolding(t.gate, g.c) <==> g.c in G.Holders(t.gate);
    }
    assert t.runs.Keys == G.Holders(t.gate);
    assert CountedRuns(t.runs) == CountedRuns(s.runs);
  }

  function Counts(run: Run): int { if IsCounted(run.stage) then 1 else 0 }

  /** The metric moves with the stage of the one run that a step changes. */
  lemma UpdateKeepsRuns(s: System, t: System, r: Caller)
    requires RunsOk(s) && OneRunMoves(s, t, r)
    ensures RunsOk(t)
  {
    var before, after := CountedRuns(s.runs), CountedRuns(t.runs);
    CountedAfter(s.runs, r, t.runs[r]);
    assert r in before <==> IsCounted(s.runs[r].stage);
    assert |after| == |before| + Counts(t.runs[r]) - Counts(s.runs[r]);
    assert t.runs.Keys == s.runs.Keys;
  }

  function RunOf(e: Event): Caller
    requires !e.GateStep? && !e.CallTeardown?
  {
    match e
    case CountUp(r) => r
    case Begin(r) => r
    case StartTests(r) => r
    case Spawn(r, _) => r
    case Finish(r) => r
    case CountDown(r) => r
    case CallNewJail(t, _) => t.r
    case MakeDir(t) => t.r
    case JailFails(t) => t.r
    case CleanUp(t) => t.r
    case JailReady(t) => t.r
    case Return(t) => t.r
    case RunDeferred(t) => t.r
  }

  /** The steps of newJail. */
  predicate IsJailStep(e: Event) { e.CallNewJail? || e.MakeDir? || e.JailFails? || e.CleanUp? || e.JailReady? }

  lemma StepKeepsRuns(s: System, e: Event)
    requires RunsOk(s) && ThreadsOk(s) && s.pool.size > 0 && Enabled(s, e)
    ensures RunsOk(Apply(s, e))
  {
    if e.GateStep? {
      GateKeepsRuns(s, e.e, e.maxParallel);
    } else if !e.CallTeardown? {
      StepMovesOneRun(s, e);
      UpdateKeepsRuns(s, Apply(s, e), RunOf(e));
    }
  }

  /** Every other step belongs to a run. */
  lemma HasRun(s: System, e: Event)
    requires ThreadsOk(s) && Enabled(s, e) && !e.GateStep? && !e.CallTeardown?
    ensures RunOf(e) in s.runs
  {
    var r := RunOf(e);
    assert ThreadOk(s, Main(r));
    if IsJailStep(e) || e.Return? || e.RunDeferred? { assert ThreadOk(s, e.t); }
  }

  ghost predicate OneRunMoves(s: System, t: System, r: Caller) {
    && r in s.runs && r in t.runs && t.gate == s.gate && t.runs == s.runs[r := t.runs[r]]
    && t.inFlight == s.inFlight + Counts(t.runs[r]) - Counts(s.runs[r])
  }

  lemma NoRunMoves(s: System, t: System, r: Caller)
    requires r in s.runs && t.gate == s.gate && t.runs == s.runs && t.inFlight == s.inFlight
    ensures OneRunMoves(s, t, r)
  {
    assert s.runs == s.runs[r := s.runs[r]];
  }

  lemma DeferredMovesOneRun(s: System, t: Tid)
    requires s.pool.size > 0 && Enabled(s, RunDeferred(t)) && t.r in s.runs
    ensures OneRunMoves(s, Apply(s, RunDeferred(t)), t.r)
  {
    var d := Top(s.threads[t]);
    var u := Popped(s, t);
    assert u.runs == s.runs && u.gate == s.gate && u.inFlight == s.inFlight;
    if d.Teardown? { NoRunMoves(s, RunTop(s, t), t.r); }
  }

  /** It changes no other run. */
  lemma StepMovesOneRun(s: System, e: Event)
    requires ThreadsOk(s) && s.pool.size > 0 && Enabled(s, e) && !e.GateStep? && !e.CallTeardown?
    ensures OneRunMoves(s, Apply(s, e), RunOf(e))
  {
    HasRun(s, e);
    match e
    case RunDeferred(t) => DeferredMovesOneRun(s, t);
    case CallNewJail(t, j) => NoRunMoves(s, Apply(s, e), t.r);
    case MakeDir(t) => NoRunMoves(s, Apply(s, e), t.r);
    case JailFails(t) => NoRunMoves(s, Apply(s, e), t.r);
    case CleanUp(t) => NoRunMoves(s, Apply(s, e), t.r);
    case JailReady(t) => NoRunMoves(s, Apply(s, e), t.r);
    case StartTests(r) => NoRunMoves(s, Apply(s, e), r);
    case Return(t) => NoRunMoves(s, Apply(s, e), t.r);
    case Spawn(r, i) =>
    case CountUp(r) =>
    case Begin(r) =>
    case Finish(r) => assert ThreadOk(s, Main(r));
    case CountDown(r) =>
  }

  // ---------------------------------------------------------------- goroutines and their stacks

  ghost predicate SameStages(s: System, u: System) {
    && u.runs.Keys == s.runs.Keys
    && forall r | r in s.runs :: u.runs[r].stage == s.runs[r].stage && u.runs[r].par == s.runs[r].par
  }

  ghost predicate SameButFor(s: System, u: System, t: Tid) {
    forall q | q != t :: (q in u.threads <==> q in s.threads) && (q in s.threads ==> u.threads[q] == s.threads[q])
  }

  /** One goroutine moves on. If it leaves the parallel loop, its tests must be over. */
  lemma ThreadMoves(s: System, u: System, t: Tid)
    requires ThreadsOk(s) && SameStages(s, u) && SameButFor(s, u, t)
    requires t in u.threads ==> StackOk(t, u.threads[t]) && At(s, t.r, Executing)
    requires t in u.threads && t.Test? ==> Pcs(s, Main(t.r), FanOut) && s.runs[t.r].par > 1
    requires t.Main? ==> t in u.threads
    requires t.Main? && Pcs(s, t, FanOut) && !Pcs(u, t, FanOut) ==> Workers(s.threads, t.r) == {}
    ensures ThreadsOk(u)
  {
    forall q ensures ThreadOk(u, q) {
      assert ThreadOk(s, q);
      if q in u.threads && q.Test? && t == Main(q.r) {
        if q in Workers(s.threads, t.r) { assert Workers(s.threads, t.r) != {}; }
      }
    }
  }

  lemma NoWorkers(s: System, r: Caller)
    requires ThreadsOk(s) && CountersOk(s, r) && TestsDone(s, r)
    ensures Workers(s.threads, r) == {}
  {
    if w :| w in Workers(s.threads, r) { assert ThreadOk(s, w); }
  }

  lemma GateKeepsThreads(s: System, g: G.Event, mp: Option<int>)
    requires RunsOk(s) && ThreadsOk(s) && s.pool.size > 0 && Enabled(s, GateStep(g, mp))
    ensures ThreadsOk(Apply(s, GateStep(g, mp)))
    ensures forall r | At(s, r, Executing) :: r in RunsAfter(s, g, mp) && RunsAfter(s, g, mp)[r] == s.runs[r]
  {
    var u := Apply(s, GateStep(g, mp));
    forall r | At(s, r, Executing) ensures r in u.runs && u.runs[r] == s.runs[r] {
      assert r in G.Holders(s.gate);
    }
    forall t ensures ThreadOk(u, t) { assert ThreadOk(s, t); }
  }

  lemma StageKeepsThreads(s: System, e: Event)
    requires ThreadsOk(s) && s.pool.size > 0 && Enabled(s, e)
    requires e.CountUp? || e.CountDown? || e.Begin? || e.Finish?
    ensures ThreadsOk(Apply(s, e))
  {
    var u := Apply(s, e);
    forall t ensures ThreadOk(u, t) {
      assert ThreadOk(s, t) && ThreadOk(s, Main(e.r));
    }
  }

  lemma PopKeepsStack(t: Tid, th: Thread)
    requires StackOk(t, th) && th.pc == Unwinding && th.defers != [] && !(t.Test? && |th.defers| == 1)
    ensures StackOk(t, th.(defers := th.defers[..|th.defers| - 1]))
  {
    var d := th.defers;
    if Loaded(t, d) { assert d[..|d| - 1] == Base(t); }
    if d == Base(t) && t.Test? { assert d[..|d| - 1] == [WgDone]; }
  }

  lemma PopKeepsThreads(s: System, t: Tid)
    requires ThreadsOk(s) && Enabled(s, RunDeferred(t))
    ensures ThreadsOk(Popped(s, t))
  {
    assert ThreadOk(s, t);
    if !(t.Test? && |s.threads[t].defers| == 1) { PopKeepsStack(t, s.threads[t]); }
    ThreadMoves(s, Popped(s, t), t);
  }

  lemma SameThreads(s: System, u: System)
    requires ThreadsOk(s) && u.threads == s.threads && SameStages(s, u)
    ensures ThreadsOk(u)
  {
    forall t ensures ThreadOk(u, t) { assert ThreadOk(s, t); }
  }

  lemma DeferredKeepsThreads(s: System, t: Tid)
    requires ThreadsOk(s) && s.pool.size > 0 && Enabled(s, RunDeferred(t))
    ensures ThreadsOk(Apply(s, RunDeferred(t)))
  {
    if UnderWay(s, Top(s.threads[t])) {
      SameThreads(s, RunTop(s, t));
    } else {
      PopKeepsThreads(s, t);
      SameThreads(Popped(s, t), RunTop(s, t));
    }
  }

  lemma JailStepKeepsThreads(s: System, e: Event)
    requires ThreadsOk(s) && s.pool.size > 0 && Enabled(s, e) && IsJailStep(e)
    ensures ThreadsOk(Apply(s, e))
  {
    assert ThreadOk(s, e.t);
    ThreadMoves(s, Apply(s, e), e.t);
  }

  /** ExecuteRun goes on from its loop only when the wait group lets it. */
  lemma BodyStepKeepsThreads(s: System, e: Event)
    requires ThreadsOk(s) && (forall r :: CountersOk(s, r)) && s.pool.size > 0 && Enabled(s, e)
    requires e.Spawn? || e.StartTests? || e.Return?
    ensures ThreadsOk(Apply(s, e))
  {
    var t := match e case Spawn(r, i) => Test(r, i) case StartTests(r) => Main(r) case Return(t) => t;
    assert ThreadOk(s, t) && ThreadOk(s, Main(t.r));
    if e.Return? && Pcs(s, t, FanOut) { NoWorkers(s, t.r); }
    ThreadMoves(s, Apply(s, e), t);
  }

  lemma StepKeepsThreads(s: System, e: Event)
    requires RunsOk(s) && ThreadsOk(s) && (forall r :: CountersOk(s, r)) && s.pool.size > 0 && Enabled(s, e)
    ensures ThreadsOk(Apply(s, e))
  {
    if e.GateStep? {
      GateKeepsThreads(s, e.e, e.maxParallel);
    } else if e.CountUp? || e.CountDown? || e.Begin? || e.Finish? {
      StageKeepsThreads(s, e);
    } else if e.RunDeferred? {
      DeferredKeepsThreads(s, e.t);
    } else if e.CallTeardown? {
      SameThreads(s, Apply(s, e));
    } else if IsJailStep(e) {
      JailStepKeepsThreads(s, e);
    } else {
      BodyStepKeepsThreads(s, e);
    }
  }

  // ---------------------------------------------------------------- semaphore and wait group

  function Work(s: System, t: Tid): int { if t in s.threads && t.Test? then 1 else 0 }

  function Slot(s: System, t: Tid): int {
    if t in s.threads && t.Test? && SemRelease in s.threads[t].defers then 1 else 0
  }

  lemma WorkersMove(s: System, u: System, t: Tid, r: Caller)
    requires SameButFor(s, u, t)
    ensures |Workers(u.threads, r)| == |Workers(s.threads, r)| + (if t.r == r then Work(u, t) - Work(s, t) else 0)
  {
    SizeMoves(Workers(s.threads, r), Workers(u.threads, r), t);
  }

  lemma SlotsMove(s: System, u: System, t: Tid, r: Caller)
    requires SameButFor(s, u, t)
    ensures |SlotHolders(u.threads, r)| ==
      |SlotHolders(s.threads, r)| + (if t.r == r then Slot(u, t) - Slot(s, t) else 0)
  {
    SizeMoves(SlotHolders(s.threads, r), SlotHolders(u.threads, r), t);
  }

  /** What a step does to the two counters is what it does to the goroutine's stack. */
  ghost predicate Balanced(s: System, u: System, t: Tid) {
    && u.cpus == s.cpus && SameButFor(s, u, t) && u.runs.Keys == s.runs.Keys
    && (forall r | r in s.runs && r != t.r :: u.runs[r].(stage := s.runs[r].stage) == s.runs[r])
    && (t.r in s.runs ==>
          && u.runs[t.r].par == s.runs[t.r].par
          && u.runs[t.r].sem == s.runs[t.r].sem + Slot(u, t) - Slot(s, t)
          && u.runs[t.r].wg == s.runs[t.r].wg + Work(u, t) - Work(s, t)
          && u.runs[t.r].sem <= u.runs[t.r].par)
  }

  lemma BalancedKeepsCounters(s: System, u: System, t: Tid, r: Caller)
    requires CountersOk(s, r) && Balanced(s, u, t)
    ensures CountersOk(u, r)
  {
    WorkersMove(s, u, t, r);
    SlotsMove(s, u, t, r);
  }

  /** The goroutine a step moves; any will do if it moves none. */
  function Mover(e: Event): Tid {
    match e
    case Begin(r) => Main(r)
    case StartTests(r) => Main(r)
    case Finish(r) => Main(r)
    case CountUp(r) => Main(r)
    case CountDown(r) => Main(r)
    case Spawn(r, i) => Test(r, i)
    case CallNewJail(t, _) => t
    case MakeDir(t) => t
    case JailFails(t) => t
    case CleanUp(t) => t
    case JailReady(t) => t
    case Return(t) => t
    case RunDeferred(t) => t
    case _ => Main(0)
  }

  lemma SlotLeaves(s: System, t: Tid)
    requires ThreadOk(s, t) && Enabled(s, RunDeferred(t))
    ensures var u := Popped(s, t);
      var d := Top(s.threads[t]);
      && Slot(u, t) == Slot(s, t) - (if d == SemRelease then 1 else 0)
      && Work(u, t) == Work(s, t) - (if d == WgDone then 1 else 0)
  {
    var d := s.threads[t].defers;
    if t.Test? {
      TestStack(t, s.threads[t]);
      assert |d| > 1 ==> d[1] == SemRelease;
      assert |d| == 3 ==> d[..2] == [WgDone, SemRelease] && d[..2][1] == SemRelease;
      assert |d| == 2 ==> d[..1] == [WgDone];
    }
  }

  lemma TestStack(t: Tid, th: Thread)
    requires t.Test? && StackOk(t, th) && th.pc == Unwinding
    ensures 1 <= |th.defers| <= 3 && th.defers[0] == WgDone
    ensures |th.defers| > 1 ==> th.defers[1] == SemRelease
    ensures |th.defers| == 3 ==> th.defers[2].Teardown?
  {}

  /** A step that leaves the runs alone and this goroutine in its role. */
  lemma QuietBalanced(s: System, u: System, t: Tid)
    requires CountersOk(s, t.r) && u.cpus == s.cpus && u.runs == s.runs && SameButFor(s, u, t)
    requires Slot(u, t) == Slot(s, t) && Work(u, t) == Work(s, t)
    ensures Balanced(s, u, t)
  {}

  lemma AdjustBalanced(s: System, u: System, t: Tid, sem: int, wg: int)
    requires CountersOk(s, t.r) && t.r in s.runs && s.runs[t.r].sem + sem <= s.runs[t.r].par
    requires u.cpus == s.cpus && u.runs == Adjust(s, t.r, sem, wg).runs && SameButFor(s, u, t)
    requires Slot(u, t) == Slot(s, t) + sem && Work(u, t) == Work(s, t) + wg
    ensures Balanced(s, u, t)
  {}

  lemma DeferredBalanced(s: System, t: Tid)
    requires ThreadOk(s, t) && CountersOk(s, t.r) && s.pool.size > 0 && Enabled(s, RunDeferred(t))
    ensures Balanced(s, Apply(s, RunDeferred(t)), t)
  {
    var u, d := RunTop(s, t), Top(s.threads[t]);
    if UnderWay(s, d) {
      QuietBalanced(s, u, t);
    } else {
      SlotLeaves(s, t);
      assert u.threads == Popped(s, t).threads;
      match d
      case Teardown(_) => QuietBalanced(s, u, t);
      case SemRelease => AdjustBalanced(s, u, t, -1, 0);
      case WgDone => AdjustBalanced(s, u, t, 0, -1);
    }
  }

  lemma JailStepBalanced(s: System, e: Event)
    requires CountersOk(s, Mover(e).r) && s.pool.size > 0 && Enabled(s, e) && IsJailStep(e)
    ensures Balanced(s, Apply(s, e), Mover(e))
  {
    var t, u := e.t, Apply(s, e);
    if e.JailReady? { SlotKept(s.threads[t].defers, s.threads[t].pc.j); }
    QuietBalanced(s, u, t);
  }

  lemma SlotKept(d: seq<Deferred>, j: JailId)
    ensures SemRelease in d + [Teardown(j)] <==> SemRelease in d
  {}

  lemma StageBalanced(s: System, e: Event)
    requires CountersOk(s, Mover(e).r) && s.pool.size > 0 && Enabled(s, e)
    requires e.CountUp? || e.CountDown? || e.Begin? || e.Finish?
    ensures Balanced(s, Apply(s, e), Mover(e))
  {}

  lemma BodyStepBalanced(s: System, e: Event)
    requires CountersOk(s, Mover(e).r) && s.pool.size > 0 && Enabled(s, e)
    requires e.Spawn? || e.StartTests? || e.Return? || e.CallTeardown?
    ensures Balanced(s, Apply(s, e), Mover(e))
  {
    if e.Spawn? {
      AdjustBalanced(s, Apply(s, e), Mover(e), 1, 1);
    } else {
      QuietBalanced(s, Apply(s, e), Mover(e));
    }
  }

  lemma StepBalanced(s: System, e: Event)
    requires ThreadsOk(s) && (forall r :: CountersOk(s, r)) && s.pool.size > 0 && Enabled(s, e) && !e.GateStep?
    ensures Balanced(s, Apply(s, e), Mover(e))
  {
    var t := Mover(e);
    assert ThreadOk(s, t) && CountersOk(s, t.r);
    if e.RunDeferred? {
      DeferredBalanced(s, t);
    } else if IsJailStep(e) {
      JailStepBalanced(s, e);
    } else if e.CountUp? || e.CountDown? || e.Begin? || e.Finish? {
      StageBalanced(s, e);
    } else {
      BodyStepBalanced(s, e);
    }
  }

  lemma GateKeepsCounters(s: System, g: G.Event, mp: Option<int>, r: Caller)
    requires RunsOk(s) && ThreadsOk(s) && CountersOk(s, r) && s.cpus >= 1 && s.pool.size > 0
    requires Enabled(s, GateStep(g, mp))
    ensures CountersOk(Apply(s, GateStep(g, mp)), r)
  {
    if (g.Enter? || g.Wake?) && r == g.c && G.IsHolding(G.Apply(s.gate, g), r) {
      assert r !in G.Holders(s.gate);
      NoThreads(s, r);
    }
  }

  lemma NoThreads(s: System, r: Caller)
    requires ThreadsOk(s) && !At(s, r, Executing)
    ensures Workers(s.threads, r) == {} == SlotHolders(s.threads, r) && forall t | t in s.threads :: t.r != r
  {
    forall t | t in s.threads ensures t.r != r { assert ThreadOk(s, t); }
  }

  lemma StepKeepsCounters(s: System, e: Event, r: Caller)
    requires RunsOk(s) && ThreadsOk(s) && (forall q :: CountersOk(s, q)) && s.cpus >= 1 && s.pool.size > 0
    requires Enabled(s, e)
    ensures CountersOk(Apply(s, e), r)
  {
    if e.GateStep? {
      GateKeepsCounters(s, e.e, e.maxParallel, r);
    } else {
      StepBalanced(s, e);
      BalancedKeepsCounters(s, Apply(s, e), Mover(e), r);
    }
  }

  // ---------------------------------------------------------------- jails and uids

  /** The invariant of the jails, but for what goroutine t refers to. */
  ghost predicate JailsOkBut(s: System, t: Tid) {
    && (forall j :: JailOk(s, j)) && (forall q | q != t :: RefsOk(s, q))
    && DistinctUids(s) && HeldByLive(s) && s.dirs <= s.jails.Keys
  }

  /** One goroutine moves on and keeps hold of its jail, if it has one. */
  lemma ThreadMovesJails(s: System, u: System, t: Tid)
    requires JailsOkBut(s, t) && SameButFor(s, u, t) && u.jails == s.jails && u.pool == s.pool && u.dirs == s.dirs
    requires forall j | Present(s, j) && s.jails[j].owner == t :: t in u.threads && Holds(u.threads[t], s.jails[j], j)
    requires RefsOk(u, t)
    ensures JailsOk(u)
  {
    forall j ensures Live(u, j) <==> Live(s, j) {}
    forall j ensures JailOk(u, j) { assert JailOk(s, j) && (Present(u, j) <==> Present(s, j)); }
    forall q ensures RefsOk(u, q) { assert q != t ==> RefsOk(s, q); }
    SameLive(s, u);
  }

  lemma SameLive(s: System, u: System)
    requires HeldByLive(s) && u.pool.held == s.pool.held && u.jails.Keys == s.jails.Keys
    requires forall j | j in s.jails :: u.jails[j].uid == s.jails[j].uid && (Live(u, j) <==> Live(s, j))
    ensures HeldByLive(u)
  {
    forall v | v in u.pool.held ensures exists j :: Live(u, j) && u.jails[j].uid == v {
      var j :| Live(s, j) && s.jails[j].uid == v;
      assert Live(u, j);
    }
  }

  /** A goroutine that is not in newJail and has no teardown on top of its stack has no jail. */
  lemma HoldsNone(s: System, t: Tid, j: JailId)
    requires JailOk(s, j) && Present(s, j)
    requires t in s.threads ==>
      && !s.threads[t].pc.InNewJail? && !s.threads[t].pc.Failing?
      && (s.threads[t].defers == [] || !Top(s.threads[t]).Teardown?)
    ensures s.jails[j].owner != t
  {}

  /** Giving back a live jail's uid frees that uid and no other, and leaves its directory to the same
      goroutine. */
  lemma GiveBackKeepsJails(s: System, j: JailId)
    requires JailsOk(s) && PoolOk(s) && Live(s, j)
    ensures GiveBack(s, j).pool.held == s.pool.held - {s.jails[j].uid}
    ensures forall k | k != j :: JailOk(GiveBack(s, j), k)
    ensures forall t | t != s.jails[j].owner :: RefsOk(GiveBack(s, j), t)
    ensures DistinctUids(GiveBack(s, j)) && HeldByLive(GiveBack(s, j))
    ensures s.jails[j].phase == Open ==> JailsOk(GiveBack(s, j))
  {
    var u := GiveBack(s, j);
    assert JailOk(s, j);
    assert P.InRange(s.pool, s.jails[j].uid);
    assert u.pool.held == s.pool.held - {s.jails[j].uid};
    forall k | k != j || s.jails[j].phase == Open ensures JailOk(u, k) { GivenBackJail(s, j, k); }
    forall k | Live(u, k) ensures Live(s, k) && k != j && u.jails[k] == s.jails[k] {}
    forall t | t != s.jails[j].owner || s.jails[j].phase == Open ensures RefsOk(u, t) { assert RefsOk(s, t); }
    GivenBackHeld(s, j);
  }

  lemma GivenBackJail(s: System, j: JailId, k: JailId)
    requires JailsOk(s) && Live(s, j) && (k != j || s.jails[j].phase == Open)
    requires GiveBack(s, j).pool.held == s.pool.held - {s.jails[j].uid}
    ensures JailOk(GiveBack(s, j), k)
  {
    assert JailOk(s, k) && JailOk(s, j);
    if k != j && Live(s, k) { assert s.jails[k].uid != s.jails[j].uid; }
  }

  lemma GivenBackHeld(s: System, j: JailId)
    requires HeldByLive(s) && DistinctUids(s) && Live(s, j) && P.Exact(s.pool) && P.InRange(s.pool, s.jails[j].uid)
    ensures HeldByLive(GiveBack(s, j))
  {
    var u := GiveBack(s, j);
    forall v | v in u.pool.held ensures exists k :: Live(u, k) && u.jails[k].uid == v {
      var k :| Live(s, k) && s.jails[k].uid == v;
      assert k != j && Live(u, k);
    }
  }

  /** A directory is removed only after the uid is given back; nothing else changes. */
  lemma RemoveKeepsJails(s: System, j: JailId)
    requires JailsOk(s) && !Live(s, j)
    ensures JailsOk(s.(dirs := s.dirs - {j}))
  {
    var u := s.(dirs := s.dirs - {j});
    forall k ensures JailOk(u, k) { assert JailOk(s, k); }
    forall t ensures RefsOk(u, t) { assert RefsOk(s, t); }
    SameLive(s, u);
  }

  lemma TeardownKeepsJails(s: System, j: JailId)
    requires JailsOk(s) && PoolOk(s) && j in s.jails && s.jails[j].phase != Bare
    ensures JailsOk(TornDown(s, j))
  {
    if Live(s, j) { GiveBackKeepsJails(s, j); } else { RemoveKeepsJails(s, j); }
  }

  lemma AllocHeld(s: System, t: Tid, j: JailId)
    requires HeldByLive(s) && P.Exact(s.pool) && t in s.threads && j !in s.jails
    ensures HeldByLive(Allocated(s, t, j))
  {
    P.AllocExact(s.pool);
    var u, uid := Allocated(s, t, j), P.Alloc(s.pool).1;
    if uid.None? {
      SameLive(s, u);
    } else {
      forall v | v in u.pool.held ensures exists k :: Live(u, k) && u.jails[k].uid == v {
        if v == uid.value {
          assert Live(u, j);
        } else {
          var k :| Live(s, k) && s.jails[k].uid == v;
          assert Live(u, k);
        }
      }
    }
  }

  lemma AllocGivesOneJail(s: System, t: Tid, j: JailId, uid: int)
    requires JailsOk(s) && Enabled(s, CallNewJail(t, j)) && StackOk(t, s.threads[t])
    requires s.pool.size > 0 && P.Alloc(s.pool).1 == Some(uid)
    requires P.Alloc(s.pool).0.held == s.pool.held + {uid}
    requires forall k | Present(s, k) :: s.jails[k].owner != t
    ensures forall k :: JailOk(Allocated(s, t, j), k)
    ensures forall q :: RefsOk(Allocated(s, t, j), q)
  {
    var u := Allocated(s, t, j);
    forall k ensures JailOk(u, k) { assert JailOk(s, k) && (k != j && Present(u, k) ==> Present(s, k)); }
    forall q ensures RefsOk(u, q) { assert RefsOk(s, q); }
  }

  /** A new jail gets a uid that no live jail has. */
  lemma NewJailKeepsJails(s: System, t: Tid, j: JailId)
    requires ThreadsOk(s) && JailsOk(s) && PoolOk(s) && Enabled(s, CallNewJail(t, j))
    ensures JailsOk(Allocated(s, t, j))
  {
    P.AllocExact(s.pool);
    var u := Allocated(s, t, j);
    assert ThreadOk(s, t) && RefsOk(s, t);
    forall k | Present(s, k) ensures s.jails[k].owner != t {
      assert JailOk(s, k);
      HoldsNone(s, t, k);
    }
    if P.Alloc(s.pool).1.None? {
      ThreadMovesJails(s, u, t);
    } else {
      var uid := P.Alloc(s.pool).1.value;
      AllocGivesOneJail(s, t, j, uid);
      forall k | Live(u, k) ensures k == j || (Live(s, k) && u.jails[k] == s.jails[k] && s.jails[k].uid != uid) {
        assert JailOk(s, k);
      }
      AllocHeld(s, t, j);
    }
  }

  lemma MakeDirKeepsJails(s: System, t: Tid)
    requires JailsOk(s) && s.pool.size > 0 && Enabled(s, MakeDir(t))
    ensures JailsOk(Apply(s, MakeDir(t)))
  {
    var u, j := Apply(s, MakeDir(t)), s.threads[t].pc.j;
    assert RefsOk(s, t) && JailOk(s, j);
    forall k ensures JailOk(u, k) { assert JailOk(s, k) && (Present(u, k) <==> Present(s, k)); }
    forall q ensures RefsOk(u, q) { assert RefsOk(s, q); }
    SameLive(s, u);
  }

  lemma FailKeepsJails(s: System, t: Tid)
    requires ThreadsOk(s) && JailsOk(s) && PoolOk(s) && Enabled(s, JailFails(t))
    ensures JailsOk(Apply(s, JailFails(t)))
  {
    var j := s.threads[t].pc.j;
    assert ThreadOk(s, t) && RefsOk(s, t) && JailOk(s, j);
    GiveBackKeepsJails(s, j);
    var v, u := GiveBack(s, j), Apply(s, JailFails(t));
    forall k ensures JailOk(u, k) {
      assert k != j ==> JailOk(v, k);
      if k != j && Present(s, k) { OwnedByOne(s, t, j, k); }
    }
    forall q ensures RefsOk(u, q) { assert q != t ==> RefsOk(v, q); }
    SameLive(v, u);
  }

  /** While a goroutine is in newJail it has no other jail. */
  lemma OwnedByOne(s: System, t: Tid, j: JailId, k: JailId)
    requires t in s.threads && StackOk(t, s.threads[t]) && s.threads[t].pc == InNewJail(j)
    requires JailOk(s, k) && Present(s, k) && k != j
    ensures s.jails[k].owner != t
  {}

  lemma CleanUpKeepsJails(s: System, t: Tid)
    requires ThreadsOk(s) && JailsOk(s) && s.pool.size > 0 && Enabled(s, CleanUp(t))
    ensures JailsOk(Apply(s, CleanUp(t)))
  {
    var u, j := Apply(s, CleanUp(t)), s.threads[t].pc.j;
    assert ThreadOk(s, t) && RefsOk(s, t);
    if j in s.dirs {
      RemoveKeepsJails(s, j);
    } else {
      forall k | Present(s, k) ensures s.jails[k].owner != t { assert JailOk(s, k); }
      ThreadMovesJails(s, u, t);
    }
  }

  lemma ReadyKeepsJails(s: System, t: Tid)
    requires ThreadsOk(s) && JailsOk(s) && s.pool.size > 0 && Enabled(s, JailReady(t))
    ensures JailsOk(Apply(s, JailReady(t)))
  {
    var u, j := Apply(s, JailReady(t)), s.threads[t].pc.j;
    assert ThreadOk(s, t) && RefsOk(s, t) && JailOk(s, j);
    assert Top(u.threads[t]) == Teardown(j);
    forall k ensures Live(u, k) <==> Live(s, k) {}
    forall k ensures JailOk(u, k) {
      assert JailOk(s, k);
      if k != j && Present(s, k) { OwnedByOne(s, t, j, k); }
    }
    forall q ensures RefsOk(u, q) { assert RefsOk(s, q); }
    SameLive(s, u);
  }

  lemma PoppedTop(t: Tid, th: Thread)
    requires StackOk(t, th) && th.pc == Unwinding && |th.defers| > 1
    ensures !th.defers[|th.defers| - 2].Teardown?
  {}

  lemma PopKeepsJails(s: System, t: Tid)
    requires ThreadsOk(s) && JailsOk(s) && Enabled(s, RunDeferred(t)) && !UnderWay(s, Top(s.threads[t]))
    ensures JailsOk(Popped(s, t))
  {
    var th := s.threads[t];
    assert ThreadOk(s, t);
    if |th.defers| > 1 { PoppedTop(t, th); }
    forall k | Present(s, k) ensures s.jails[k].owner != t { assert JailOk(s, k); }
    ThreadMovesJails(s, Popped(s, t), t);
  }

  lemma SameJails(s: System, u: System)
    requires JailsOk(s) && u.threads == s.threads && u.jails == s.jails && u.pool == s.pool && u.dirs == s.dirs
    ensures JailsOk(u)
  {
    assert RefsOk(s, Main(0));
    forall j | Present(s, j) ensures JailOk(s, j) {}
    ThreadMovesJails(s, u, Main(0));
  }

  lemma DeferredKeepsJails(s: System, t: Tid)
    requires ThreadsOk(s) && JailsOk(s) && PoolOk(s) && Enabled(s, RunDeferred(t))
    ensures JailsOk(Apply(s, RunDeferred(t)))
  {
    var d := Top(s.threads[t]);
    if UnderWay(s, d) {
      assert RefsOk(s, t);
      TeardownKeepsJails(s, d.j);
    } else {
      PopKeepsJails(s, t);
      SameJails(Popped(s, t), Apply(s, RunDeferred(t)));
    }
  }

  lemma BodyStepKeepsJails(s: System, e: Event)
    requires ThreadsOk(s) && JailsOk(s) && s.pool.size > 0 && Enabled(s, e)
    requires e.Begin? || e.StartTests? || e.Spawn? || e.Return? || e.Finish?
    ensures JailsOk(Apply(s, e))
  {
    var u, t := Apply(s, e), Mover(e);
    assert ThreadOk(s, t) && RefsOk(s, t);
    forall j | Present(s, j) && s.jails[j].owner == t ensures t in u.threads && Holds(u.threads[t], s.jails[j], j) {
      assert JailOk(s, j);
    }
    ThreadMovesJails(s, u, t);
  }

  lemma StepKeepsJails(s: System, e: Event)
    requires Inv(s) && Enabled(s, e)
    ensures JailsOk(Apply(s, e))
  {
    match e
    case CallNewJail(t, j) => NewJailKeepsJails(s, t, j);
    case MakeDir(t) => MakeDirKeepsJails(s, t);
    case JailFails(t) => FailKeepsJails(s, t);
    case CleanUp(t) => CleanUpKeepsJails(s, t);
    case JailReady(t) => ReadyKeepsJails(s, t);
    case RunDeferred(t) => DeferredKeepsJails(s, t);
    case CallTeardown(j) => TeardownKeepsJails(s, j);
    case GateStep(_, _) => SameJails(s, Apply(s, e));
    case CountUp(_) => SameJails(s, Apply(s, e));
    case CountDown(_) => SameJails(s, Apply(s, e));
    case _ => BodyStepKeepsJails(s, e);
  }

  ghost predicate SamePool(s: System, u: System) {
    u.cpus == s.cpus && u.pool == s.pool && u.gate.maxJobs == s.gate.maxJobs
  }

  lemma SamePoolOk(s: System, u: System)
    requires PoolOk(s) && SamePool(s, u)
    ensures PoolOk(u)
  {}

  lemma AllocKeepsPool(s: System, t: Tid, j: JailId)
    requires PoolOk(s) && t in s.threads
    ensures PoolOk(Allocated(s, t, j))
  {
    P.AllocExact(s.pool);
  }

  lemma ReleaseKeepsPool(s: System, j: JailId)
    requires PoolOk(s)
    ensures PoolOk(GiveBack(s, j)) && PoolOk(TornDown(s, j))
  {}

  lemma StepKeepsPool(s: System, e: Event)
    requires PoolOk(s) && Enabled(s, e)
    ensures PoolOk(Apply(s, e))
  {
    var u := Apply(s, e);
    match e
    case CallNewJail(t, j) => AllocKeepsPool(s, t, j);
    case JailFails(t) =>
      ReleaseKeepsPool(s, s.threads[t].pc.j);
      SamePoolOk(GiveBack(s, s.threads[t].pc.j), u);
    case CallTeardown(j) => ReleaseKeepsPool(s, j);
    case RunDeferred(t) =>
      var d := Top(s.threads[t]);
      if UnderWay(s, d) { ReleaseKeepsPool(s, d.j); } else { SamePoolOk(s, u); }
    case _ => SamePoolOk(s, u);
  }

  lemma StepKeepsGate(s: System, e: Event)
    requires G.Inv(s.gate) && s.pool.size > 0 && Enabled(s, e)
    ensures G.Inv(Apply(s, e).gate)
  {
    if e.GateStep? { G.StepInv(s.gate, e.e); }
  }

  lemma StepInv(s: System, e: Event)
    requires Inv(s) && Enabled(s, e)
    ensures Inv(Apply(s, e))
  {
    StepKeepsGate(s, e);
    StepKeepsRuns(s, e);
    StepKeepsThreads(s, e);
    forall r ensures CountersOk(Apply(s, e), r) { StepKeepsCounters(s, e, r); }
    StepKeepsJails(s, e);
    StepKeepsPool(s, e);
  }

  ghost predicate Legal(s: System, es: seq<Event>)
    decreases |es|
  {
    es == [] || (s.pool.size > 0 && Enabled(s, es[0]) && Legal(Apply(s, es[0]), es[1..]))
  }

  ghost function Exec(s: System, es: seq<Event>): System
    requires Legal(s, es)
    decreases |es|
  {
    if es == [] then s else Exec(Apply(s, es[0]), es[1..])
  }

  lemma {:induction false} RunInv(s: System, es: seq<Event>)
    requires Inv(s) && Legal(s, es)
    ensures Inv(Exec(s, es))
    decreases |es|
  {
    if es != [] {
      StepInv(s, es[0]);
      RunInv(Apply(s, es[0]), es[1..]);
    }
  }

  // ---------------------------------------------------------------- what the order of defers earns

  /** A test jail that is still there is being made or cleaned up by newJail, or its teardown lies above
      the release of the semaphore slot, which lies above the wait group's count. */
  lemma TestJailGuarded(s: System, j: JailId)
    requires Inv(s) && Present(s, j) && s.jails[j].owner.Test?
    ensures s.jails[j].owner in s.threads
    ensures var th := s.threads[s.jails[j].owner];
      th.defers ==
        if th.pc.InNewJail? || th.pc.Failing? then [WgDone, SemRelease] else [WgDone, SemRelease, Teardown(j)]
  {
    var t := s.jails[j].owner;
    assert JailOk(s, j) && ThreadOk(s, t) && RefsOk(s, t);
  }

  /** The wait group reads zero only when nothing of a test jail of the request is left. */
  lemma WaitGroupGuardsTestJails(s: System, r: Caller)
    requires Inv(s) && r in s.runs && s.runs[r].wg == 0
    ensures forall j | Present(s, j) && s.jails[j].owner.r == r :: s.jails[j].owner == Main(r)
  {
    assert CountersOk(s, r);
    forall j | Present(s, j) && s.jails[j].owner.r == r ensures s.jails[j].owner == Main(r) {
      assert JailOk(s, j);
      assert s.jails[j].owner !in Workers(s.threads, r);
    }
  }

  /** When ExecuteRun can return, nothing of its template or its test jails is left. */
  lemma ReturnsWithoutJails(s: System, r: Caller)
    requires Inv(s) && Enabled(s, Finish(r))
    ensures forall j | Present(s, j) :: s.jails[j].owner.r != r
  {
    forall j | Present(s, j) ensures s.jails[j].owner.r != r {
      var t := s.jails[j].owner;
      assert JailOk(s, j) && ThreadOk(s, t);
    }
  }

  /** When a request is not inside ExecuteRun, each jail it ever made gave its uid back exactly once and
      has no directory; and a server with no admitted request holds no uid and has no jail directory. */
  lemma LeavesNothingBehind(s: System, r: Caller)
    requires Inv(s) && !At(s, r, Executing)
    ensures forall j | j in s.jails && s.jails[j].owner.r == r :: s.jails[j].releases == 1 && j !in s.dirs
    ensures s.runs == map[] ==> s.pool.held == {} && s.dirs == {}
  {
    NoThreads(s, r);
    forall j | j in s.jails && s.jails[j].owner.r == r ensures s.jails[j].releases == 1 && j !in s.dirs {
      assert JailOk(s, j);
    }
    if s.runs == map[] { NoneExecuting(s); }
  }

  /** A goroutine that is not waiting for others can take its next step. */
  lemma ThreadCanMove(s: System, t: Tid) returns (e: Event)
    requires Inv(s) && t in s.threads && s.threads[t].pc != FanOut
    ensures Enabled(s, e) && !e.GateStep? && !e.CallTeardown? && RunOf(e) == t.r
  {
    assert ThreadOk(s, t);
    match s.threads[t].pc
    case Entry =>
      var j := FreshKey(s.jails);
      e := CallNewJail(t, j);
    case InNewJail(_) => e := JailFails(t);
    case Failing(_) => e := CleanUp(t);
    case Body => e := Return(t);
    case Unwinding => e := if s.threads[t].defers == [] then Finish(t.r) else RunDeferred(t);
  }

  /** A run inside ExecuteRun is never stuck: its own goroutine can move, or it waits for a test
      goroutine that can. */
  lemma RunNeverStuck(s: System, r: Caller) returns (e: Event)
    requires Inv(s) && At(s, r, Executing)
    ensures Enabled(s, e) && !e.GateStep? && !e.CallTeardown? && RunOf(e) == r
  {
    assert ThreadOk(s, Main(r)) && CountersOk(s, r);
    if !Pcs(s, Main(r), FanOut) {
      e := ThreadCanMove(s, Main(r));
    } else if TestsDone(s, r) {
      e := Return(Main(r));
    } else {
      assert Workers(s.threads, r) != {};
      var t :| t in Workers(s.threads, r);
      assert ThreadOk(s, t);
      e := ThreadCanMove(s, t);
    }
  }

  // ---------------------------------------------------------------- the pool is large enough

  /** The goroutines of a run that may hold a jail: the one inside ExecuteRun and those with a slot of
      the semaphore. */
  ghost function RunSeats(threads: map<Tid, Thread>, r: Caller): set<Tid> { {Main(r)} + SlotHolders(threads, r) }

  ghost function AllSeats(threads: map<Tid, Thread>, rs: set<Caller>): set<Tid> {
    set r, t | r in rs && t in RunSeats(threads, r) :: t
  }

  ghost function LiveJails(s: System): set<JailId> { set j | j in s.jails && Live(s, j) }

  ghost function Owners(jails: map<JailId, JailRecord>, live: set<JailId>): set<Tid>
    requires live <= jails.Keys
  {
    set j | j in live :: jails[j].owner
  }

  ghost function Uids(jails: map<JailId, JailRecord>, live: set<JailId>): set<int>
    requires live <= jails.Keys
  {
    set j | j in live :: jails[j].uid
  }

  lemma UnionSize<T>(a: set<T>, b: set<T>)
    ensures |a + b| <= |a| + |b|
  {
    assert a + b == a + (b - a);
    SubsetSize(b - a, b);
  }

  /** n * k, by repeated addition. */
  function Times(n: nat, k: int): int { if n == 0 then 0 else Times(n - 1, k) + k }

  lemma TimesIsProduct(n: nat, k: int)
    ensures Times(n, k) == n * k
  {
    if n > 0 {
      TimesIsProduct(n - 1, k);
      assert n * k == (n - 1) * k + k;
    }
  }

  lemma SeatsWithout(threads: map<Tid, Thread>, rs: set<Caller>, r: Caller)
    requires r in rs
    ensures AllSeats(threads, rs) == AllSeats(threads, rs - {r}) + RunSeats(threads, r)
  {
    var rest := rs - {r};
    forall t | t in AllSeats(threads, rs) ensures t in AllSeats(threads, rest) + RunSeats(threads, r) {
      var q :| q in rs && t in RunSeats(threads, q);
      if q != r { assert q in rest; }
    }
    forall t | t in AllSeats(threads, rest) ensures t in AllSeats(threads, rs) {
      var q :| q in rest && t in RunSeats(threads, q);
      assert q in rs;
    }
  }

  lemma SeatsStep(threads: map<Tid, Thread>, rs: set<Caller>, r: Caller)
    requires r in rs
    ensures |AllSeats(threads, rs)| <= |AllSeats(threads, rs - {r})| + 1 + |SlotHolders(threads, r)|
  {
    SeatsWithout(threads, rs, r);
    UnionSize(AllSeats(threads, rs - {r}), RunSeats(threads, r));
    UnionSize({Main(r)}, SlotHolders(threads, r));
  }

  lemma NoSeats(threads: map<Tid, Thread>)
    ensures |AllSeats(threads, {})| == 0
  {
    assert AllSeats(threads, {}) == {};
  }

  /** One seat for the template and one per slot of the semaphore, for each run. */
  lemma {:induction false} SeatsBound(threads: map<Tid, Thread>, rs: set<Caller>, cpus: int)
    requires forall r | r in rs :: |SlotHolders(threads, r)| <= cpus
    ensures |AllSeats(threads, rs)| <= Times(|rs|, cpus + 1)
    decreases |rs|
  {
    if rs == {} {
      NoSeats(threads);
    } else {
      var r :| r in rs;
      SeatsStep(threads, rs, r);
      SeatsBound(threads, rs - {r}, cpus);
    }
  }

  /** Jails with different owners hold no more uids than they have owners. */
  lemma {:induction false} UidsPerOwner(jails: map<JailId, JailRecord>, live: set<JailId>)
    requires live <= jails.Keys
    requires forall j, k | j in live && k in live && j != k :: jails[j].owner != jails[k].owner
    ensures |Uids(jails, live)| <= |Owners(jails, live)|
    decreases |live|
  {
    if live != {} {
      var j :| j in live;
      var rest := live - {j};
      UidsPerOwner(jails, rest);
      assert Uids(jails, live) == Uids(jails, rest) + {jails[j].uid};
      assert Owners(jails, live) == Owners(jails, rest) + {jails[j].owner};
      assert jails[j].owner !in Owners(jails, rest);
    }
  }

  /** A goroutine has at most one jail, counting one that it is tearing down. */
  lemma OneJailEach(s: System, j: JailId, k: JailId)
    requires Inv(s) && Present(s, j) && Present(s, k) && s.jails[j].owner == s.jails[k].owner
    ensures j == k
  {
    var t := s.jails[j].owner;
    assert JailOk(s, j) && JailOk(s, k) && ThreadOk(s, t);
  }

  lemma HeldPerOwner(s: System)
    requires Inv(s)
    ensures |s.pool.held| <= |Owners(s.jails, LiveJails(s))|
  {
    var live := LiveJails(s);
    forall u | u in s.pool.held ensures u in Uids(s.jails, live) {
      var j :| Live(s, j) && s.jails[j].uid == u;
      assert j in live;
    }
    forall j, k | j in live && k in live && j != k ensures s.jails[j].owner != s.jails[k].owner {
      if s.jails[j].owner == s.jails[k].owner { OneJailEach(s, j, k); }
    }
    UidsPerOwner(s.jails, live);
    SubsetSize(s.pool.held, Uids(s.jails, live));
  }

  /** A goroutine with a live jail still has its slot of the semaphore: the teardown comes first. */
  lemma OwnerHasSeat(s: System, j: JailId)
    requires Inv(s) && Live(s, j)
    ensures s.jails[j].owner in AllSeats(s.threads, s.runs.Keys)
  {
    var t := s.jails[j].owner;
    assert JailOk(s, j) && ThreadOk(s, t);
    if t.Test? {
      TestJailGuarded(s, j);
      assert s.threads[t].defers[1] == SemRelease;
    }
    assert t in RunSeats(s.threads, t.r);
  }

  lemma Monotone(a: int, b: int, k: int)
    requires 0 <= a <= b && k >= 0
    ensures a * k <= b * k
  {}

  /** There are never more seats than uids in the pool. */
  lemma SeatsFitPool(s: System)
    requires Inv(s)
    ensures |AllSeats(s.threads, s.runs.Keys)| <= s.pool.size
  {
    forall r | r in s.runs.Keys ensures |SlotHolders(s.threads, r)| <= s.cpus { assert CountersOk(s, r); }
    assert |s.runs.Keys| == s.gate.inFlight;
    SeatsBound(s.threads, s.runs.Keys, s.cpus);
    TimesIsProduct(|s.runs.Keys|, s.cpus + 1);
    Monotone(|s.runs.Keys|, P.AtLeastOne(s.gate.maxJobs), s.cpus + 1);
  }

  /** A goroutine that asks for a jail has a seat and no jail yet. */
  lemma AskerHasFreeSeat(s: System, t: Tid)
    requires Inv(s) && Pcs(s, t, Entry)
    ensures t in AllSeats(s.threads, s.runs.Keys) && t !in Owners(s.jails, LiveJails(s))
  {
    assert ThreadOk(s, t);
    if t.Test? { assert s.threads[t].defers[1] == SemRelease; }
    assert t in RunSeats(s.threads, t.r);
    forall j | j in LiveJails(s) ensures s.jails[j].owner != t {
      assert JailOk(s, j);
      HoldsNone(s, t, j);
    }
  }

  /** An allocation made inside an admitted run always succeeds. */
  lemma NewJailNeverStarves(s: System, t: Tid, j: JailId)
    requires Inv(s) && Enabled(s, CallNewJail(t, j))
    ensures P.Alloc(s.pool).1.Some?
  {
    var owners, seats := Owners(s.jails, LiveJails(s)), AllSeats(s.threads, s.runs.Keys);
    HeldPerOwner(s);
    AskerHasFreeSeat(s, t);
    forall k | k in LiveJails(s) ensures s.jails[k].owner in seats { OwnerHasSeat(s, k); }
    SubsetSize(owners + {t}, seats);
    SeatsFitPool(s);
    P.AllocSucceedsBelowSize(s.pool);
  }

  /** Whatever the interleaving of gate, goroutine, jail and pool steps, the pool never refuses a
      jail: for every configuration whose range arithmetic is exact. */
  lemma PoolNeverExhausted(maxJobs: int, maxQueued: int, cpus: int, minUid: int, es: seq<Event>, t: Tid, j: JailId)
    requires 1 <= cpus < P.MAX_INT && P.Exact(Init(maxJobs, maxQueued, cpus, minUid).pool)
    requires Legal(Init(maxJobs, maxQueued, cpus, minUid), es)
    requires Enabled(Exec(Init(maxJobs, maxQueued, cpus, minUid), es), CallNewJail(t, j))
    ensures var s := Exec(Init(maxJobs, maxQueued, cpus, minUid), es); s.pool.size > 0 && P.Alloc(s.pool).1.Some?
  {
    InitInv(maxJobs, maxQueued, cpus, minUid);
    RunInv(Init(maxJobs, maxQueued, cpus, minUid), es);
    NewJailNeverStarves(Exec(Init(maxJobs, maxQueued, cpus, minUid), es), t, j);
  }

  // ---------------------------------------------------------------- ownership of uids

  /** The jail a step makes, completes or gives back. */
  function Touched(s: System, e: Event): Option<JailId>
    requires Enabled(s, e)
  {
    match e
    case CallNewJail(_, j) => Some(j)
    case JailFails(t) => Some(s.threads[t].pc.j)
    case JailReady(t) => Some(s.threads[t].pc.j)
    case CallTeardown(j) => Some(j)
    case RunDeferred(t) => if Top(s.threads[t]).Teardown? then Some(Top(s.threads[t]).j) else None
    case _ => None
  }

  predicate Releases(s: System, e: Event, k: JailId)
    requires Enabled(s, e)
  {
    Touched(s, e) == Some(k) && !e.CallNewJail? && !e.JailReady?
  }

  lemma OtherJailsSame(s: System, e: Event, k: JailId)
    requires s.pool.size > 0 && Enabled(s, e) && k in s.jails && Touched(s, e) != Some(k)
    ensures k in Apply(s, e).jails && Apply(s, e).jails[k] == s.jails[k]
  {
    if e.RunDeferred? { assert Popped(s, e.t).jails == s.jails; }
  }

  lemma StaysLive(s: System, e: Event, k: JailId)
    requires Inv(s) && Enabled(s, e) && Live(s, k) && !Releases(s, e, k)
    ensures Live(Apply(s, e), k) && Apply(s, e).jails[k].uid == s.jails[k].uid
  {
    if Touched(s, e) != Some(k) { OtherJailsSame(s, e, k); }
  }

  /** No step takes a uid away from a live jail, except that jail's own release. */
  lemma OthersKeepTheirUid(s: System, e: Event, k: JailId)
    requires Inv(s) && Enabled(s, e) && Live(s, k) && !Releases(s, e, k)
    ensures var u := Apply(s, e);
      Live(u, k) && u.jails[k].uid == s.jails[k].uid && s.jails[k].uid in u.pool.held && u.jails[k].releases == 0
  {
    StepInv(s, e);
    StaysLive(s, e, k);
    assert JailOk(Apply(s, e), k);
  }

  ghost predicate SameJail(s: System, u: System, j: JailId)
    requires j in s.jails
  {
    && j in u.jails && u.jails[j].owner == s.jails[j].owner && u.jails[j].uid == s.jails[j].uid
    && (s.jails[j].phase == Gone ==> u.jails[j] == s.jails[j])
  }

  lemma TornSame(s: System, j: JailId)
    requires j in s.jails
    ensures SameJail(s, TornDown(s, j), j)
  {}

  lemma TouchedSame(s: System, e: Event, j: JailId)
    requires Inv(s) && Enabled(s, e) && j in s.jails && Touched(s, e) == Some(j)
    ensures SameJail(s, Apply(s, e), j)
  {
    match e
    case CallTeardown(_) => TornSame(s, j);
    case RunDeferred(t) => if UnderWay(s, Top(s.threads[t])) { TornSame(s, j); }
    case JailFails(t) => assert RefsOk(s, t);
    case JailReady(t) => assert RefsOk(s, t);
  }

  lemma JailStep(s: System, e: Event, j: JailId)
    requires Inv(s) && Enabled(s, e) && j in s.jails
    ensures SameJail(s, Apply(s, e), j)
  {
    if Touched(s, e) == Some(j) { TouchedSame(s, e, j); } else { OtherJailsSame(s, e, j); }
  }

  /** A jail keeps its owner and uid for ever, and once its uid is given back nothing done to that
      jail changes anything, whoever holds the uid by then. */
  lemma {:induction false} JailHistory(s: System, es: seq<Event>, j: JailId)
    requires Inv(s) && Legal(s, es) && j in s.jails
    ensures SameJail(s, Exec(s, es), j) && Exec(s, es).jails[j].releases <= 1
    decreases |es|
  {
    assert JailOk(s, j);
    if es != [] {
      StepInv(s, es[0]);
      JailStep(s, es[0], j);
      JailHistory(Apply(s, es[0]), es[1..], j);
    }
  }

  // ---------------------------------------------------------------- the shutdown sweep

  function Rank(g: Stage): nat {
    match g
    case Admitted => 0
    case Counted => 1
    case Executing => 2
    case Finished => 3
    case Uncounted => 4
  }

  ghost predicate Advanced(s: System, u: System) {
    forall r | r in u.runs :: r in s.runs && Rank(s.runs[r].stage) <= Rank(u.runs[r].stage)
  }

  lemma StoppedGateAdvances(s: System, g: G.Event, mp: Option<int>)
    requires Inv(s) && s.gate.stopped && Enabled(s, GateStep(g, mp))
    ensures var u := Apply(s, GateStep(g, mp)); u.gate.stopped && Advanced(s, u)
  {
    G.StoppedStep(s.gate, g);
    GateKeepsRuns(s, g, mp);
    assert Apply(s, GateStep(g, mp)).runs.Keys <= s.runs.Keys;
  }

  /** After Stop no run appears, and the remaining ones only move forward. */
  lemma StoppedRunsAdvance(s: System, e: Event)
    requires Inv(s) && s.gate.stopped && Enabled(s, e)
    ensures Apply(s, e).gate.stopped && Advanced(s, Apply(s, e))
  {
    if e.GateStep? {
      StoppedGateAdvances(s, e.e, e.maxParallel);
    } else if !e.CallTeardown? {
      StepMovesOneRun(s, e);
      StageForward(s, e);
    }
  }

  lemma StageForward(s: System, e: Event)
    requires ThreadsOk(s) && s.pool.size > 0 && Enabled(s, e) && !e.GateStep? && !e.CallTeardown?
    requires OneRunMoves(s, Apply(s, e), RunOf(e))
    ensures Rank(s.runs[RunOf(e)].stage) <= Rank(Apply(s, e).runs[RunOf(e)].stage)
  {
    if e.RunDeferred? {
      assert Popped(s, e.t).runs == s.runs;
    } else if e.Finish? {
      assert ThreadOk(s, Main(e.r));
    }
  }

  lemma {:induction false} StoppedRunsAdvanceFar(s: System, es: seq<Event>)
    requires Inv(s) && s.gate.stopped && Legal(s, es)
    ensures Advanced(s, Exec(s, es))
    decreases |es|
  {
    if es != [] {
      StepInv(s, es[0]);
      StoppedRunsAdvance(s, es[0]);
      StoppedRunsAdvanceFar(Apply(s, es[0]), es[1..]);
    }
  }

  ghost predicate NoJailLeft(s: System) { (forall j :: !Present(s, j)) && s.pool.held == {} && s.dirs == {} }

  lemma NoneExecuting(s: System)
    requires Inv(s) && forall r :: !At(s, r, Executing)
    ensures NoJailLeft(s)
  {
    forall t ensures t !in s.threads { assert ThreadOk(s, t); }
    forall j ensures !Present(s, j) { assert JailOk(s, j); }
    forall j ensures !Live(s, j) && j !in s.dirs { assert !Present(s, j); }
    assert forall u :: u !in s.pool.held;
  }

  /** When the in-flight metric reads zero no handler is inside ExecuteRun and no jail is live. */
  lemma ZeroMeansNoLiveJail(s: System)
    requires Inv(s) && s.inFlight == 0
    ensures forall r | r in s.runs :: s.runs[r].stage == Admitted || s.runs[r].stage == Uncounted
    ensures NoJailLeft(s)
  {
    forall r | r in s.runs ensures !IsCounted(s.runs[r].stage) {
      assert r !in CountedRuns(s.runs);
    }
    NoneExecuting(s);
  }

  /** With no handler caught between its admission and its being counted, the server stays empty. */
  lemma DrainedForGood(s: System, es: seq<Event>)
    requires Inv(s) && s.gate.stopped && s.inFlight == 0 && (forall r :: !At(s, r, Admitted)) && Legal(s, es)
    ensures NoJailLeft(Exec(s, es))
  {
    ZeroMeansNoLiveJail(s);
    RunInv(s, es);
    StoppedRunsAdvanceFar(s, es);
    var u := Exec(s, es);
    forall r ensures !At(u, r, Executing) { assert r in u.runs ==> !At(s, r, Admitted); }
    NoneExecuting(u);
  }

  lemma ExecTwo(s: System, e: Event, f: Event)
    requires s.pool.size > 0 && Enabled(s, e) && Apply(s, e).pool.size > 0 && Enabled(Apply(s, e), f)
    ensures Legal(s, [e, f]) && Exec(s, [e, f]) == Apply(Apply(s, e), f)
  {
    var t := Apply(s, e);
    assert [e, f][1..] == [f] && [f][1..] == [];
    assert Legal(Apply(t, f), []) && Exec(Apply(t, f), []) == Apply(t, f);
    assert Legal(t, [f]) && Exec(t, [f]) == Apply(t, f);
  }

  ghost predicate CanStillExecute(s: System) {
    exists es, r :: Legal(s, es) && At(Exec(s, es), r, Executing)
  }

  lemma AdmittedCanExecute(s: System, r: Caller)
    requires s.pool.size > 0 && At(s, r, Admitted)
    ensures CanStillExecute(s)
  {
    ExecTwo(s, CountUp(r), Begin(r));
    assert At(Exec(s, [CountUp(r), Begin(r)]), r, Executing);
  }

  /** After Stop, a zero reading is final exactly when no handler was caught between its admission
      and its being counted: only such a handler can still enter ExecuteRun. */
  lemma ZeroIsFinalIffNoneUncounted(s: System)
    requires Inv(s) && s.gate.stopped && s.inFlight == 0
    ensures CanStillExecute(s) <==> exists r :: At(s, r, Admitted)
  {
    ZeroMeansNoLiveJail(s);
    if CanStillExecute(s) {
      var es, r :| Legal(s, es) && At(Exec(s, es), r, Executing);
      StoppedRunsAdvanceFar(s, es);
      assert At(s, r, Admitted);
    }
    if r :| At(s, r, Admitted) { AdmittedCanExecute(s, r); }
  }

  /** The window exists: a caller admitted just before Stop leaves a zero reading that is not final, on
      every server with a slot. */
  lemma ZeroNeedNotBeFinal(maxJobs: int, maxQueued: int, cpus: int, minUid: int, c: Caller)
    requires maxJobs >= 1 && cpus < P.MAX_INT
    ensures var s, es := Init(maxJobs, maxQueued, cpus, minUid), [GateStep(G.Enter(c), None), GateStep(G.Stop, None)];
      Legal(s, es) && Exec(s, es).gate.stopped && Exec(s, es).inFlight == 0 && CanStillExecute(Exec(s, es))
  {
    var s := Init(maxJobs, maxQueued, cpus, minUid);
    var e, f := GateStep(G.Enter(c), None), GateStep(G.Stop, None);
    ExecTwo(s, e, f);
    AdmittedCanExecute(Exec(s, [e, f]), c);
  }

  datatype DrainResult = Drained | GaveUp | StillPolling

  /** Reading i of the poll is the metric after at[i] steps of the run. */
  ghost predicate ReadsRun(s: System, es: seq<Event>, at: seq<nat>, readings: seq<int>) {
    && Legal(s, es) && |at| == |readings|
    && forall i | 0 <= i < |at| ::
      at[i] <= |es| && Legal(s, es[..at[i]]) && readings[i] == Exec(s, es[..at[i]]).inFlight
  }

  /** No jail is left, nor will be after any further run, unless a handler is admitted but uncounted. */
  ghost predicate Swept(s: System) {
    && NoJailLeft(s)
    && ((forall c :: !At(s, c, Admitted)) ==> forall more | Legal(s, more) :: NoJailLeft(Exec(s, more)))
  }

  /** The poll loop; reading i is taken before the clock check i. */
  method PollReadings(readings: seq<int>, pastDeadline: seq<bool>) returns (r: DrainResult, polls: nat)
    requires |pastDeadline| == |readings|
    ensures polls <= |readings|
    ensures forall i | 0 <= i < polls :: readings[i] > 0
    ensures r == Drained ==> polls < |readings| && readings[polls] <= 0 && forall i | 0 <= i < polls :: !pastDeadline[i]
    ensures r == GaveUp ==> polls > 0 && pastDeadline[polls - 1] && forall i | 0 <= i < polls - 1 :: !pastDeadline[i]
    ensures r == StillPolling ==> polls == |readings| && forall i | 0 <= i < polls :: !pastDeadline[i]
  {
    polls := 0;
    while polls < |readings|
      invariant polls <= |readings|
      invariant forall i | 0 <= i < polls :: readings[i] > 0 && !pastDeadline[i]
    {
      if !(readings[polls] > 0) { return Drained, polls; }
      if pastDeadline[polls] { return GaveUp, polls + 1; }
      polls := polls + 1;
    }
    r := StillPolling;
  }

  /** The drain poll over a run of the stopped server. When it reports a drained server, no jail is left
      at that reading, nor at any later moment unless a handler was then admitted but not yet counted. */
  method WaitForDrain(readings: seq<int>, pastDeadline: seq<bool>, ghost s: System, ghost es: seq<Event>,
      ghost at: seq<nat>)
    returns (r: DrainResult, polls: nat)
    requires |pastDeadline| == |readings|
    requires Inv(s) && s.gate.stopped && ReadsRun(s, es, at, readings)
    ensures polls <= |readings|
    ensures forall i | 0 <= i < polls :: readings[i] > 0
    ensures r == Drained ==> polls < |readings| && readings[polls] == 0 && Swept(Exec(s, es[..at[polls]]))
    ensures r == GaveUp ==> polls > 0 && pastDeadline[polls - 1]
    ensures r == StillPolling ==> polls == |readings| && forall i | 0 <= i < polls :: !pastDeadline[i]
  {
    r, polls := PollReadings(readings, pastDeadline);
    if r == Drained { DrainedAt(s, es[..at[polls]]); }
  }

  lemma DrainedAt(s: System, es: seq<Event>)
    requires Inv(s) && s.gate.stopped && Legal(s, es) && Exec(s, es).inFlight <= 0
    ensures Exec(s, es).inFlight == 0 && Swept(Exec(s, es))
  {
    var u := Exec(s, es);
    RunInv(s, es);
    StaysStopped(s, es);
    ZeroMeansNoLiveJail(u);
    if forall c :: !At(u, c, Admitted) {
      forall more | Legal(u, more) ensures NoJailLeft(Exec(u, more)) { DrainedForGood(u, more); }
    }
  }

  lemma {:induction false} StaysStopped(s: System, es: seq<Event>)
    requires Inv(s) && s.gate.stopped && Legal(s, es)
    ensures Exec(s, es).gate.stopped
    decreases |es|
  {
    if es != [] {
      StepInv(s, es[0]);
      StoppedRunsAdvance(s, es[0]);
      StaysStopped(Apply(s, es[0]), es[1..]);
    }
  }
}
