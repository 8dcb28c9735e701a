/** From exec outcomes to the delivered response: the status of one test, the results of
    ExecuteRun, and what HandleRun writes and records after admission. */
module Response {
  import opened Common
  import opened Text
  import G = AdmissionGate
  import S = Sandbox

  /** Unset is the zero value, which is not a valid status. */
  datatype Status =
    | Unset | Accepted | BuildFailed | InternalError | RuntimeError | TimeExceeded | MemoryExceeded
    | WrongOutput | WhitespaceMismatch | NotExecuted | Cancelled | CpuTimeExceeded
  {
    predicate Valid() { this != Unset }
  }

  datatype BuildStatus = NoBuild | BuildOk | BuildBroken | BuildInternal
  {
    predicate Valid() { this != NoBuild }
  }

  // ---------------------------------------------------------------- the request context

  datatype CtxErr = Live | Canceled | DeadlineExceeded

  /** The client goes away at logical time `cancelAt`, if at all. From then on the context is
      cancelled: a cancellation is never taken back. */
  datatype Context = Context(cancelAt: Option<nat>)
  {
    predicate Done(t: nat) { cancelAt.Some? && cancelAt.value <= t }

    /** The error, at time t, of a child context with its own deadline: the first of the two wins. */
    function Child(deadline: nat, t: nat): CtxErr {
      if Done(t) && cancelAt.value <= deadline then Canceled
      else if deadline <= t then DeadlineExceeded
      else Live
    }
  }

  // ---------------------------------------------------------------- the status of one test

  datatype ProcessState = NoProcess | Signaled(sig: int) | Exited(code: int)

  const SIGABRT := 6
  const SIGKILL := 9
  const SIGSEGV := 11
  const SIGXCPU := 24

  function SignalReason(ps: ProcessState): Status {
    match ps
    case NoProcess => Unset
    case Exited(code) => if code == 128 + SIGXCPU then CpuTimeExceeded else Unset
    case Signaled(sig) =>
      if sig == SIGKILL then TimeExceeded
      else if sig == SIGSEGV || sig == SIGABRT then MemoryExceeded
      else if sig == SIGXCPU then CpuTimeExceeded
      else RuntimeError
  }

  datatype Cpu = Cpu(limitUS: int, timeUS: int, killed: bool)

  /** `err` is the text of the exec error, if there was one. */
  datatype Outcome = Outcome(
    infra: bool, err: Option<string>, stdout: string, ps: ProcessState, oomKilled: bool, cpu: Cpu)

  function TestStatus(ctx: CtxErr, o: Outcome, expected: string): Status {
    if ctx == Canceled then Cancelled
    else if o.oomKilled then MemoryExceeded
    else if o.cpu.killed || (o.err.Some? && SignalReason(o.ps) == CpuTimeExceeded) then CpuTimeExceeded
    else if ctx == DeadlineExceeded then TimeExceeded
    else if o.err.Some? then
      if SignalReason(o.ps) != Unset then SignalReason(o.ps)
      else if Index(o.err.value, "exit status 137") >= 0 then
        if o.cpu.limitUS > 0 && o.cpu.timeUS >= o.cpu.limitUS then CpuTimeExceeded else TimeExceeded
      else RuntimeError
    else if expected == "" || o.stdout == expected then Accepted
    else if TrimSpace(o.stdout) == TrimSpace(expected) then WhitespaceMismatch
    else WrongOutput
  }

  /** The exec ended well: nothing killed it and it reported no error. */
  predicate CleanRun(ctx: CtxErr, o: Outcome) { ctx == Live && !o.oomKilled && !o.cpu.killed && o.err.None? }

  /** The cpu limit ended the exec: the poller killed it, or its end reads as the cpu signal. */
  predicate CpuEnded(o: Outcome) {
    o.cpu.killed || (o.err.Some? && (o.ps == Signaled(24) || o.ps == Exited(152)))
  }

  /** Nothing but the exec's own end is left to explain it. */
  predicate OwnEnd(ctx: CtxErr, o: Outcome) { ctx == Live && !o.oomKilled && !CpuEnded(o) && o.err.Some? }

  predicate Says137(o: Outcome) { o.err.Some? && !o.ps.Signaled? && Index(o.err.value, "exit status 137") >= 0 }

  predicate LimitSpent(o: Outcome) { o.cpu.limitUS > 0 && o.cpu.timeUS >= o.cpu.limitUS }

  /** Each verdict on the output, and exactly the runs that get it. */
  lemma OutputVerdicts(ctx: CtxErr, o: Outcome, expected: string)
    ensures var r := TestStatus(ctx, o, expected);
      && (r == Accepted || r == WhitespaceMismatch || r == WrongOutput <==> CleanRun(ctx, o))
      && (r == Accepted <==> CleanRun(ctx, o) && (expected == "" || o.stdout == expected))
      && (r == WrongOutput <==> CleanRun(ctx, o) && expected != "" && TrimSpace(o.stdout) != TrimSpace(expected))
  {}

  /** Every other verdict, and exactly the runs that get it. Signals 9, 11 and 6 are kill, segmentation
      fault and abort. */
  lemma TestStatusMeans(ctx: CtxErr, o: Outcome, expected: string)
    ensures var r := TestStatus(ctx, o, expected);
      && r.Valid() && r != NotExecuted && r != BuildFailed && r != InternalError
      && (r == Cancelled <==> ctx == Canceled)
      && (r == MemoryExceeded <==>
            ctx != Canceled && (o.oomKilled || (OwnEnd(ctx, o) && (o.ps == Signaled(11) || o.ps == Signaled(6)))))
      && (r == CpuTimeExceeded <==>
            ctx != Canceled && !o.oomKilled && (CpuEnded(o) || (OwnEnd(ctx, o) && Says137(o) && LimitSpent(o))))
      && (r == TimeExceeded <==>
            || (ctx == DeadlineExceeded && !o.oomKilled && !CpuEnded(o))
            || (OwnEnd(ctx, o) && (o.ps == Signaled(9) || (Says137(o) && !LimitSpent(o)))))
      && (r == RuntimeError <==>
            OwnEnd(ctx, o) && !Says137(o) && (o.ps.Signaled? ==> o.ps.sig !in {6, 9, 11}))
  {}

  // ---------------------------------------------------------------- one request

  /** What became of the jail of a parallel test. */
  datatype JailOutcome = JailFailed | SeedFailed | Ready

  /** One test case: the clock when the loop reaches it, when its exec starts and when its status is
      computed; the wall deadline; and what happened. */
  datatype Case = Case(
    loopAt: nat, startAt: nat, endAt: nat, deadline: nat, jail: JailOutcome, outcome: Outcome, expected: string)

  function SingleTest(ctx: Context, c: Case): Status {
    if ctx.Done(c.startAt) then Cancelled
    else if c.outcome.infra then InternalError
    else TestStatus(ctx.Child(c.deadline, c.endAt), c.outcome, c.expected)
  }

  function ParallelTest(ctx: Context, c: Case): Status {
    if c.jail != Ready then InternalError else SingleTest(ctx, c)
  }

  /** The build step: the wall deadline, when its exec ended, and how it ended. */
  datatype Build = Interpreted | Compiled(deadline: nat, endAt: nat, err: bool, infra: bool)

  /** The status of a build, and whether the infrastructure failed it: a build that ran out of wall
      time is a failed build whatever else went wrong. */
  function RunBuild(ctx: Context, b: Build): (r: (BuildStatus, bool))
    requires b.Compiled?
    ensures r.0.Valid()
    ensures r.1 <==> r.0 == BuildInternal
    ensures r.0 == BuildInternal <==> b.err && b.infra && ctx.Child(b.deadline, b.endAt) != DeadlineExceeded
    ensures r.0 == BuildOk <==> !b.err && ctx.Child(b.deadline, b.endAt) != DeadlineExceeded
  {
    var late := ctx.Child(b.deadline, b.endAt) == DeadlineExceeded;
    if b.err then
      if late then (BuildBroken, false)
      else if b.infra then (BuildInternal, true)
      else (BuildBroken, false)
    else if late then (BuildBroken, false)
    else (BuildOk, false)
  }

  /** `maxParallel` is what the request asks for, `cpus` what the machine has. */
  datatype Request = Request(template: bool, build: Build, maxParallel: Option<int>, cpus: int, cases: seq<Case>)
  {
    predicate Parallel() { S.EffectiveParallel(maxParallel, cpus) > 1 }
  }

  /** Everything the run observes happens before ExecuteRun returns. */
  ghost predicate Timely(req: Request, returnAt: nat) {
    && (req.build.Compiled? ==> req.build.endAt <= returnAt)
    && forall i | 0 <= i < |req.cases| ::
      var c := req.cases[i];
      c.loopAt <= returnAt && c.startAt <= returnAt && c.endAt <= returnAt
  }

  /** The tests the loop reaches: up to the first one at which the context is done. */
  function Reached(ctx: Context, cases: seq<Case>): (k: nat)
    ensures k <= |cases|
    ensures forall i | 0 <= i < k :: !ctx.Done(cases[i].loopAt)
    ensures k < |cases| ==> ctx.Done(cases[k].loopAt)
  {
    if cases == [] || ctx.Done(cases[0].loopAt) then 0
    else
      assert forall i | 1 <= i < |cases| :: cases[i] == cases[1..][i - 1];
      1 + Reached(ctx, cases[1..])
  }

  /** Sequential execution stops at the first test it finds the context done at. */
  method RunSequential(ctx: Context, cases: seq<Case>) returns (results: Option<seq<Status>>)
    ensures results.None? <==> Reached(ctx, cases) == 0
    ensures results.Some? ==> |results.value| == Reached(ctx, cases)
    ensures results.Some? ==> forall i | 0 <= i < |results.value| :: results.value[i] == SingleTest(ctx, cases[i])
  {
    results := None;
    var k := 0;
    while k < |cases|
      invariant 0 <= k <= |cases|
      invariant forall i | 0 <= i < k :: !ctx.Done(cases[i].loopAt)
      invariant results.None? <==> k == 0
      invariant results.Some? ==>
        |results.value| == k && forall i | 0 <= i < k :: results.value[i] == SingleTest(ctx, cases[i])
    {
      if ctx.Done(cases[k].loopAt) { break; }
      results := Some((if results.Some? then results.value else []) + [SingleTest(ctx, cases[k])]);
      k := k + 1;
    }
    ReachedIs(ctx, cases, k);
  }

  lemma ReachedIs(ctx: Context, cases: seq<Case>, k: nat)
    requires k <= |cases| && forall i | 0 <= i < k :: !ctx.Done(cases[i].loopAt)
    requires k < |cases| ==> ctx.Done(cases[k].loopAt)
    ensures Reached(ctx, cases) == k
  {}

  /** Parallel execution fills one slot per started test, whatever order they finish in. */
  method RunParallel(ctx: Context, cases: seq<Case>, order: seq<nat>) returns (results: seq<Status>)
    requires forall i | 0 <= i < |order| :: order[i] < Reached(ctx, cases)
    requires forall i | 0 <= i < Reached(ctx, cases) :: i in order
    ensures |results| == |cases|
    ensures forall i | 0 <= i < |cases| ::
      results[i] == if i < Reached(ctx, cases) then ParallelTest(ctx, cases[i]) else Unset
  {
    results := seq(|cases|, i => Unset);
    for k := 0 to |order|
      invariant |results| == |cases|
      invariant forall i | 0 <= i < |cases| ::
        results[i] == if i in order[..k] then ParallelTest(ctx, cases[i]) else Unset
    {
      results := results[order[k] := ParallelTest(ctx, cases[order[k]])];
      assert order[..k + 1] == order[..k] + [order[k]];
    }
    assert order[..|order|] == order;
  }

  datatype RunResult = RunResult(build: BuildStatus, tests: Option<seq<Status>>, failed: bool)

  /** The tests as ExecuteRun returns them, as a value. */
  ghost predicate TestsAre(ctx: Context, req: Request, tests: Option<seq<Status>>) {
    var k := Reached(ctx, req.cases);
    if req.Parallel() then
      && tests.Some? && |tests.value| == |req.cases|
      && forall i | 0 <= i < |req.cases| :: tests.value[i] == if i < k then ParallelTest(ctx, req.cases[i]) else Unset
    else
      && (tests.None? <==> k == 0)
      && (tests.Some? ==>
            |tests.value| == k && forall i | 0 <= i < k :: tests.value[i] == SingleTest(ctx, req.cases[i]))
  }

  method ExecuteRun(ctx: Context, req: Request, order: seq<nat>) returns (r: RunResult)
    requires forall i | 0 <= i < |order| :: order[i] < Reached(ctx, req.cases)
    requires forall i | 0 <= i < Reached(ctx, req.cases) :: i in order
    ensures !req.template ==> r == RunResult(BuildInternal, None, true)
    ensures req.template && req.build.Compiled? && RunBuild(ctx, req.build).0 != BuildOk ==>
      r == RunResult(RunBuild(ctx, req.build).0, None, RunBuild(ctx, req.build).1)
    ensures req.template && (req.build.Interpreted? || RunBuild(ctx, req.build).0 == BuildOk) ==>
      r.build == BuildOk && !r.failed && TestsAre(ctx, req, r.tests)
  {
    if !req.template { return RunResult(BuildInternal, None, true); }
    if req.build.Compiled? {
      var (status, infra) := RunBuild(ctx, req.build);
      if infra { return RunResult(status, None, true); }
      if status != BuildOk { return RunResult(status, None, false); }
    }
    if req.Parallel() {
      var slots := RunParallel(ctx, req.cases, order);
      return RunResult(BuildOk, Some(slots), false);
    }
    var list := RunSequential(ctx, req.cases);
    return RunResult(BuildOk, list, false);
  }

  // ---------------------------------------------------------------- the response

  function FirstNotAccepted(tests: seq<Status>): Status {
    if tests == [] then Accepted else if tests[0] != Accepted then tests[0] else FirstNotAccepted(tests[1..])
  }

  function TopLevel(build: BuildStatus, tests: seq<Status>): Status {
    if build == BuildInternal then InternalError
    else if build != BuildOk then BuildFailed
    else if InternalError in tests then InternalError
    else
      var s := FirstNotAccepted(tests);
      if s == Unset then NotExecuted else s
  }

  lemma {:induction false} FirstIsReported(tests: seq<Status>, i: nat)
    requires i < |tests| && tests[i] != Accepted && forall k | 0 <= k < i :: tests[k] == Accepted
    ensures FirstNotAccepted(tests) == tests[i]
    decreases |tests|
  {
    if i > 0 { FirstIsReported(tests[1..], i - 1); }
  }

  /** Without an internal error the top level is the first status that is not accepted. */
  lemma TopLevelIsFirst(tests: seq<Status>, i: nat)
    requires InternalError !in tests
    requires i < |tests| && tests[i] != Accepted && forall k | 0 <= k < i :: tests[k] == Accepted
    ensures TopLevel(BuildOk, tests) == if tests[i] == Unset then NotExecuted else tests[i]
  {
    FirstIsReported(tests, i);
  }

  lemma {:induction false} FirstNotAcceptedMeans(tests: seq<Status>)
    ensures FirstNotAccepted(tests) == Accepted <==> forall i | 0 <= i < |tests| :: tests[i] == Accepted
    ensures FirstNotAccepted(tests) != Accepted ==> FirstNotAccepted(tests) in tests
    decreases |tests|
  {
    if tests != [] {
      FirstNotAcceptedMeans(tests[1..]);
      assert forall i | 1 <= i < |tests| :: tests[i] == tests[1..][i - 1];
    }
  }

  /** The top level is accepted exactly when the build is ok and every test is accepted; it is never
      the zero value. */
  lemma TopLevelMeans(build: BuildStatus, tests: seq<Status>)
    ensures TopLevel(build, tests).Valid()
    ensures TopLevel(build, tests) == Accepted <==>
      build == BuildOk && forall i | 0 <= i < |tests| :: tests[i] == Accepted
    ensures TopLevel(build, tests) == InternalError <==>
      build == BuildInternal || (build == BuildOk && InternalError in tests)
  {
    FirstNotAcceptedMeans(tests);
  }

  /** What a run is counted under. */
  datatype Label = FullQueue | Stopping | Final(status: Status)

  datatype Reply =
    | NoReply | Http503(reason: Label) | Http500 | BuildInternalBody
    | Body(status: Status, build: BuildStatus, tests: seq<Status>)

  datatype Record = Record(kind: Label, isError: bool)

  /** The body written for the results of ExecuteRun. */
  ghost predicate Reports(numTests: nat, r: RunResult, reply: Reply)
    requires reply.Body?
  {
    var tests := if r.tests.Some? then r.tests.value else [];
    && reply.build == r.build && reply.status == TopLevel(r.build, tests)
    && if reply.status == BuildFailed || reply.status == InternalError then
         && |reply.tests| == (if r.tests.Some? then |tests| else numTests)
         && (forall i | 0 <= i < |reply.tests| :: reply.tests[i] == NotExecuted)
       else reply.tests == tests
  }

  /** HandleRun from the return of ExecuteRun on: what is written, and what is recorded. */
  method Respond(ctx: Context, returnAt: nat, numTests: nat, r: RunResult) returns (reply: Reply, records: seq<Record>)
    ensures !reply.Http503?
    ensures reply.NoReply? <==> ctx.Done(returnAt)
    ensures reply.NoReply? ==> records == [Record(Final(Cancelled), r.failed)]
    ensures reply.Http500? ==> r.failed && r.build != BuildInternal && records == [Record(Final(InternalError), true)]
    ensures reply.BuildInternalBody? ==>
      r.failed && r.build == BuildInternal && records == [Record(Final(InternalError), true)]
    ensures reply.Body? ==> !r.failed && Reports(numTests, r, reply)
    ensures reply.Body? ==> records == [Record(Final(reply.status), reply.status == InternalError)]
  {
    if ctx.Done(returnAt) { return NoReply, [Record(Final(Cancelled), r.failed)]; }
    if r.failed {
      if r.build == BuildInternal { return BuildInternalBody, [Record(Final(InternalError), true)]; }
      return Http500, [Record(Final(InternalError), true)];
    }
    var tests := if r.tests.Some? then r.tests.value else [];
    var top := TopLevel(r.build, tests);
    if top == BuildFailed || top == InternalError {
      if r.tests.None? && numTests > 0 { tests := seq(numTests, i => Unset); }
      for i := 0 to |tests|
        invariant |tests| == (if r.tests.Some? then |r.tests.value| else numTests)
        invariant forall j | 0 <= j < i :: tests[j] == NotExecuted
      {
        tests := tests[i := NotExecuted];
      }
    }
    return Body(top, r.build, tests), [Record(Final(top), top == InternalError)];
  }

  /** A response body says one valid status per requested test, never cancelled, and is accepted at
      the top level exactly when the build is ok and every test is accepted. */
  ghost predicate WellShaped(numTests: nat, reply: Reply) {
    reply.Body? ==>
      && |reply.tests| == numTests
      && (forall i | 0 <= i < numTests :: Delivered(reply.tests[i]))
      && Delivered(reply.status)
      && (reply.status == Accepted <==>
            reply.build == BuildOk && forall i | 0 <= i < numTests :: reply.tests[i] == Accepted)
  }

  predicate Delivered(s: Status) { s.Valid() && s != Cancelled }

  /** If the context is still live when ExecuteRun returns, it was live at every earlier moment: the
      loops ran to the end and no test was cut short. */
  lemma NothingCutShort(ctx: Context, req: Request, returnAt: nat)
    requires Timely(req, returnAt) && !ctx.Done(returnAt)
    ensures Reached(ctx, req.cases) == |req.cases|
    ensures forall i | 0 <= i < |req.cases| ::
      Delivered(SingleTest(ctx, req.cases[i])) && Delivered(ParallelTest(ctx, req.cases[i]))
  {
    assert forall i | 0 <= i < |req.cases| :: !ctx.Done(req.cases[i].loopAt);
    forall i | 0 <= i < |req.cases|
      ensures Delivered(SingleTest(ctx, req.cases[i])) && Delivered(ParallelTest(ctx, req.cases[i]))
    {
      var c := req.cases[i];
      TestStatusMeans(ctx.Child(c.deadline, c.endAt), c.outcome, c.expected);
    }
  }

  /** Complete results, all of them fit to deliver, or none because the build was not ok. */
  ghost predicate Complete(numTests: nat, r: RunResult) {
    if r.build == BuildOk then
      && (r.tests.None? ==> numTests == 0)
      && (r.tests.Some? ==> |r.tests.value| == numTests && forall i | 0 <= i < numTests :: Delivered(r.tests.value[i]))
    else r.tests.None?
  }

  lemma ResultsComplete(ctx: Context, req: Request, returnAt: nat, tests: Option<seq<Status>>)
    requires Timely(req, returnAt) && !ctx.Done(returnAt) && TestsAre(ctx, req, tests)
    ensures Complete(|req.cases|, RunResult(BuildOk, tests, false))
  {
    NothingCutShort(ctx, req, returnAt);
  }

  lemma CompleteIsWellShaped(numTests: nat, r: RunResult, reply: Reply)
    requires Complete(numTests, r) && reply.Body? && Reports(numTests, r, reply)
    ensures WellShaped(numTests, reply)
  {
    var tests := if r.tests.Some? then r.tests.value else [];
    TopLevelMeans(r.build, tests);
    FirstNotAcceptedMeans(tests);
    if (reply.status == InternalError || reply.status == BuildFailed) && r.build == BuildOk {
      assert reply.tests[0] == NotExecuted;
    }
  }

  // ---------------------------------------------------------------- what is delivered, from the request alone

  /** The infrastructure failed this test. */
  predicate Broke(req: Request, c: Case) { c.outcome.infra || (req.Parallel() && c.jail != Ready) }

  /** The exec ended in time and by itself, without an error, with the expected output. */
  predicate Passes(c: Case) {
    && !c.outcome.infra && !c.outcome.oomKilled && !c.outcome.cpu.killed && c.outcome.err.None?
    && c.endAt < c.deadline && (c.expected == "" || c.outcome.stdout == c.expected)
  }

  predicate BuildPasses(b: Build) { b.Compiled? ==> !b.err && b.endAt < b.deadline }

  predicate BuildBreaks(b: Build) { b.Compiled? && b.err && b.infra && b.endAt < b.deadline }

  ghost predicate SomeBroke(req: Request) { exists i :: 0 <= i < |req.cases| && Broke(req, req.cases[i]) }

  ghost predicate AllPass(req: Request) {
    forall i | 0 <= i < |req.cases| :: !Broke(req, req.cases[i]) && Passes(req.cases[i])
  }

  /** The first test that is not accepted gives the top level. */
  ghost predicate FirstGivesTop(status: Status, tests: seq<Status>) {
    forall i | 0 <= i < |tests| && tests[i] != Accepted && (forall k | 0 <= k < i :: tests[k] == Accepted) ::
      status == tests[i]
  }

  ghost predicate AllNotExecuted(tests: seq<Status>) { forall i | 0 <= i < |tests| :: tests[i] == NotExecuted }

  /** What a delivered body says, in terms of how the build and the execs of the request ended. */
  ghost predicate Delivers(req: Request, reply: Reply) {
    reply.Body? ==>
      && (reply.build == BuildOk <==> BuildPasses(req.build))
      && (reply.status == BuildFailed <==> !BuildPasses(req.build))
      && (reply.status == InternalError <==> BuildPasses(req.build) && SomeBroke(req))
      && (reply.status == Accepted <==> BuildPasses(req.build) && AllPass(req))
      && |reply.tests| == |req.cases|
      && if reply.status == BuildFailed || reply.status == InternalError then AllNotExecuted(reply.tests)
         else
           && FirstGivesTop(reply.status, reply.tests)
           && forall i | 0 <= i < |req.cases| :: reply.tests[i] == Accepted <==> Passes(req.cases[i])
  }

  function Verdict(ctx: Context, req: Request, c: Case): Status {
    if req.Parallel() then ParallelTest(ctx, c) else SingleTest(ctx, c)
  }

  lemma VerdictMeans(ctx: Context, req: Request, c: Case)
    requires !ctx.Done(c.startAt) && !ctx.Done(c.endAt)
    ensures var v := Verdict(ctx, req, c);
      && Delivered(v) && v != BuildFailed
      && (v == InternalError <==> Broke(req, c)) && (v == Accepted <==> !Broke(req, c) && Passes(c))
  {
    TestStatusMeans(ctx.Child(c.deadline, c.endAt), c.outcome, c.expected);
    OutputVerdicts(ctx.Child(c.deadline, c.endAt), c.outcome, c.expected);
  }

  /** The tests of a run that was not cut short are the verdicts, one for each. */
  lemma TestsAreVerdicts(ctx: Context, req: Request, returnAt: nat, tests: Option<seq<Status>>)
    requires Timely(req, returnAt) && !ctx.Done(returnAt) && TestsAre(ctx, req, tests)
    ensures tests.None? ==> req.cases == []
    ensures tests.Some? ==> |tests.value| == |req.cases|
    ensures tests.Some? ==> forall i | 0 <= i < |req.cases| :: tests.value[i] == Verdict(ctx, req, req.cases[i])
  {
    NothingCutShort(ctx, req, returnAt);
  }

  lemma VerdictsDelivered(ctx: Context, req: Request, returnAt: nat, tests: seq<Status>)
    requires Timely(req, returnAt) && !ctx.Done(returnAt) && |tests| == |req.cases|
    requires forall i | 0 <= i < |req.cases| :: tests[i] == Verdict(ctx, req, req.cases[i])
    ensures InternalError in tests <==> SomeBroke(req)
    ensures (forall i | 0 <= i < |tests| :: tests[i] == Accepted) <==> AllPass(req)
    ensures forall i | 0 <= i < |tests| :: Delivered(tests[i]) && tests[i] != BuildFailed
    ensures InternalError !in tests ==> forall i | 0 <= i < |tests| :: tests[i] == Accepted <==> Passes(req.cases[i])
  {
    forall i | 0 <= i < |tests|
      ensures Delivered(tests[i]) && tests[i] != BuildFailed
      ensures tests[i] == InternalError <==> Broke(req, req.cases[i])
      ensures tests[i] == Accepted <==> !Broke(req, req.cases[i]) && Passes(req.cases[i])
    {
      VerdictMeans(ctx, req, req.cases[i]);
    }
    if i :| 0 <= i < |req.cases| && Broke(req, req.cases[i]) { assert tests[i] == InternalError; }
  }

  lemma TopOfTests(tests: seq<Status>)
    requires forall i | 0 <= i < |tests| :: Delivered(tests[i]) && tests[i] != BuildFailed
    ensures TopLevel(BuildOk, tests) != BuildFailed
    ensures InternalError !in tests ==> FirstGivesTop(TopLevel(BuildOk, tests), tests)
  {
    FirstNotAcceptedMeans(tests);
    if InternalError !in tests {
      forall i | 0 <= i < |tests| && tests[i] != Accepted && (forall k | 0 <= k < i :: tests[k] == Accepted)
        ensures TopLevel(BuildOk, tests) == tests[i]
      {
        TopLevelIsFirst(tests, i);
      }
    }
  }

  lemma BodyDelivers(ctx: Context, req: Request, returnAt: nat, tests: Option<seq<Status>>, reply: Reply)
    requires Timely(req, returnAt) && !ctx.Done(returnAt) && TestsAre(ctx, req, tests) && BuildPasses(req.build)
    requires reply.Body? && Reports(|req.cases|, RunResult(BuildOk, tests, false), reply)
    ensures Delivers(req, reply)
  {
    var list := if tests.Some? then tests.value else [];
    TestsAreVerdicts(ctx, req, returnAt, tests);
    VerdictsDelivered(ctx, req, returnAt, list);
    TopLevelMeans(BuildOk, list);
    TopOfTests(list);
  }

  // ---------------------------------------------------------------- the whole handler

  /** A cancelled client wins over a stopping server: it would not see the 503. */
  function ClassifyAcquireErr(ctx: Context, now: nat, e: G.Error): Record {
    if !ctx.Done(now) && e == G.ShuttingDown then Record(Stopping, true) else Record(Final(Cancelled), false)
  }

  /** HandleRun from admission on, for every request, context and finishing order: one record, and it
      agrees with what the client is told. */
  method HandleRun(ctx: Context, refused: Option<G.Error>, admitAt: nat, req: Request, order: seq<nat>, returnAt: nat)
    returns (reply: Reply, records: seq<Record>)
    requires forall i | 0 <= i < |order| :: order[i] < Reached(ctx, req.cases)
    requires forall i | 0 <= i < Reached(ctx, req.cases) :: i in order
    requires Timely(req, returnAt)
    ensures WellShaped(|req.cases|, reply) && !reply.Http500?
    ensures |records| == 1
    ensures records[0].kind == FullQueue <==> refused == Some(G.QueueFull)
    ensures records[0].kind == Stopping <==> refused == Some(G.ShuttingDown) && !ctx.Done(admitAt)
    ensures reply.Http503? <==> records[0].kind in {FullQueue, Stopping}
    ensures reply.Http503? ==> reply.reason == records[0].kind && records[0].isError
    ensures reply.NoReply? <==> records[0].kind == Final(Cancelled)
    ensures reply.Body? ==> records[0] == Record(Final(reply.status), reply.status == InternalError)
    ensures reply.BuildInternalBody? ==> records[0] == Record(Final(InternalError), true)
    ensures refused.None? ==> (reply.NoReply? <==> ctx.Done(returnAt))
    ensures refused.Some? && reply.NoReply? ==> !records[0].isError
    ensures Delivers(req, reply)
    ensures reply.BuildInternalBody? <==>
      refused.None? && !ctx.Done(returnAt) && (!req.template || BuildBreaks(req.build))
  {
    if refused.Some? {
      if refused.value == G.QueueFull { return Http503(FullQueue), [Record(FullQueue, true)]; }
      var rec := ClassifyAcquireErr(ctx, admitAt, refused.value);
      return if rec.isError then Http503(Stopping) else NoReply, [rec];
    }
    var r := ExecuteRun(ctx, req, order);
    reply, records := Respond(ctx, returnAt, |req.cases|, r);
    if reply.Body? {
      if r.build == BuildOk {
        ResultsComplete(ctx, req, returnAt, r.tests);
        BodyDelivers(ctx, req, returnAt, r.tests, reply);
      }
      CompleteIsWellShaped(|req.cases|, r, reply);
    }
  }
}
