# A verified model of goboxd

goboxd admits run requests through a bounded gate, gives every sandbox its own uid, runs the
submitted code under nsjail and classifies what happened. This project models its concurrency
control and its resource accounting in Dafny and proves what they keep in every run. Nothing here
executes the service; nsjail, the kernel and the file system appear only as what they report.

| file | models |
|---|---|
| `Gate.dfy` | the admission gate: slots, queue tickets, the close-and-replace broadcast, cancellation, `Stop` |
| `UidPool.dfy` | the cyclic-scan uid allocator on 64-bit integers, and its size budget |
| `Jail.dfy` | one jail on its host: materialization with every failure point, and the once-only teardown |
| `Sandbox.dfy` | gate, goroutines with their deferred calls, semaphore, wait group, jails, pool and in-flight metric composed; the shutdown drain |
| `Remains.dfy` | what is left of a jail between the release of its uid and the removal of its directory |
| `Text.dfy`, `Seccomp.dfy` | the seccomp policy parser, the additive merge and the printer |
| `RateLimit.dfy` | the per-IP token bucket with its pruning |
| `CopyTree.dfy` | seeding a jail from the build template |
| `Sums.dfy`, `ExecAccounting.dfy` | cumulative kill counters, baselines, the poller and the cpu authority |
| `Metrics.dfy` | the run counters and the snapshot, step by step |
| `Response.dfy` | build and test statuses, `ExecuteRun`'s results, and what `HandleRun` writes and records |
| `ProbeCache.dfy` | the time-to-live cache of readiness probes |
| `Common.dfy` | the option type and a fact about sets that several components use |

## How the model is made

Protocols are transition systems: a state, an `Enabled` predicate, an `Apply` function, and `Legal`
and `Exec` over sequences of events. A theorem about `Exec` over every legal sequence is a theorem
about every interleaving of unboundedly many callers. Each mutex section is one step, and so is
each atomic counter update. Code that changes fields is a class whose methods are proved equal to
the step functions (`Gate`, `UidPool`, `Host`, `RateLimiter`, `Counters`, `Probes`); code that loops
is a method with a loop. What the outside world decides (a clock, a failing system call, the order
in which goroutines finish, the other callers) is a parameter of those methods, for every value of
which the contract holds.

- The gate. A waiter's `select` and the mutex section after it are one step; both arms stay ready
  once they are ready, so nothing another caller does in between can disable the step. Channels are
  numbered in the order they are made.
- The uid pool. `Exact` says that the end of the range and twice the size fit an int. All claims
  about exhaustion and ownership assume it; `ReleaseFreesIffRangeFits`, `SaturatedPoolNeverReleases`,
  `ScanInRangeIff` and `AlwaysInRangeIff` say what happens otherwise. The gate and the pool are taken to read
  the same job limit.
- The composed system. Every goroutine has a program counter and a stack of deferred calls, pushed in
  the source's order and popped when it returns. No step is guarded by who holds a uid: giving back a
  semaphore slot, passing the wait group and leaving `ExecuteRun` depend on the stack and the two
  counters alone. That no jail outlives its slot or its request is proved from the order of the calls.
  `teardown` is two steps, as in the source: the uid is given back first, the directory is removed
  after that. So is the clean-up of a failed `newJail`.
  A goroutine's `wg.Add`, semaphore send and start are one step, since nothing reads the counter in
  between.
- Text is Unicode, a sequence of characters, with the white space Go's trimming recognises.
- The token bucket computes with reals, so floating-point rounding is not modelled.
- A request context is cancelled at some logical time or never; a child context ends with its own
  deadline or with the parent, whichever comes first.

## Where the code does less than its documentation says

- A seccomp policy whose name ends in `DENY` does not survive printing and parsing:
  `NoRoundTrip`, `DenyNameMisread` for a real text, and `RoundTripIff` for the exact condition.
- Deleting idle buckets is invisible, and the sliding-window bound holds, if and only if
  rps * 600 >= burst: `HarmlessIff`.
- With a rate below one per second and no explicit burst every request is refused:
  `FirstRequestPassesIff`, `SlowDefaultRefuses`.
- A saturated uid budget overflows the range check in `Release`, so that no uid is ever given back:
  `SaturatedPoolNeverReleases`.
- A snapshot is called a consistent copy, but it can show more errors than runs:
  `SnapshotCanShowMoreErrorsThanRuns`; `SnapshotErrorsBounded` says by how much, and `SnapshotSafeIff`
  exactly when it cannot.
- An exec whose baseline could not read a leaf that already held a kill can be blamed for that kill, and
  only then: `NeverBlamedIff` over all runs, `InnocentTestBlamed` for a run from an empty jail.
- "Exactly one" cpu authority per exec is at most one; neither is armed when the controller is on
  and the baseline read failed: `OneCpuAuthority`.
- A zero reading of the in-flight metric is final if and only if no handler is admitted but not yet
  counted: `ZeroIsFinalIffNoneUncounted`; `ZeroNeedNotBeFinal` reaches such a state.
- A pool of more than half the integers can hand out a uid below its range, and only such a pool:
  `AlwaysInRangeIff`.
- Uids are never shared between jails that hold them, but the directories of two jails can belong to the
  same uid, since one is removed only after its uid is given back: `CanShareIff` says on which servers,
  and `NoSharingWhileAnotherStaysFree` what prevents it.
- An exec that the poller killed is measured at its limit only if the usage could be read again after it:
  `KilledMeansLimitReached`.

## Model

| member | source | states |
|---|---|---|
| `AdmissionGate.HoldersMove` | internal/api/admission.go:49-124 | a step creates a holder only by entering or waking, and only when a slot is free and the gate is open; release removes exactly that holder |
| `AdmissionGate.WaitersMove` | internal/api/admission.go:49-124 | exactly which step adds or removes which waiter, in each branch |
| `AdmissionGate.StepConserves` | internal/api/admission.go:49-124 | every step keeps queued = gauge = number of waiters, inFlight = number of holders, and both bounds |
| `AdmissionGate.StepOrdersChannels` | internal/api/admission.go:64-124 | every step keeps the closed channels exactly those made before the current one |
| `AdmissionGate.NotifyWakesAll` | internal/api/admission.go:100-111 | a broadcast leaves no waiter on an open channel |
| `AdmissionGate.StepWakes` | internal/api/admission.go:64-124 | no step can leave a waiter asleep while the gate is stopped or a slot is free |
| `AdmissionGate.StepInv` | internal/api/admission.go:49-124 | the whole invariant is inductive |
| `AdmissionGate.RunInv` | internal/api/admission.go:49-124 | the invariant holds after every legal run from a state that has it |
| `AdmissionGate.ReachableInv` | internal/api/admission.go:21-124 | in every reachable state of every gate: no lost wake-up, tickets and slots conserved and bounded, the current channel open |
| `AdmissionGate.FreeSlotAdmitsAnyWaiter` | internal/api/admission.go:77-91 | with a free slot every waiter is able to run, and the one that runs is admitted |
| `AdmissionGate.NoDeadlock` | internal/api/admission.go:69-111 | while someone is queued, either a holder can release or every waiter is awake |
| `AdmissionGate.StepWoken` | internal/api/admission.go:69-124 | a wake uses up exactly one woken waiter; nothing but a broadcast makes new ones, at most one per ticket |
| `AdmissionGate.NoSpin` | internal/api/admission.go:69-111 | over any run, wakes are bounded by the waiters woken at its start plus the queue size per broadcast |
| `AdmissionGate.NoDoubleClose` | internal/api/admission.go:103-124 | over any run the closed channels grow by exactly one per broadcast, so none is closed twice |
| `AdmissionGate.StoppedStep` | internal/api/admission.go:51-54 | on a stopped gate no holder or waiter appears, and each step of a remaining caller removes exactly one |
| `AdmissionGate.StopsOnlyByStop` | internal/api/admission.go:116-124 | the gate is stopped after a step exactly when it was before or the step is `Stop`, whoever is queued |
| `AdmissionGate.StopEndsAdmission` | internal/api/admission.go:113-124 | from any state, after `Stop` and any continuation, holders and waiters are among those of that moment, and each step of one removed it |
| `AdmissionGate.StopTurnsAway` | internal/api/admission.go:51-84 | after `Stop` every waiter can run and leaves when it does, and a newcomer changes nothing |
| `AdmissionGate.StoppedRun` | internal/api/admission.go:113-124 | after `Stop`, over any run: nobody is admitted or queued, and population plus progress steps is constant |
| `AdmissionGate.StoppedNeverStuck` | internal/api/admission.go:113-124 | a stopped gate that is not empty has a waiter able to leave or a holder able to release |
| `AdmissionGate.StoppedDrains` | internal/api/admission.go:113-124 | from any stopped state there is a run to empty of exactly as many steps as there are callers |
| `AdmissionGate.Gate.constructor` | internal/api/admission.go:36-42 | a new gate is the initial state and has the invariant |
| `AdmissionGate.Gate.CloseAndReplace` | internal/api/admission.go:107-108 | the current channel is closed, which must be open, and a new one made |
| `AdmissionGate.Gate.TryEnter` | internal/api/admission.go:50-67 | entry to `acquire` is the Enter step; the outcome says whether the caller holds, waits or failed, and why |
| `AdmissionGate.Gate.OnBroadcast` | internal/api/admission.go:77-95 | the section after a broadcast is the Wake step; it fails exactly when stopped |
| `AdmissionGate.Gate.OnCancel` | internal/api/admission.go:71-76 | cancellation returns the ticket |
| `AdmissionGate.Gate.FreeSlot` | internal/api/admission.go:103-111 | `release` is the Release step and keeps the invariant |
| `AdmissionGate.Gate.Shut` | internal/api/admission.go:116-124 | `Stop` is the Stop step, keeps the invariant however often it is called, and leaves the gate stopped |
| `AdmissionGate.Gate.Wait` | internal/api/admission.go:69-97 | the wait loop under any interleaving: it ends admitted, stopped or cancelled, or the script runs out |
| `AdmissionGate.Gate.Acquire` | internal/api/admission.go:49-98 | the whole call, under any interleaving of other callers: the gate ends in the state of that run, and the result agrees with what the caller holds |
| `UidPool.UidBudget` | internal/uidpool/uidpool.go:44-59 | the true product of jobs and cpus + 1, saturated at MaxInt, by a guard that cannot overflow |
| `UidPool.DivisionGuards` | internal/uidpool/uidpool.go:55-57 | the division test is exact: it fires exactly when the product overflows |
| `UidPool.SlotExact` | internal/uidpool/uidpool.go:98-99 | iteration i of the scan looks at the uid i places after the cursor, cyclically, within the range |
| `UidPool.ScanInRangeIff` | internal/uidpool/uidpool.go:99 | the scan stays in the range if and only if its largest cursor sum fits an int |
| `UidPool.ScanLeavesRange` | internal/uidpool/uidpool.go:98-102 | with every uid held and the cursor at the end, a pool of more than half the integers hands out a uid below its range |
| `UidPool.AlwaysInRangeIff` | internal/uidpool/uidpool.go:82-118 | from a new pool whose range fits an int, every uid handed out in every run is in the range if and only if twice the size, less two, fits too |
| `UidPool.AllocExact` | internal/uidpool/uidpool.go:95-107 | `Alloc` fails exactly when every uid is held; otherwise it takes the first free uid from the cursor and leaves the cursor just past it |
| `UidPool.AllocSucceedsBelowSize` | internal/uidpool/uidpool.go:95-107 | with fewer held uids than the size, `Alloc` succeeds |
| `UidPool.ReleaseFreesIffRangeFits` | internal/uidpool/uidpool.go:111-118 | a held uid is freed if and only if the end of the range fits an int |
| `UidPool.SaturatedPoolNeverReleases` | internal/uidpool/uidpool.go:55-57 | a pool of saturated size ignores every release |
| `UidPool.StaysNearer` | internal/uidpool/uidpool.go:95-118 | a uid that stays free and is nearer to the cursor stays nearer across any step |
| `UidPool.StaysNearerRun` | internal/uidpool/uidpool.go:95-118 | the same over any run of allocations and releases |
| `UidPool.NoReuseWhileAnotherStaysFree` | internal/uidpool/uidpool.go:95-118 | between two handouts of a uid no other uid can have stayed free throughout |
| `UidPool.RefundComesNearer` | internal/uidpool/uidpool.go:95-118 | handing out another uid and taking it back brings the cursor strictly nearer to a free one |
| `UidPool.UidPool.constructor` | internal/uidpool/uidpool.go:82-92 | an empty pool of at least one uid |
| `UidPool.UidPool.AllocUid` | internal/uidpool/uidpool.go:95-107 | the scan loop over the map computes the pool-level `Alloc`, wrap-around included |
| `UidPool.UidPool.ReleaseUid` | internal/uidpool/uidpool.go:111-118 | the guarded delete computes the pool-level `Release` |
| `UidPool.RefundRestores` | internal/runner/jail.go:52-78 | releasing what was just allocated restores the held set |
| `JailLife.Host.NewJail` | internal/runner/jail.go:52-117 | materialization succeeds exactly when a uid was free and every required step worked; whichever step fails, no uid stays held and nothing that could be removed stays behind |
| `JailLife.Host.Furnish` | internal/runner/jail.go:62-116 | after the allocation the uid is either the new jail's or released; a control group that cannot be set up does not fail the jail |
| `JailLife.Host.JoinGroup` | internal/runner/jail.go:86-98 | a group is joined exactly when it was made and is usable; a half-made one is removed again |
| `JailLife.Host.Teardown` | internal/runner/jail.go:138-153 | the first call releases the uid and removes what it can; every later call changes nothing |
| `JailLife.Host.Live` | internal/runner/jail.go:52-153 | materialize, then any number of teardowns: the held uids, directories and groups are what they were |
| `JailLife.Host.NewJailSteps` | internal/runner/jail.go:52-117 | `newJail` is the allocating step of the composed system followed by its directory and ready steps, or by its failing step, on the same pool |
| `JailLife.Host.TeardownSteps` | internal/runner/jail.go:138-153 | `teardown` is the two teardown steps of the composed system, uid first; a later call changes nothing |
| `Sandbox.EffectiveParallel` | internal/runner/runner.go:123-132 | what the request asks for, cut to the number of cpus; one if it asks for nothing |
| `Sandbox.InitInv` | internal/runner/runner.go:63-68 | a new server whose pool comes from the budget has the system invariant |
| `Sandbox.GateKeepsRuns` | internal/api/handlers.go:447-470 | the runs are exactly the gate's holders, and the metric counts the counted ones, across every gate step |
| `Sandbox.StepMovesOneRun` | internal/api/handlers.go:466-471 | every other step changes one run, and the metric by exactly what that run's stage changes |
| `Sandbox.ThreadMoves` | internal/runner/runner.go:134-172 | a goroutine's step keeps every stack in its shape, and test goroutines only inside the parallel loop |
| `Sandbox.StepKeepsThreads` | internal/runner/runner.go:83-184 | so does every step; passing the wait group means that no test goroutine is left |
| `Sandbox.StepKeepsCounters` | internal/runner/runner.go:139-157 | the semaphore counts the goroutines with an unreleased slot, the wait group those not over, and the semaphore stays within its capacity and the cpus |
| `Sandbox.GiveBackKeepsJails` | internal/runner/jail.go:142-143 | giving back a live jail's uid frees that uid and no other, and leaves its directory to the same goroutine |
| `Sandbox.RemoveKeepsJails` | internal/runner/jail.go:147-150 | removing the directory of a jail that gave its uid back changes nothing else |
| `Sandbox.NewJailKeepsJails` | internal/runner/jail.go:52-57 | a new jail gets a uid that no live jail has, for a goroutine that has no other jail |
| `Sandbox.StepKeepsJails` | internal/runner/runner.go:83-172 | every step keeps each jail that is still there inside the newJail call that makes it, or next to be torn down by its own goroutine; live jails have distinct uids, which are exactly the held ones |
| `Sandbox.StepInv` | internal/runner/runner.go:70-185 | the invariant of gate, runs, goroutines, counters, jails and pool together is inductive |
| `Sandbox.RunInv` | internal/runner/runner.go:70-185 | it holds after every legal run |
| `Sandbox.TestJailGuarded` | internal/runner/runner.go:147-164 | a test jail whose uid or directory is still there has its teardown above the release of its semaphore slot, and that above the wait group's count, on its goroutine's stack |
| `Sandbox.WaitGroupGuardsTestJails` | internal/runner/runner.go:171 | the wait group reads zero only when no uid and no directory of a test jail of the request is left |
| `Sandbox.ReturnsWithoutJails` | internal/runner/runner.go:83-93 | `ExecuteRun` can return only when no uid and no directory of the template or of a test jail of the request is left |
| `Sandbox.RunNeverStuck` | internal/runner/runner.go:134-184 | a run inside `ExecuteRun` always has a goroutine that can take its next step |
| `Sandbox.SeatsBound` | internal/uidpool/uidpool.go:35-43 | the goroutines that may hold a jail number at most cpus + 1 for each run |
| `Sandbox.OneJailEach` | internal/runner/runner.go:83-164 | a goroutine has at most one jail, counting one that it is tearing down |
| `Sandbox.UidsPerOwner` | internal/uidpool/uidpool.go:35-43 | jails with different owners hold no more uids than they have owners |
| `Sandbox.OwnerHasSeat` | internal/runner/runner.go:147-164 | the owner of a live jail still has its slot of the semaphore, or is the goroutine of the request itself |
| `Sandbox.SeatsFitPool` | internal/uidpool/uidpool.go:35-43 | there are never more such goroutines than uids |
| `Sandbox.NewJailNeverStarves` | internal/runner/jail.go:53-58 | an allocation made inside an admitted run succeeds |
| `Sandbox.PoolNeverExhausted` | internal/runner/runner.go:63-68 | from a new server, after any interleaving of gate, goroutine, jail and pool steps, the next jail gets its uid |
| `Sandbox.OthersKeepTheirUid` | internal/runner/jail.go:138-153 | no step but a jail's own release takes its uid away |
| `Sandbox.JailHistory` | internal/runner/jail.go:133-153 | over any run a jail keeps its owner and uid, is released at most once, and is inert afterwards |
| `Sandbox.LeavesNothingBehind` | internal/runner/runner.go:83-93 | outside `ExecuteRun` every jail of the request was released exactly once and has no directory; with no run, no uid is held and no jail directory exists |
| `Sandbox.StoppedRunsAdvance` | internal/api/handlers.go:447-471 | after `Stop` no run appears and the remaining ones only move forward |
| `Sandbox.StoppedRunsAdvanceFar` | internal/api/handlers.go:447-471 | the same over any run |
| `Sandbox.ZeroMeansNoLiveJail` | cmd/goboxd/main.go:133-138 | when the metric reads zero no handler is inside `ExecuteRun`, no uid is held and no jail directory exists |
| `Sandbox.DrainedForGood` | cmd/goboxd/main.go:133-138 | from a zero reading after `Stop` with no handler admitted but uncounted, no uid is held and no jail directory exists after any further run |
| `Sandbox.ZeroIsFinalIffNoneUncounted` | cmd/goboxd/main.go:97-138 | after `Stop`, a zero reading is final if and only if no handler is admitted but not yet counted |
| `Sandbox.ZeroNeedNotBeFinal` | internal/api/handlers.go:447-466 | on every server with a slot, a caller admitted just before `Stop` leaves a zero reading after which it still executes |
| `Sandbox.PollReadings` | cmd/goboxd/main.go:156-164 | drained means a reading of zero after only positive ones before the deadline; giving up means the first check past the deadline, at a positive reading |
| `Sandbox.WaitForDrain` | cmd/goboxd/main.go:144-164 | over readings of the metric along any run of the stopped server: drained means that nothing of a jail is left then, nor ever after unless a handler was admitted but uncounted |
| `Remains.SharedWithRemains` | internal/runner/jail.go:142-150 | of two directories with the same owner at most one belongs to a jail that holds the uid |
| `Remains.NobodyGets` | internal/uidpool/uidpool.go:95-118 | over any run, while a uid nearer to the cursor stays free, no jail gets the farther one |
| `Remains.NoSharingWhileAnotherStaysFree` | internal/runner/jail.go:142-150 | from the moment a jail gets its uid, and while some other uid stays free, no later jail shares it |
| `Remains.NothingShared` | internal/runner/jail.go:142-150 | with one job on one cpu no two directories ever have the same owner |
| `Remains.ReachVisited` | internal/runner/runner.go:144-169 | a goroutine that makes and tears down a jail leaves nothing but a moved cursor and a record |
| `Remains.ComesRound` | internal/uidpool/uidpool.go:95-118 | by visit after visit the cursor reaches any free uid |
| `Remains.TwoWorkersShare` | internal/runner/jail.go:142-150 | one goroutine between its two teardown steps and another that comes and goes end with two directories of one owner |
| `Remains.CanShareIff` | internal/runner/jail.go:142-150 | some run of a new server reaches two existing jail directories with the same owner if and only if it takes two jobs at once, or one job on more than one cpu |
| `Seccomp.ParseGivesPolicyOk` | internal/seccomp/seccomp.go:144-195 | whatever the parser accepts is a policy the printer can write |
| `Seccomp.EntriesOfBlock` | internal/seccomp/seccomp.go:123-130 | splitting and trimming the printed deny block gives the entries back, in order |
| `Seccomp.DenyOccurrence` | internal/seccomp/seccomp.go:160-164 | before the real keyword, the parser can see `DENY {` only at the end of the policy's name |
| `Seccomp.ActionFound` | internal/seccomp/seccomp.go:186-193 | the default action is read back from the printed tail, whatever precedes it |
| `Seccomp.BodyIsRead` | internal/seccomp/seccomp.go:144-195 | whatever text without a brace stands in the deny block, the parser finds it and reads header, name and action around it |
| `Seccomp.RoundTrip` | internal/seccomp/seccomp.go:120-195 | parsing a printed policy returns the same header, name, action and entries |
| `Seccomp.PrintFrame` | internal/seccomp/seccomp.go:120-131 | the fixed text that is printed around the entries |
| `Seccomp.PrintedParts` | internal/seccomp/seccomp.go:123-129 | between the printed braces the commas separate the entries, one part for each and no blank one |
| `Seccomp.CommentCut` | internal/seccomp/seccomp.go:173-178 | a comment is cut off where its slashes start, and nothing before it is lost |
| `Seccomp.CommentIgnored` | internal/seccomp/seccomp.go:171-184 | a comment on any line of a deny block changes no entry |
| `Seccomp.CommentedPolicy` | internal/seccomp/seccomp.go:144-195 | a policy with a commented line parses like the policy without the comment |
| `Seccomp.CommaSeparates` | internal/seccomp/seccomp.go:180-184 | without comments a comma separates the entries before it from those after it |
| `Seccomp.OneEntryEach` | internal/seccomp/seccomp.go:180-184 | what stands between commas is one entry, trimmed, or none if it is blank |
| `Seccomp.MissingPolicyIff` | internal/seccomp/seccomp.go:146-149 | the missing-policy error is given exactly to texts without the keyword |
| `Seccomp.NameEnds` | internal/seccomp/seccomp.go:153-158 | the policy's name ends at the first blank, tab or brace |
| `Seccomp.Malformed` | internal/seccomp/seccomp.go:154-157 | a name that never ends is the malformed-policy error |
| `Seccomp.DenyErrors` | internal/seccomp/seccomp.go:160-168 | a deny block is missing exactly when its keyword is, and not closed when no brace follows it |
| `Seccomp.LaterErrors` | internal/seccomp/seccomp.go:160-193 | with the name found, the errors of the deny block come first, then that of a missing tail |
| `Seccomp.NoRoundTrip` | internal/seccomp/seccomp.go:160-169 | it does not for any policy whose name ends in `DENY` |
| `Seccomp.RoundTripIff` | internal/seccomp/seccomp.go:120-195 | for every accepted text, the round trip holds if and only if the name does not end in `DENY` |
| `Seccomp.DenyNameMisread` | internal/seccomp/seccomp.go:160-184 | a text the parser accepts, with an entry that is not in it, and that does not survive the round trip |
| `Seccomp.MergeAdds` | internal/seccomp/seccomp.go:107-118 | the merge keeps the global list as a prefix and adds entries distinct from it and from each other |
| `Seccomp.MergeIsUnion` | internal/seccomp/seccomp.go:107-118 | the deny set is exactly the global entries and the extras that are not blank |
| `Seccomp.MergeOrder` | internal/seccomp/seccomp.go:111-118 | new entries stand in the order in which the extras first mention them |
| `Seccomp.Refusal` | internal/seccomp/seccomp.go:96-102 | refused exactly when some extra is neither blank nor a known syscall |
| `Seccomp.RefusesTheFirst` | internal/seccomp/seccomp.go:96-102 | the extra that is reported is the first that is refused |
| `Seccomp.CombinedErrors` | internal/seccomp/seccomp.go:96-106 | an unknown extra is reported whatever the policy is, the first one; with none, the policy's own error is |
| `Seccomp.KnownMeans` | internal/seccomp/seccomp.go:70-102 | an extra passes exactly when it is blank, a name of the table, or SYSCALL with decimal digits in brackets |
| `Seccomp.CombinedReadsBack` | internal/seccomp/seccomp.go:82-133 | a combined policy is made exactly when every extra is acceptable and the global policy parses; it parses back to the global one with the extras merged in, the deny set being exactly the union, if and only if the name does not end in `DENY` |
| `Seccomp.ParsePolicy` | internal/seccomp/seccomp.go:144-195 | the imperative parser, error cases in the source's order, computes the parse function |
| `Seccomp.CleanLines` | internal/seccomp/seccomp.go:172-178 | the comment pass cuts every line at its first double slash |
| `Seccomp.TrimParts` | internal/seccomp/seccomp.go:180-184 | the entry loop keeps the trimmed parts that are not empty |
| `Seccomp.MergeExtras` | internal/seccomp/seccomp.go:107-118 | the loop with its `seen` map computes the merge |
| `Seccomp.WritePolicy` | internal/seccomp/seccomp.go:120-131 | the builder writes the printed policy |
| `Seccomp.CombinedWith` | internal/seccomp/seccomp.go:89-133 | unknown extras are refused first, then parse errors; otherwise the merged policy is printed |
| `RateLimit.TokensBounded` | internal/api/ratelimit.go:93-123 | tokens stay between zero and the burst in every run |
| `RateLimit.AllowRefines` | internal/api/ratelimit.go:93-123 | one call of the pruning limiter simulates one of the limiter that never deletes |
| `RateLimit.PruningRefines` | internal/api/ratelimit.go:93-123 | with rps * 600 >= burst, written out, both limiters answer every call sequence alike |
| `RateLimit.ServeSpends` | internal/api/ratelimit.go:105-122 | an allowed call takes one token off its own level and nothing off any other |
| `RateLimit.AllowedExactly` | internal/api/ratelimit.go:93-123 | a call is allowed exactly when the lesser of the burst and what was left plus rps times the seconds since is at least one (the burst alone for a new client or one idle over 600 s); it costs one, and nobody else's bucket changes |
| `RateLimit.PacedNeverRefused` | internal/api/ratelimit.go:105-122 | the other half of the bound: a client whose calls are at least 1 / rps apart is never refused, in any run |
| `RateLimit.SpendingBound` | internal/api/ratelimit.go:105-122 | requests allowed until a later time number at most the level now plus the refill until then |
| `RateLimit.WindowBoundUnpruned` | internal/api/ratelimit.go:105-122 | in any window of T seconds of any run, the limiter that never deletes allows at most burst + rps * T |
| `RateLimit.WindowBound` | internal/api/ratelimit.go:89-123 | the same for the pruning limiter when rps * 600 >= burst |
| `RateLimit.ComebackAllowed` | internal/api/ratelimit.go:97-109 | a client that drains its bucket and returns just after the idle limit is allowed twice the burst |
| `RateLimit.HarmlessIff` | internal/api/ratelimit.go:89-123 | same answers as without deletion, and the window bound, each if and only if rps * 600 >= burst |
| `RateLimit.ClientsIsolated` | internal/api/ratelimit.go:97-123 | the answers of one IP are those it would get alone, for every configuration |
| `RateLimit.FirstRequestPassesIff` | internal/api/ratelimit.go:43-57 | a first request passes if and only if a burst is set or the rate is at least one per second |
| `RateLimit.SlowDefaultDeniesAll` | internal/api/ratelimit.go:105-122 | with a zero burst no request is ever allowed |
| `RateLimit.SlowDefaultRefuses` | internal/api/ratelimit.go:43-57 | so a server with a rate below one per second and no burst set refuses every request of every run |
| `RateLimit.LoadMeans` | internal/api/ratelimit.go:43-57 | off without a positive rate; else that rate, and the burst that is set, or twice the whole part of the rate |
| `RateLimit.RateLimiter.PruneIdle` | internal/api/ratelimit.go:99-103 | exactly the idle buckets are deleted, in any order of the map |
| `RateLimit.RateLimiter.AllowCall` | internal/api/ratelimit.go:93-123 | the in-place update and the answer are those of the model's call |
| `CopyTree.CopyIsOverlay` | internal/runner/jail.go:155-247 | at every path of the result stands what the source has there, owned by the new uid, else what stood there before; links are copied, special files are not |
| `CopyTree.FitsIffNoClash` | internal/runner/jail.go:172-239 | everything fits if and only if no path has a file or link over a filled directory, or a directory over anything else |
| `CopyTree.FreshJailFits` | internal/runner/jail.go:129-131 | a fresh jail can be seeded if and only if the template has no directory named like the source file |
| `CopyTree.CopiedAgain` | internal/runner/jail.go:164-247 | seeding twice is seeding once |
| `CopyTree.StoppedBetween` | internal/runner/jail.go:169-245 | when one entry fails, every path of the destination is as it was or as the whole copy would have it |
| `CopyTree.CopyEntry` | internal/runner/jail.go:170-244 | one entry succeeds exactly when it fits and changes no other name; it follows a link only where the destination has one |
| `CopyTree.CopyTree` | internal/runner/jail.go:164-247 | the recursive loop, in any directory order: done exactly when everything fits, with the overlay as result; after a failure every path is untouched or finished; a destination without links is never left |
| `ExecAccounting.NoLeafNoKill` | internal/cgroupv2/cgroupv2.go:456-460 | no directory and an empty one total zero |
| `ExecAccounting.LeafAddsItsCount` | internal/cgroupv2/cgroupv2.go:461-479 | one more entry named NSJAIL.x that counts n kills adds exactly n to the total |
| `ExecAccounting.BadLeaves` | internal/cgroupv2/cgroupv2.go:465-477 | one that cannot be read adds nothing, one that cannot be parsed is an error |
| `ExecAccounting.OtherEntries` | internal/cgroupv2/cgroupv2.go:462-464 | an entry of any other name changes nothing |
| `ExecAccounting.OomKills` | internal/cgroupv2/cgroupv2.go:455-481 | the loop, in any directory order, computes that total |
| `ExecAccounting.PollExact` | internal/cgroupv2/cgroupv2.go:489-495 | a full poll marks the exec exactly when kills in its own leaves outnumber the counts lost with vanished leftovers |
| `ExecAccounting.StepInv` | internal/runner/exec.go:102-157 | every step keeps the baseline equal to the leftover counts plus what vanished |
| `ExecAccounting.RunInv` | internal/runner/exec.go:102-157 | the same over any sequence of execs |
| `ExecAccounting.OomAttribution` | internal/runner/exec.go:102-157 | after any history, an exec is marked killed for memory only if a kill happened in one of its own leaves |
| `ExecAccounting.UnreadBaselineBlames` | internal/runner/runner.go:577-587 | the first poll of an exec marks it exactly when a leaf its baseline missed held a kill |
| `ExecAccounting.NeverBlamedIff` | internal/runner/exec.go:102-157 | over all runs after any history, an exec is marked only for kills in its own leaves if and only if its baseline missed no kill |
| `ExecAccounting.InnocentTestBlamed` | internal/runner/runner.go:577-587 | a run from an empty jail after which a test is marked without a kill of its own |
| `ExecAccounting.OneCpuAuthority` | internal/runner/runner.go:405-416 | the finite RLIMIT_CPU is armed exactly for a limit without an active controller, the poller exactly with one and a baseline; never both, and neither only with no limit or an unread baseline |
| `ExecAccounting.Poller` | internal/runner/runner.go:532-567 | over any ticks: at most one kill, at the first reading at or above the limit; the memory flag exactly if some tick saw a kill |
| `ExecAccounting.KilledMeansLimitReached` | internal/runner/runner.go:620-636 | an exec the poller killed is measured at or above its limit, whatever rusage says, if and only if the final usage could be read |
| `ExecAccounting.CpuTimeMeans` | internal/runner/runner.go:620-636 | the time measured is the cgroup delta when both readings are there and in order, and the rusage delta, never negative, in every other case |
| `ExecAccounting.TakeTicks` | internal/runner/runner.go:540-548 | the ticks' memory flags agree with the run of the counters they read |
| `ExecAccounting.FinalCheck` | internal/runner/exec.go:144-157 | the check after `Wait` leaves the flag that one more poll would |
| `ExecAccounting.Watch` | internal/runner/exec.go:108-157 | baseline, ticks and final check: the memory flag is that of the run, and means a kill in this exec's leaves when the baseline missed none |
| `ExecAccounting.ExecJail` | internal/runner/exec.go:102-157 | with the cpu side: at most one kill, only by an armed poller, and then measured at the limit if the usage can be read; without a cgroup neither flag is ever set |
| `Metrics.StepBalanced` | internal/api/metrics.go:41-61 | the totals differ exactly by the records in progress, and never shrink |
| `Metrics.StepInv` | internal/api/metrics.go:41-107 | so do they with snapshots under way, whose partial reads stay below the live counters |
| `Metrics.RunInv` | internal/api/metrics.go:41-107 | the invariant holds in every interleaving |
| `Metrics.TotalsOrdered` | internal/api/metrics.go:41-61 | latencies <= statuses <= runs and errors <= runs, with equality when no record is in progress |
| `Metrics.EveryKeyCounted` | internal/api/metrics.go:41-61 | over any run each run raises its own status key, its own bucket key and, if it failed, the errors once; what is not counted yet is owed by a record in progress |
| `Metrics.QuietCounts` | internal/api/metrics.go:41-61 | with no record in progress every key stands at the number of its runs |
| `Metrics.SnapshotShowsMoments` | internal/api/metrics.go:83-107 | a snapshot shows statuses, latencies, runs and errors each as it was at one moment of the run, in that order |
| `Metrics.SnapshotConsistent` | internal/api/metrics.go:82-107 | every snapshot shows at least as many runs as statuses and as latencies |
| `Metrics.ErrorStep` | internal/api/metrics.go:41-45 | only a run begun after the first load adds to the errors counted or still owed |
| `Metrics.SnapshotErrorsBounded` | internal/api/metrics.go:101-102 | whatever happens between the two loads, a snapshot shows more errors than runs by at most the errors of runs that begin in between |
| `Metrics.SnapshotSafeIff` | internal/api/metrics.go:101-102 | it cannot show more errors than runs for k such errors if and only if at least k of the runs begun by the first load do not fail |
| `Metrics.SnapshotCanShowMoreErrorsThanRuns` | internal/api/metrics.go:98-106 | a run of events after which a snapshot shows one error and no run |
| `Metrics.FindBucket` | internal/api/metrics.go:14-57 | the bucket of every duration, boundary by boundary |
| `Metrics.Counters.RecordRun` | internal/api/metrics.go:41-61 | one undisturbed record adds one to the runs, one status and one latency bucket, and one error if it is one |
| `Metrics.CopyCounts` | internal/api/metrics.go:84-96 | the key-by-key copy equals the map |
| `Response.OutputVerdicts` | internal/runner/runner.go:861-869 | exactly which runs get accepted, whitespace mismatch or wrong output |
| `Response.TestStatusMeans` | internal/runner/runner.go:776-870 | exactly which runs get each of the other verdicts, signal by signal |
| `Response.RunBuild` | internal/runner/runner.go:190-257 | internal error exactly for an infrastructure failure within the deadline, and only then reported as such; ok exactly for a clean build within its deadline |
| `Response.RunSequential` | internal/runner/runner.go:173-182 | one result per test reached, in order, and no list at all if none was reached |
| `Response.RunParallel` | internal/runner/runner.go:134-172 | one slot per requested test, filled independently of the finishing order; tests never started stay unset |
| `Response.ExecuteRun` | internal/runner/runner.go:70-185 | what is returned when the template jail, the build or nothing failed |
| `Response.TopLevelMeans` | internal/api/handlers.go:136-166 | accepted exactly when the build is ok and every test accepted; internal error exactly when the build or some test has it; never unset |
| `Response.TopLevelIsFirst` | internal/api/handlers.go:157-164 | without an internal error the top level is the first status that is not accepted |
| `Response.VerdictMeans` | internal/runner/runner.go:147-169 | a test is an internal error exactly when its exec or its jail failed, and accepted exactly when its exec ended cleanly, in time, with the expected output |
| `Response.BodyDelivers` | internal/api/handlers.go:518-536 | so the body says exactly what the execs of the request say |
| `Response.Respond` | internal/api/handlers.go:471-542 | nothing is written exactly when the client is gone; otherwise which body and which record, with not-executed entries after a failure |
| `Response.NothingCutShort` | internal/runner/runner.go:139-182 | if the context is live when `ExecuteRun` returns, every test was reached and none is cancelled |
| `Response.CompleteIsWellShaped` | internal/api/handlers.go:518-536 | complete results give a body with one valid status per requested test, none cancelled, accepted exactly when everything is |
| `Response.HandleRun` | internal/api/handlers.go:446-557 | from admission to reply, for every context and finishing order: what the body says in terms of how the build and each exec ended, exactly one record, and that it agrees with what the client was told |
| `ProbeCache.EntryOrigin` | internal/api/probes.go:43-52 | every entry was stored by an earlier computing call for the same key |
| `ProbeCache.ReplyFresh` | internal/api/probes.go:43-52 | every reply was computed by this call, or stored for the same key less than one TTL before |
| `ProbeCache.EntryNoOlder` | internal/api/probes.go:43-52 | after a computation the entry for its key never gets older than that store |
| `ProbeCache.ComputationsApart` | internal/api/probes.go:43-52 | two stores for one key are at least one TTL apart |
| `ProbeCache.ComputationBound` | internal/api/probes.go:43-52 | over a span T a key is computed at most 1 + T / TTL times |
| `ProbeCache.Probes.Run` | internal/api/probes.go:43-52 | the method on the entry map is the model's step and reply |

## Left out

- Fairness among waiters of the gate: there is none, since a newcomer may take a freed slot.
- The moment between a waiter's `select` and its mutex section is not a state of its own.
- Remains.CanShareIff: the step that removes the control group lies between the two teardown steps and is not one of its own there; a removal that fails is not a step of the composed system.
- JailLife.Host.Live: directory and group removals that fail leave leftovers to the sweeps, which are not modelled; uids are covered in every case.
- CopyTree.FitsIffNoClash: a directory over a link counts as a clash, also where the link leads to a directory; see the next line.
- CopyTree.CopyEntry: where the copy follows a link out of the destination the model ends, since what it then does happens to another tree; `CopyTree.CopyTree` proves that a jail without links, as a fresh one is, never gets there.
- CopyTree.CopyTree: the umask, read and write errors, hard links and changes to the source during the copy are not modelled.
- RateLimit.RateLimiter.AllowCall: the bucket is a value in the map, not a shared pointer; rounding of floating-point numbers is not modelled.
- RateLimit.FirstRequestPassesIff: rates too large for an int, and infinite ones, are not modelled.
- Seccomp.ParsePolicy: text that is not valid UTF-8 is not modelled; the syscall table is any set of names free of commas, braces, slashes and white space.
- ExecAccounting.OomKills: the 64-bit wrap-around of the kill total and of the cpu limit in microseconds is not modelled; a leaf file is its parsed count.
- ExecAccounting.ExecJail: what the kernel counts as a kill, and when a leaf vanishes, is arbitrary.
- Response.RunBuild: when the parent's cancellation and the deadline fall on the same instant, the cancellation is taken to win.
- Response.HandleRun: panics, the time of the last internal error, output texts and durations are not modelled.
- Sandbox.PoolNeverExhausted: assumes that the pool's range and its size fit an int, as described above.
- The second signal and the server's own connection shutdown around the drain are not modelled.
- `ParseSyscallNames`, exit facts, request validation, limits and flag expansion: flat code that would only add easy members.
- nsjail arguments, mounts, environment, cache directories, cgroup probing, the sweeps, JSON, routing, authentication, logging, the dashboard, the playground and the client: input, output or constants.
