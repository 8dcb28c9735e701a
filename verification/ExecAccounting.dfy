/** What one exec of a jail is charged with: out-of-memory kills read from cumulative cgroup
    counters, and the cpu limit enforced by the poller or by the rlimit. */
module ExecAccounting {
  import opened Common
  import opened Sums

  // ---------------------------------------------------------------- reading the counters

  datatype LeafFile = Unreadable | Garbled | Count(n: nat)

  predicate IsLeaf(name: string) { |name| >= 7 && name[..7] == "NSJAIL." }

  /** The leaves whose counter can be read. */
  function Readable(dir: map<string, LeafFile>): map<string, nat> {
    map n | n in dir && IsLeaf(n) && dir[n].Count? :: dir[n].n
  }

  ghost predicate HasGarbled(dir: map<string, LeafFile>) { exists n :: n in dir && IsLeaf(n) && dir[n].Garbled? }

  type Directory = Option<map<string, LeafFile>>

  /** What a reading of the directory totals; None is an error. */
  ghost function KillTotal(dir: Directory): Option<nat> {
    if dir.None? then Some(0)
    else if HasGarbled(dir.value) then None
    else Some(Sum(Readable(dir.value)))
  }

  lemma LeafNames(name: string, x: string)
    ensures IsLeaf("NSJAIL." + x)
    ensures IsLeaf(name) ==> name == "NSJAIL." + name[7..]
  {
    assert ("NSJAIL." + x)[..7] == "NSJAIL.";
    if IsLeaf(name) { assert name == name[..7] + name[7..]; }
  }

  lemma OtherGarbled(dir: map<string, LeafFile>, name: string, f: LeafFile)
    requires name !in dir
    ensures HasGarbled(dir[name := f]) <==> HasGarbled(dir) || (IsLeaf(name) && f.Garbled?)
  {
    var d := dir[name := f];
    if n :| n in dir && IsLeaf(n) && dir[n].Garbled? { assert n in d && d[n] == dir[n]; }
    if IsLeaf(name) && f.Garbled? { assert d[name].Garbled?; }
  }

  /** No directory and an empty directory hold no kill. */
  lemma NoLeafNoKill()
    ensures KillTotal(None) == Some(0) && KillTotal(Some(map[])) == Some(0)
  {
    assert Readable(map[]) == map[];
  }

  /** A leaf more adds exactly the kills it counts. */
  lemma LeafAddsItsCount(dir: map<string, LeafFile>, x: string, n: nat)
    requires "NSJAIL." + x !in dir
    ensures KillTotal(Some(dir["NSJAIL." + x := Count(n)])) ==
      if KillTotal(Some(dir)).Some? then Some(KillTotal(Some(dir)).value + n) else None
  {
    var name := "NSJAIL." + x;
    LeafNames("", x);
    OtherGarbled(dir, name, Count(n));
    SumInsert(Readable(dir), name, n);
    assert Readable(dir[name := Count(n)]) == Readable(dir)[name := n];
  }

  /** A leaf that cannot be read adds nothing, and one that cannot be parsed spoils the reading. */
  lemma BadLeaves(dir: map<string, LeafFile>, x: string)
    requires "NSJAIL." + x !in dir
    ensures KillTotal(Some(dir["NSJAIL." + x := Unreadable])) == KillTotal(Some(dir))
    ensures KillTotal(Some(dir["NSJAIL." + x := Garbled])) == None
  {
    var name := "NSJAIL." + x;
    LeafNames("", x);
    OtherGarbled(dir, name, Unreadable);
    OtherGarbled(dir, name, Garbled);
    assert Readable(dir[name := Unreadable]) == Readable(dir);
  }

  /** An entry of another name changes nothing, whatever is in it. */
  lemma OtherEntries(dir: map<string, LeafFile>, name: string, f: LeafFile)
    requires name !in dir && forall x :: name != "NSJAIL." + x
    ensures KillTotal(Some(dir[name := f])) == KillTotal(Some(dir))
  {
    LeafNames(name, "");
    OtherGarbled(dir, name, f);
    assert Readable(dir[name := f]) == Readable(dir);
  }

  /** The total kill count of a jail directory, in any directory order. A missing directory, an
      unreadable leaf and an entry that is not a leaf count as nothing; a garbled one is an error. */
  method OomKills(dir: Directory) returns (r: Option<nat>)
    ensures r == KillTotal(dir)
  {
    if dir.None? { return Some(0); }
    var files := dir.value;
    var names, total := files.Keys, 0;
    ghost var counts := Readable(files);
    ghost var seen: map<string, nat> := map[];
    while names != {}
      invariant names <= files.Keys
      invariant seen == counts - names
      invariant total == Sum(seen)
      invariant forall n | n in files && n !in names && IsLeaf(n) :: !files[n].Garbled?
      decreases |names|
    {
      var n :| n in names;
      if IsLeaf(n) && files[n].Garbled? { return None; }
      if IsLeaf(n) && files[n].Count? {
        SumInsert(seen, n, files[n].n);
        seen := seen[n := files[n].n];
        total := total + files[n].n;
      }
      names := names - {n};
    }
    assert seen == counts;
    return Some(total);
  }

  // ---------------------------------------------------------------- one jail, many execs

  type Leaf = string

  /** `counts` holds the kill counters of the leaves that exist, `earlier` the leaves made by earlier
      execs. `lost` is what counters of earlier execs held when their leaves went away. */
  datatype State = State(
    counts: map<Leaf, nat>, earlier: set<Leaf>, baseline: nat, lost: nat, marked: bool, killed: bool)

  datatype Event =
    | Start(unread: set<Leaf>)
    | NewLeaf(l: Leaf)
    | Kill(l: Leaf)
    | Vanish(l: Leaf)
    | Poll(unread: set<Leaf>)

  function Without(m: map<Leaf, nat>, unread: set<Leaf>): map<Leaf, nat> { m - unread }

  ghost function OldCounts(s: State): map<Leaf, nat> { map l | l in s.counts && l in s.earlier :: s.counts[l] }

  ghost function OwnCounts(s: State): map<Leaf, nat> { map l | l in s.counts && l !in s.earlier :: s.counts[l] }

  /** Only the leaves of the current exec can still be killed in; the counters of the others are
      frozen, though their leaves may vanish at any time. */
  predicate Enabled(s: State, e: Event) {
    match e
    case Start(_) => true
    case NewLeaf(l) => l !in s.counts
    case Kill(l) => l in s.counts && l !in s.earlier
    case Vanish(l) => l in s.counts
    case Poll(_) => true
  }

  ghost function Apply(s: State, e: Event): State
    requires Enabled(s, e)
  {
    match e
    case Start(unread) => State(s.counts, s.counts.Keys, Sum(Without(s.counts, unread)), 0, false, false)
    case NewLeaf(l) => s.(counts := s.counts[l := 0], earlier := s.earlier - {l})
    case Kill(l) => s.(counts := s.counts[l := s.counts[l] + 1], killed := true)
    case Vanish(l) =>
      s.(counts := s.counts - {l}, lost := if l in s.earlier then s.lost + s.counts[l] else s.lost)
    case Poll(unread) => s.(marked := s.marked || Sum(Without(s.counts, unread)) > s.baseline)
  }

  /** The baseline accounts for every leftover counter, and counters of this exec are zero until a
      kill happens in one of its leaves. */
  ghost predicate Inv(s: State) {
    && s.baseline == Sum(OldCounts(s)) + s.lost
    && (!s.killed ==> forall l | l in OwnCounts(s) :: OwnCounts(s)[l] == 0)
    && (s.marked ==> s.killed)
  }

  lemma CountsSplit(s: State)
    ensures Sum(s.counts) == Sum(OldCounts(s)) + Sum(OwnCounts(s))
  {
    assert s.counts == OldCounts(s) + OwnCounts(s);
    SumSplit(OldCounts(s), OwnCounts(s));
  }

  /** A poll that can read every leaf marks the exec exactly when the kills seen in its own leaves
      outnumber the counts that vanished with leftover leaves since the baseline. */
  lemma PollExact(s: State)
    requires Inv(s) && !s.marked
    ensures Apply(s, Poll({})).marked <==> Sum(OwnCounts(s)) > s.lost
  {
    CountsSplit(s);
    assert Without(s.counts, {}) == s.counts;
  }

  lemma StepInv(s: State, e: Event)
    requires Inv(s) && Enabled(s, e) && (e.Start? ==> e.unread !! s.counts.Keys)
    ensures Inv(Apply(s, e))
  {
    var t := Apply(s, e);
    match e
    case Start(unread) => StartInv(s, unread);
    case NewLeaf(l) =>
      assert OldCounts(t) == OldCounts(s);
      assert forall k | k in OwnCounts(t) && k != l :: k in OwnCounts(s) && OwnCounts(t)[k] == OwnCounts(s)[k];
    case Kill(l) =>
      assert OldCounts(t) == OldCounts(s);
    case Vanish(l) =>
      assert OldCounts(t) == OldCounts(s) - {l};
      if l in s.earlier { SumRemove(OldCounts(s), l); } else { assert OldCounts(t) == OldCounts(s); }
      assert forall k | k in OwnCounts(t) :: OwnCounts(t)[k] == OwnCounts(s)[k];
    case Poll(unread) =>
      SumSubmap(Without(s.counts, unread), s.counts);
      CountsSplit(s);
      if !s.killed { SumZero(OwnCounts(s)); }
      assert OldCounts(t) == OldCounts(s) && OwnCounts(t) == OwnCounts(s);
  }

  ghost predicate Legal(s: State, es: seq<Event>)
    decreases |es|
  {
    es == [] || (Enabled(s, es[0]) && Legal(Apply(s, es[0]), es[1..]))
  }

  ghost function Exec(s: State, es: seq<Event>): State
    requires Legal(s, es)
    decreases |es|
  {
    if es == [] then s else Exec(Apply(s, es[0]), es[1..])
  }

  /** Every exec of the run took its baseline with all leaves readable. */
  ghost predicate FullBaselines(s: State, es: seq<Event>)
    requires Legal(s, es)
    decreases |es|
  {
    es == [] || ((es[0].Start? ==> es[0].unread !! s.counts.Keys) && FullBaselines(Apply(s, es[0]), es[1..]))
  }

  lemma {:induction false} RunInv(s: State, es: seq<Event>)
    requires Inv(s) && Legal(s, es) && FullBaselines(s, es)
    ensures Inv(Exec(s, es))
    decreases |es|
  {
    if es != [] {
      StepInv(s, es[0]);
      RunInv(Apply(s, es[0]), es[1..]);
    }
  }

  lemma StartInv(s: State, unread: set<Leaf>)
    requires unread !! s.counts.Keys
    ensures Inv(Apply(s, Start(unread)))
  {
    assert Without(s.counts, unread) == s.counts;
    assert OldCounts(Apply(s, Start(unread))) == s.counts;
  }

  /** Over any sequence of execs in one jail, whatever the jail's history, an exec is marked as
      killed for memory only if a kill happened in one of its own leaves. */
  lemma OomAttribution(s: State, unread: set<Leaf>, es: seq<Event>)
    requires unread !! s.counts.Keys
    requires Legal(Apply(s, Start(unread)), es) && FullBaselines(Apply(s, Start(unread)), es)
    ensures Exec(Apply(s, Start(unread)), es).marked ==> Exec(Apply(s, Start(unread)), es).killed
  {
    StartInv(s, unread);
    RunInv(Apply(s, Start(unread)), es);
  }

  /** Without that hypothesis an innocent exec is marked by its first poll exactly when a leaf its
      baseline could not read held a kill. */
  lemma UnreadBaselineBlames(s: State, unread: set<Leaf>)
    ensures Apply(Apply(s, Start(unread)), Poll({})).marked <==>
      exists l :: l in s.counts && l in unread && s.counts[l] > 0
  {
    var seen := Without(s.counts, unread);
    var missed := map l | l in s.counts && l in unread :: s.counts[l];
    assert s.counts == seen + missed;
    SumSplit(seen, missed);
    assert Without(s.counts, {}) == s.counts;
    if l :| l in missed && missed[l] > 0 {
      SumRemove(missed, l);
    } else {
      SumZero(missed);
    }
  }

  ghost predicate NeverBlamed(s: State, unread: set<Leaf>) {
    var t := Apply(s, Start(unread));
    forall es | Legal(t, es) && FullBaselines(t, es) :: Exec(t, es).marked ==> Exec(t, es).killed
  }

  lemma MissedZeroes(s: State, unread: set<Leaf>)
    requires forall l | l in s.counts && l in unread :: s.counts[l] == 0
    ensures Inv(Apply(s, Start(unread)))
  {
    var seen := Without(s.counts, unread);
    var missed := map l | l in s.counts && l in unread :: s.counts[l];
    assert s.counts == seen + missed;
    SumSplit(seen, missed);
    SumZero(missed);
    assert OldCounts(Apply(s, Start(unread))) == s.counts;
  }

  /** Over all runs, whatever the jail's history: an exec is never marked without a kill in one of its
      own leaves exactly when its baseline missed no kill. */
  lemma NeverBlamedIff(s: State, unread: set<Leaf>)
    ensures NeverBlamed(s, unread) <==> forall l | l in s.counts && l in unread :: s.counts[l] == 0
  {
    var t := Apply(s, Start(unread));
    if forall l | l in s.counts && l in unread :: s.counts[l] == 0 {
      MissedZeroes(s, unread);
      forall es | Legal(t, es) && FullBaselines(t, es)
        ensures Exec(t, es).marked ==> Exec(t, es).killed
      {
        RunInv(t, es);
      }
    } else {
      var es := [Poll({})];
      UnreadBaselineBlames(s, unread);
      assert es[1..] == [] && Legal(Apply(t, es[0]), []) && Exec(Apply(t, es[0]), []) == Apply(t, es[0]);
      assert FullBaselines(Apply(t, es[0]), []);
      assert Legal(t, es) && FullBaselines(t, es) && Exec(t, es) == Apply(t, Poll({}));
    }
  }

  const FRESH: State := State(map[], {}, 0, 0, false, false)

  /** A build that is killed for memory leaves its leaf behind; a test whose baseline cannot read that
      leaf is then marked, with no kill of its own. */
  lemma InnocentTestBlamed(l: Leaf)
    ensures var es := [Start({}), NewLeaf(l), Kill(l), Start({l}), Poll({})];
      Legal(FRESH, es) && Exec(FRESH, es).marked && !Exec(FRESH, es).killed
  {
    var s1 := Apply(FRESH, Start({}));
    var s2 := Apply(s1, NewLeaf(l));
    var s3 := Apply(s2, Kill(l));
    UnreadBaselineBlames(s3, {l});
    assert s3.counts[l] == 1;
    var s4 := Apply(s3, Start({l}));
    Unfold(s4, Poll({}), []);
    Unfold(s3, Start({l}), [Poll({})]);
    Unfold(s2, Kill(l), [Start({l}), Poll({})]);
    Unfold(s1, NewLeaf(l), [Kill(l), Start({l}), Poll({})]);
    Unfold(FRESH, Start({}), [NewLeaf(l), Kill(l), Start({l}), Poll({})]);
  }

  lemma Unfold(s: State, e: Event, rest: seq<Event>)
    requires Enabled(s, e) && Legal(Apply(s, e), rest)
    ensures Legal(s, [e] + rest) && Exec(s, [e] + rest) == Exec(Apply(s, e), rest)
  {
    assert ([e] + rest)[1..] == rest;
  }

  // ---------------------------------------------------------------- the cpu limit

  /** One poll: each reading may fail. */
  datatype Tick = Tick(oom: Option<bool>, cpuUS: Option<int>)

  /** The cgroup of a jail, if it has one, and whether its cpu controller is on. */
  datatype Cgroup = NoCgroup | Cgroup(cpuActive: bool)

  predicate CpuActive(cg: Cgroup) { cg.Cgroup? && cg.cpuActive }

  /** The baseline of one exec; a read is attempted only when the controller is on. */
  function BaselineOk(cg: Cgroup, read: Option<int>): bool { CpuActive(cg) && read.Some? }

  predicate RlimitArmed(limit: int, cg: Cgroup) { limit > 0 && !CpuActive(cg) }

  predicate PollerArmed(limit: int, cg: Cgroup, baselineOk: bool) { cg.Cgroup? && limit > 0 && baselineOk }

  /** At most one authority enforces the cpu limit, and none does exactly when there is no limit or
      the controller is on and the baseline could not be read. */
  lemma OneCpuAuthority(limit: int, cg: Cgroup, read: Option<int>)
    ensures RlimitArmed(limit, cg) <==> limit > 0 && cg != Cgroup(true)
    ensures PollerArmed(limit, cg, BaselineOk(cg, read)) <==> limit > 0 && cg == Cgroup(true) && read.Some?
    ensures !(RlimitArmed(limit, cg) && PollerArmed(limit, cg, BaselineOk(cg, read)))
    ensures RlimitArmed(limit, cg) || PollerArmed(limit, cg, BaselineOk(cg, read))
       <==> limit > 0 && (cg != Cgroup(true) || read.Some?)
  {}

  predicate OverLimit(t: Tick, limitUS: int, baselineUS: int) {
    t.cpuUS.Some? && t.cpuUS.value - baselineUS >= limitUS
  }

  ghost predicate FirstOver(ticks: seq<Tick>, k: nat, limitUS: int, baselineUS: int) {
    && k < |ticks| && OverLimit(ticks[k], limitUS, baselineUS)
    && forall i | 0 <= i < k :: !OverLimit(ticks[i], limitUS, baselineUS)
  }

  /** The poll loop over any sequence of ticks. The process is killed at most once, at the first
      tick that reads a usage at or above the limit. */
  method Poller(limitUS: int, baselineUS: int, baselineOk: bool, ticks: seq<Tick>)
    returns (oomKilled: bool, cpuKilled: bool, kills: seq<nat>)
    ensures oomKilled <==> exists i :: 0 <= i < |ticks| && ticks[i].oom == Some(true)
    ensures cpuKilled <==> limitUS > 0 && baselineOk && exists i ::
      0 <= i < |ticks| && ticks[i].cpuUS.Some? && ticks[i].cpuUS.value - baselineUS >= limitUS
    ensures |kills| == if cpuKilled then 1 else 0
    ensures cpuKilled ==> FirstOver(ticks, kills[0], limitUS, baselineUS)
  {
    oomKilled, cpuKilled, kills := false, false, [];
    for i := 0 to |ticks|
      invariant oomKilled <==> exists j :: 0 <= j < i && ticks[j].oom == Some(true)
      invariant cpuKilled <==>
        limitUS > 0 && baselineOk && exists j :: 0 <= j < i && OverLimit(ticks[j], limitUS, baselineUS)
      invariant |kills| == if cpuKilled then 1 else 0
      invariant cpuKilled ==> FirstOver(ticks, kills[0], limitUS, baselineUS)
    {
      var t := ticks[i];
      if t.oom == Some(true) { oomKilled := true; }
      if limitUS <= 0 || !baselineOk { continue; }
      if t.cpuUS.None? || t.cpuUS.value - baselineUS < limitUS { continue; }
      if !cpuKilled {
        cpuKilled := true;
        kills := kills + [i];
      }
    }
  }

  /** The measured cpu time: the cgroup delta when it can be had, else the rusage delta. */
  function CpuTimeUS(cg: Cgroup, baselineUS: int, baselineOk: bool, final: Option<int>, before: int,
      after: int): (us: int)
    ensures us >= 0
  {
    if CpuActive(cg) && baselineOk && final.Some? && final.value >= baselineUS then final.value - baselineUS
    else if after >= before then after - before
    else 0
  }

  /** The time measured: what the cgroup counted since the baseline if both readings are there and in order,
      and the rusage delta, never negative, in every other case. */
  lemma CpuTimeMeans(cg: Cgroup, read: Option<int>, final: Option<int>, before: int, after: int)
    ensures var us := CpuTimeUS(cg, if read.Some? then read.value else 0, BaselineOk(cg, read), final, before, after);
      && (cg == Cgroup(true) && read.Some? && final.Some? && read.value <= final.value ==>
            read.value + us == final.value)
      && (cg != Cgroup(true) || read.None? || final.None? || final.value < read.value ==>
            (before <= after ==> before + us == after) && (after < before ==> us == 0))
  {}

  /** No reading of the usage counter during the exec exceeds the final one: the counter only grows. */
  ghost predicate UpTo(ticks: seq<Tick>, final: int) {
    forall i | 0 <= i < |ticks| && ticks[i].cpuUS.Some? :: ticks[i].cpuUS.value <= final
  }

  /** What the poller's kill says about the measured time, from what the poller promises: it is at or
      above the limit, whatever the rusage says, exactly when the counter could be read again at the end. */
  lemma KilledMeansLimitReached(limitUS: int, cg: Cgroup, read: Option<int>, ticks: seq<Tick>, kills: seq<nat>,
      final: Option<int>)
    requires limitUS > 0 && BaselineOk(cg, read)
    requires |kills| == 1 && FirstOver(ticks, kills[0], limitUS, read.value)
    requires final.Some? ==> UpTo(ticks, final.value)
    ensures final.Some? <==> forall before, after :: CpuTimeUS(cg, read.value, true, final, before, after) >= limitUS
  {
    if final.None? { assert CpuTimeUS(cg, read.value, true, final, 0, 0) == 0; }
  }

  // ---------------------------------------------------------------- one exec from start to end

  /** What happens while the exec runs, as the poller sees it: the world moves, or a tick reads the jail
      directory and the usage counter. */
  datatype Moment = World(e: Event) | Polled(dir: Directory, cpuUS: Option<int>)

  predicate Reads(dir: map<string, LeafFile>, n: string) { n in dir && IsLeaf(n) && dir[n].Count? }

  /** A reading may miss leaves; what it does read is the count. */
  ghost predicate Shows(dir: Directory, counts: map<Leaf, nat>) {
    dir.Some? ==> forall n | n in dir.value && Reads(dir.value, n) :: n in counts && counts[n] == dir.value[n].n
  }

  /** The leaves that a reading of the directory does not account for; all, if it fails. */
  ghost function Missed(dir: Directory, counts: map<Leaf, nat>): set<Leaf> {
    if dir.None? || HasGarbled(dir.value) then counts.Keys else set l | l in counts && !Reads(dir.value, l)
  }

  ghost function EventOf(m: Moment, s: State): Event {
    match m
    case World(e) => e
    case Polled(dir, _) => Poll(Missed(dir, s.counts))
  }

  ghost predicate Observed(s: State, ms: seq<Moment>)
    decreases |ms|
  {
    ms == [] ||
    (&& Enabled(s, EventOf(ms[0], s))
     && (match ms[0] case World(e) => !e.Start? && !e.Poll? case Polled(dir, _) => Shows(dir, s.counts))
     && Observed(Apply(s, EventOf(ms[0], s)), ms[1..]))
  }

  ghost function AfterMoments(s: State, ms: seq<Moment>): State
    requires Observed(s, ms)
    decreases |ms|
  {
    if ms == [] then s else AfterMoments(Apply(s, EventOf(ms[0], s)), ms[1..])
  }

  /** What OomKills reports is the sum over the leaves a reading accounts for. */
  lemma ReadingSum(dir: Directory, counts: map<Leaf, nat>)
    requires Shows(dir, counts) && dir.Some? && !HasGarbled(dir.value)
    ensures Sum(Readable(dir.value)) == Sum(Without(counts, Missed(dir, counts)))
  {
    assert Readable(dir.value) == Without(counts, Missed(dir, counts));
  }

  lemma NothingRead(dir: Directory, counts: map<Leaf, nat>)
    requires dir.None? || HasGarbled(dir.value)
    ensures Sum(Without(counts, Missed(dir, counts))) == 0
  {
    assert Without(counts, Missed(dir, counts)) == map[];
  }

  /** The total a reading stands for. */
  method ReadTotal(dir: Directory, ghost counts: map<Leaf, nat>) returns (r: Option<nat>)
    requires Shows(dir, counts)
    ensures (if r.Some? then r.value else 0) == Sum(Without(counts, Missed(dir, counts)))
  {
    r := OomKills(dir);
    if dir.Some? && r.Some? { ReadingSum(dir, counts); } else { NothingRead(dir, counts); }
  }

  predicate SawKill(ticks: seq<Tick>) { exists k :: 0 <= k < |ticks| && ticks[k].oom == Some(true) }

  lemma SawKillAppend(ticks: seq<Tick>, tick: Tick)
    ensures SawKill(ticks + [tick]) <==> SawKill(ticks) || tick.oom == Some(true)
  {
    var more := ticks + [tick];
    if k :| 0 <= k < |ticks| && ticks[k].oom == Some(true) { assert more[k].oom == Some(true); }
    if tick.oom == Some(true) { assert more[|ticks|].oom == Some(true); }
  }

  /** Tick k carries the usage read at moment from[k]. */
  ghost predicate TicksFrom(ms: seq<Moment>, ticks: seq<Tick>, from: seq<nat>) {
    |from| == |ticks| && forall k | 0 <= k < |ticks| ::
      from[k] < |ms| && ms[from[k]].Polled? && ms[from[k]].cpuUS == ticks[k].cpuUS
  }

  /** The ticks of one exec: the memory flag of a tick compares the total it reads with the baseline. */
  method TakeTicks(oomBase: nat, ms: seq<Moment>, ghost s: State) returns (ticks: seq<Tick>, ghost from: seq<nat>)
    requires Observed(s, ms) && s.baseline == oomBase && !s.marked
    ensures SawKill(ticks) == AfterMoments(s, ms).marked && AfterMoments(s, ms).baseline == oomBase
    ensures Inv(s) ==> Inv(AfterMoments(s, ms))
    ensures TicksFrom(ms, ticks, from)
  {
    ticks, from := [], [];
    ghost var t := s;
    assert ms[0..] == ms;
    for i := 0 to |ms|
      invariant Observed(t, ms[i..]) && AfterMoments(t, ms[i..]) == AfterMoments(s, ms)
      invariant t.baseline == oomBase && (Inv(s) ==> Inv(t))
      invariant t.marked <==> SawKill(ticks)
      invariant TicksFrom(ms, ticks, from)
    {
      assert ms[i..][0] == ms[i] && ms[i..][1..] == ms[i + 1..];
      if ms[i].Polled? {
        var total := ReadTotal(ms[i].dir, t.counts);
        var tick := Tick(if total.Some? then Some(total.value > oomBase) else None, ms[i].cpuUS);
        SawKillAppend(ticks, tick);
        ticks, from := ticks + [tick], from + [i];
      }
      if Inv(t) { StepInv(t, EventOf(ms[i], t)); }
      t := Apply(t, EventOf(ms[i], t));
    }
  }

  ghost predicate UsageUpTo(ms: seq<Moment>, final: int) {
    forall i | 0 <= i < |ms| && ms[i].Polled? && ms[i].cpuUS.Some? :: ms[i].cpuUS.value <= final
  }

  /** The state of the counters when the exec ends. */
  ghost function AtEnd(s: State, base: Directory, ms: seq<Moment>): State
    requires Observed(Apply(s, Start(Missed(base, s.counts))), ms)
  {
    AfterMoments(Apply(s, Start(Missed(base, s.counts))), ms)
  }

  /** The final check after Wait: the memory flag is the one a last poll leaves, and it means a kill in a
      leaf of this exec if the invariant holds. */
  method FinalCheck(oomBase: nat, polled: bool, last: Directory, ghost t: State) returns (oomKilled: bool)
    requires Shows(last, t.counts) && t.baseline == oomBase && t.marked == polled
    ensures oomKilled == Apply(t, Poll(Missed(last, t.counts))).marked
    ensures Inv(t) && oomKilled ==> t.killed
  {
    var final := ReadTotal(last, t.counts);
    oomKilled := polled || (final.Some? && final.value > oomBase);
    if Inv(t) { StepInv(t, Poll(Missed(last, t.counts))); }
  }

  /** Killed at the limit, and the usage read again: what is measured is at least the limit. */
  lemma MeasuredAtLimit(limitUS: int, cg: Cgroup, read: Option<int>, ms: seq<Moment>, ticks: seq<Tick>, from: seq<nat>,
                        kills: seq<nat>, final: int, before: int, after: int)
    requires limitUS > 0 && BaselineOk(cg, read) && TicksFrom(ms, ticks, from) && UsageUpTo(ms, final)
    requires |kills| == 1 && FirstOver(ticks, kills[0], limitUS, read.value)
    ensures CpuTimeUS(cg, read.value, true, Some(final), before, after) >= limitUS
  {
    assert UpTo(ticks, final);
    KilledMeansLimitReached(limitUS, cg, read, ticks, kills, Some(final));
  }

  /** The baseline of this exec missed no kill of an earlier one. */
  ghost predicate MissedNone(s: State, base: Directory) {
    forall l | l in s.counts && l in Missed(base, s.counts) :: s.counts[l] == 0
  }

  /** The memory side of one exec: baseline, ticks and final check, around the poller. */
  method Watch(base: Directory, ms: seq<Moment>, last: Directory, limitUS: int, baselineUS: int, ok: bool,
      ghost s: State)
    returns (oomKilled: bool, cpuKilled: bool, kills: seq<nat>, ticks: seq<Tick>, ghost from: seq<nat>)
    requires Shows(base, s.counts)
    requires Observed(Apply(s, Start(Missed(base, s.counts))), ms) && Shows(last, AtEnd(s, base, ms).counts)
    ensures var t := AtEnd(s, base, ms); oomKilled == Apply(t, Poll(Missed(last, t.counts))).marked
    ensures oomKilled && MissedNone(s, base) ==> AtEnd(s, base, ms).killed
    ensures TicksFrom(ms, ticks, from)
    ensures |kills| == if cpuKilled then 1 else 0
    ensures cpuKilled ==> limitUS > 0 && ok && FirstOver(ticks, kills[0], limitUS, baselineUS)
  {
    if MissedNone(s, base) { MissedZeroes(s, Missed(base, s.counts)); }
    var baseline := ReadTotal(base, s.counts);
    var oomBase := if baseline.Some? then baseline.value else 0;
    ticks, from := TakeTicks(oomBase, ms, Apply(s, Start(Missed(base, s.counts))));
    var polled;
    polled, cpuKilled, kills := Poller(limitUS, baselineUS, ok, ticks);
    assert polled == SawKill(ticks);
    oomKilled := FinalCheck(oomBase, polled, last, AtEnd(s, base, ms));
  }

  /** One exec: baselines, ticks, the check after Wait and the measured time. The memory flag is what the
      run of the counters says, so it means a kill in a leaf of this exec if the baseline missed none.
      The process is killed at most once, and is then measured at the limit or above if the usage could
      be read at the end. Without a cgroup nothing is polled and neither flag is ever set. */
  method ExecJail(cg: Cgroup, limitUS: int, base: Directory, cpuRead: Option<int>, ms: seq<Moment>, last: Directory,
                  cpuFinal: Option<int>, before: int, after: int, ghost s: State)
    returns (oomKilled: bool, cpuKilled: bool, kills: seq<nat>, cpuUS: int)
    requires cg.Cgroup? ==>
      && Shows(base, s.counts) && Observed(Apply(s, Start(Missed(base, s.counts))), ms)
      && Shows(last, AtEnd(s, base, ms).counts)
    ensures cg.NoCgroup? ==> !oomKilled && !cpuKilled
    ensures cg.Cgroup? ==> var t := AtEnd(s, base, ms); oomKilled == Apply(t, Poll(Missed(last, t.counts))).marked
    ensures cg.Cgroup? && oomKilled && MissedNone(s, base) ==> AtEnd(s, base, ms).killed
    ensures |kills| == if cpuKilled then 1 else 0
    ensures cpuKilled ==> PollerArmed(limitUS, cg, BaselineOk(cg, cpuRead))
    ensures cpuKilled && cpuFinal.Some? && UsageUpTo(ms, cpuFinal.value) ==> cpuUS >= limitUS
  {
    var ok := BaselineOk(cg, cpuRead);
    var baselineUS := if ok then cpuRead.value else 0;
    cpuUS := CpuTimeUS(cg, baselineUS, ok, cpuFinal, before, after);
    if cg.NoCgroup? { return false, false, [], cpuUS; }
    var ticks;
    ghost var from;
    oomKilled, cpuKilled, kills, ticks, from := Watch(base, ms, last, limitUS, baselineUS, ok, s);
    if cpuKilled && cpuFinal.Some? && UsageUpTo(ms, cpuFinal.value) {
      MeasuredAtLimit(limitUS, cg, cpuRead, ms, ticks, from, kills, cpuFinal.value, before, after);
    }
  }
}
