/** The per-IP token bucket. Times are real seconds and tokens are reals: rounding is not modelled. */
module RateLimit {
  import opened Common

  datatype Config = Config(rps: real, burst: int)

  datatype Bucket = Bucket(tokens: real, lastRef: real)

  type Buckets = map<string, Bucket>

  const IDLE_TTL: real := 600.0

  datatype Call = Call(ip: string, at: real)

  /** The configuration from the two environment values; None is a disabled limiter. */
  function LoadRateLimit(rps: Option<real>, burst: Option<int>): Option<Config> {
    if rps.None? || rps.value <= 0.0 then None
    else Some(Config(rps.value, if burst.Some? && burst.value > 0 then burst.value else rps.value.Floor * 2))
  }

  // ---------------------------------------------------------------- one call

  /** The tokens earned in d seconds. */
  function Accrued(cfg: Config, d: real): real { cfg.rps * d }

  function Refill(cfg: Config, b: Bucket, now: real): Bucket {
    if now - b.lastRef > 0.0 then
      var t := b.tokens + Accrued(cfg, now - b.lastRef);
      Bucket(if t > cfg.burst as real then cfg.burst as real else t, now)
    else b
  }

  function Serve(cfg: Config, bs: Buckets, ip: string, now: real): (Buckets, bool) {
    var b := if ip in bs then bs[ip] else Bucket(cfg.burst as real, now);
    var r := Refill(cfg, b, now);
    if r.tokens < 1.0 then (bs[ip := r], false) else (bs[ip := r.(tokens := r.tokens - 1.0)], true)
  }

  predicate Stale(b: Bucket, now: real) { now - b.lastRef > IDLE_TTL }

  function Prune(bs: Buckets, now: real): Buckets { map k | k in bs && !Stale(bs[k], now) :: bs[k] }

  /** The limiter: prune, then serve. With `pruning` off it is the limiter that never forgets. */
  function Allow(cfg: Config, pruning: bool, bs: Buckets, c: Call): (Buckets, bool) {
    Serve(cfg, if pruning then Prune(bs, c.at) else bs, c.ip, c.at)
  }

  // ---------------------------------------------------------------- runs

  predicate Sorted(calls: seq<Call>, from: real) {
    calls == [] || (from <= calls[0].at && Sorted(calls[1..], calls[0].at))
  }

  function Answers(cfg: Config, pruning: bool, bs: Buckets, calls: seq<Call>): (r: seq<bool>)
    ensures |r| == |calls|
    decreases |calls|
  {
    if calls == [] then []
    else
      var (next, ok) := Allow(cfg, pruning, bs, calls[0]);
      [ok] + Answers(cfg, pruning, next, calls[1..])
  }

  function After(cfg: Config, pruning: bool, bs: Buckets, calls: seq<Call>): Buckets
    decreases |calls|
  {
    if calls == [] then bs else After(cfg, pruning, Allow(cfg, pruning, bs, calls[0]).0, calls[1..])
  }

  /** How many of the calls for ip were allowed. */
  function Allowed(calls: seq<Call>, answers: seq<bool>, ip: string): nat
    requires |calls| == |answers|
  {
    if calls == [] then 0
    else (if calls[0].ip == ip && answers[0] then 1 else 0) + Allowed(calls[1..], answers[1..], ip)
  }

  // ---------------------------------------------------------------- token bounds

  ghost predicate BucketOk(cfg: Config, b: Bucket, now: real) {
    0.0 <= b.tokens <= cfg.burst as real && b.lastRef <= now
  }

  ghost predicate Valid(cfg: Config, bs: Buckets, now: real) {
    cfg.rps >= 0.0 && cfg.burst >= 0 && forall k | k in bs :: BucketOk(cfg, bs[k], now)
  }

  lemma RefillOk(cfg: Config, b: Bucket, now: real)
    requires cfg.rps >= 0.0 && cfg.burst >= 0 && 0.0 <= b.tokens <= cfg.burst as real && b.lastRef <= now
    ensures BucketOk(cfg, Refill(cfg, b, now), now)
    ensures Refill(cfg, b, now).lastRef == now
    ensures Refill(cfg, b, now).tokens <= b.tokens + Accrued(cfg, now - b.lastRef)
  {
    AccruedNonNegative(cfg, now - b.lastRef);
  }

  lemma AccruedNonNegative(cfg: Config, d: real)
    requires cfg.rps >= 0.0 && d >= 0.0
    ensures Accrued(cfg, d) >= 0.0
  {}

  lemma HarmlessMeans(cfg: Config)
    ensures PruningHarmless(cfg) <==> cfg.rps * 600.0 >= cfg.burst as real
  {}

  lemma AccruedAdds(cfg: Config, a: real, b: real)
    ensures Accrued(cfg, a + b) == Accrued(cfg, a) + Accrued(cfg, b)
  {}

  lemma AllowValid(cfg: Config, pruning: bool, bs: Buckets, c: Call, now: real)
    requires Valid(cfg, bs, now) && now <= c.at
    ensures Valid(cfg, Allow(cfg, pruning, bs, c).0, c.at)
  {
    var b := if c.ip in bs && !(pruning && Stale(bs[c.ip], c.at)) then bs[c.ip] else Bucket(cfg.burst as real, c.at);
    RefillOk(cfg, b, c.at);
  }

  /** Tokens stay between zero and the burst in every run. */
  lemma {:induction false} TokensBounded(cfg: Config, pruning: bool, bs: Buckets, calls: seq<Call>, now: real)
    requires Valid(cfg, bs, now) && Sorted(calls, now)
    ensures forall k | k in After(cfg, pruning, bs, calls) ::
      0.0 <= After(cfg, pruning, bs, calls)[k].tokens <= cfg.burst as real
    decreases |calls|
  {
    if calls != [] {
      AllowValid(cfg, pruning, bs, calls[0], now);
      TokensBounded(cfg, pruning, Allow(cfg, pruning, bs, calls[0]).0, calls[1..], calls[0].at);
    }
  }

  // ---------------------------------------------------------------- pruning is a refinement

  /** Forgetting a bucket is harmless if it is full again by the time it may be forgotten. */
  ghost predicate PruningHarmless(cfg: Config) { Accrued(cfg, IDLE_TTL) >= cfg.burst as real }

  /** The pruned map agrees with the full one, except on buckets that have been idle long enough. */
  ghost predicate Refines(p: Buckets, u: Buckets, now: real) {
    && (forall k | k in p :: k in u && u[k] == p[k])
    && (forall k | k in u && k !in p :: Stale(u[k], now))
  }

  lemma StaleRefillsFully(cfg: Config, b: Bucket, now: real)
    requires cfg.rps >= 0.0 && cfg.burst >= 0 && PruningHarmless(cfg) && b.tokens >= 0.0 && Stale(b, now)
    ensures Refill(cfg, b, now) == Bucket(cfg.burst as real, now)
  {
    var d := now - b.lastRef;
    AccruedNonNegative(cfg, d - IDLE_TTL);
    AccruedAdds(cfg, IDLE_TTL, d - IDLE_TTL);
  }

  lemma AllowRefines(cfg: Config, p: Buckets, u: Buckets, c: Call, now: real)
    requires Valid(cfg, u, now) && PruningHarmless(cfg) && Refines(p, u, now) && now <= c.at
    ensures Allow(cfg, true, p, c).1 == Allow(cfg, false, u, c).1
    ensures Refines(Allow(cfg, true, p, c).0, Allow(cfg, false, u, c).0, c.at)
  {
    var pruned := Prune(p, c.at);
    assert Refines(pruned, u, c.at);
    if c.ip in u && c.ip !in pruned {
      StaleRefillsFully(cfg, u[c.ip], c.at);
    }
  }

  lemma {:induction false} RefinementRun(cfg: Config, p: Buckets, u: Buckets, calls: seq<Call>, now: real)
    requires Valid(cfg, u, now) && PruningHarmless(cfg) && Refines(p, u, now) && Sorted(calls, now)
    ensures Answers(cfg, true, p, calls) == Answers(cfg, false, u, calls)
    decreases |calls|
  {
    if calls != [] {
      AllowRefines(cfg, p, u, calls[0], now);
      AllowValid(cfg, false, u, calls[0], now);
      RefinementRun(cfg, Allow(cfg, true, p, calls[0]).0, Allow(cfg, false, u, calls[0]).0, calls[1..], calls[0].at);
    }
  }

  /** With rps * 600 >= burst the pruning limiter answers every sequence of calls as the limiter
      that never deletes a bucket. */
  lemma PruningRefines(cfg: Config, p: Buckets, u: Buckets, calls: seq<Call>, now: real)
    requires Valid(cfg, u, now) && cfg.rps * 600.0 >= cfg.burst as real && Refines(p, u, now) && Sorted(calls, now)
    ensures Answers(cfg, true, p, calls) == Answers(cfg, false, u, calls)
  {
    HarmlessMeans(cfg);
    RefinementRun(cfg, p, u, calls, now);
  }

  // ---------------------------------------------------------------- the sliding window

  /** What ip could spend at time t. */
  function Level(cfg: Config, bs: Buckets, ip: string, t: real): real {
    if ip in bs then Refill(cfg, bs[ip], t).tokens else cfg.burst as real
  }

  /** n requests in d seconds are within the burst and the sustained rate. */
  ghost predicate WithinBudget(cfg: Config, n: nat, d: real) { n as real <= cfg.burst as real + Accrued(cfg, d) }

  /** Waiting raises the level by at most the refill rate, and never above the burst. */
  lemma LevelGrows(cfg: Config, bs: Buckets, ip: string, now: real, t: real)
    requires Valid(cfg, bs, now) && now <= t
    ensures 0.0 <= Level(cfg, bs, ip, now)
    ensures Level(cfg, bs, ip, t) <= cfg.burst as real
    ensures Level(cfg, bs, ip, t) <= Level(cfg, bs, ip, now) + Accrued(cfg, t - now)
  {
    AccruedNonNegative(cfg, t - now);
    if ip in bs {
      RefillOk(cfg, bs[ip], now);
      RefillOk(cfg, bs[ip], t);
      AccruedAdds(cfg, now - bs[ip].lastRef, t - now);
      AccruedNonNegative(cfg, now - bs[ip].lastRef);
    }
  }

  function Spent(c: Call, ok: bool, ip: string): real { if c.ip == ip && ok then 1.0 else 0.0 }

  /** An allowed call takes exactly one token off its caller's level, and nothing off anyone else's. */
  lemma ServeSpends(cfg: Config, bs: Buckets, c: Call, ip: string, now: real)
    requires Valid(cfg, bs, now) && now <= c.at
    ensures var (next, ok) := Allow(cfg, false, bs, c);
      Level(cfg, next, ip, c.at) == Level(cfg, bs, ip, c.at) - Spent(c, ok, ip)
  {
    if c.ip == ip && ip in bs { RefillOk(cfg, bs[ip], c.at); }
  }

  lemma {:induction false} SpendingWithin(cfg: Config, bs: Buckets, calls: seq<Call>, ip: string, now: real, end: real)
    requires Valid(cfg, bs, now) && Sorted(calls, now) && now <= end
    requires calls != [] ==> calls[|calls| - 1].at <= end
    ensures Allowed(calls, Answers(cfg, false, bs, calls), ip) as real <=
      Level(cfg, bs, ip, now) + Accrued(cfg, end - now)
    decreases |calls|
  {
    if calls == [] {
      AccruedNonNegative(cfg, end - now);
      LevelGrows(cfg, bs, ip, now, now);
    } else {
      var c, rest := calls[0], calls[1..];
      var next := Allow(cfg, false, bs, c).0;
      SortedEnd(calls, now);
      AllowValid(cfg, false, bs, c, now);
      SpendingWithin(cfg, next, rest, ip, c.at, end);
      SpendingStep(cfg, bs, c, ip, now, end, Allowed(rest, Answers(cfg, false, next, rest), ip));
      assert Answers(cfg, false, bs, calls)[1..] == Answers(cfg, false, next, rest);
    }
  }

  /** What ip is allowed until a later time is at most what it could spend now and earns until then. */
  lemma SpendingBound(cfg: Config, bs: Buckets, calls: seq<Call>, ip: string, now: real, end: real)
    requires Valid(cfg, bs, now) && Sorted(calls, now) && now <= end
    requires calls != [] ==> calls[|calls| - 1].at <= end
    ensures AtMost(cfg, Allowed(calls, Answers(cfg, false, bs, calls), ip), Level(cfg, bs, ip, now), end - now)
  {
    SpendingWithin(cfg, bs, calls, ip, now, end);
    AtMostMeans(cfg, Allowed(calls, Answers(cfg, false, bs, calls), ip), Level(cfg, bs, ip, now), end - now);
  }

  /** n requests are no more than what was there and what is earned in d seconds at the configured rate. */
  ghost predicate AtMost(cfg: Config, n: nat, start: real, d: real) { n as real <= start + cfg.rps * d }

  lemma AtMostMeans(cfg: Config, n: nat, start: real, d: real)
    ensures n as real <= start + Accrued(cfg, d) <==> AtMost(cfg, n, start, d)
  {}

  lemma SpendingStep(cfg: Config, bs: Buckets, c: Call, ip: string, now: real, end: real, later: nat)
    requires Valid(cfg, bs, now) && now <= c.at <= end
    requires later as real <= Level(cfg, Allow(cfg, false, bs, c).0, ip, c.at) + Accrued(cfg, end - c.at)
    ensures later as real + Spent(c, Allow(cfg, false, bs, c).1, ip) <=
      Level(cfg, bs, ip, now) + Accrued(cfg, end - now)
  {
    ServeSpends(cfg, bs, c, ip, now);
    LevelGrows(cfg, bs, ip, now, c.at);
    AccruedAdds(cfg, c.at - now, end - c.at);
  }

  lemma {:induction false} SortedEnd(calls: seq<Call>, from: real)
    requires Sorted(calls, from) && calls != []
    ensures from <= calls[0].at <= calls[|calls| - 1].at
    decreases |calls|
  {
    if |calls| > 1 { SortedEnd(calls[1..], calls[0].at); }
  }

  // ---------------------------------------------------------------- who is allowed

  function Min(a: real, b: real): real { if a < b then a else b }

  /** What the caller has to spend, by the configured rate: a full burst if it is new or was idle for more
      than 600 seconds, else what was left and what it has earned since. */
  function Purchasing(cfg: Config, bs: Buckets, c: Call): real {
    if c.ip !in bs || c.at - bs[c.ip].lastRef > 600.0 then cfg.burst as real
    else if c.at <= bs[c.ip].lastRef then bs[c.ip].tokens
    else Due(cfg, bs[c.ip], c.at)
  }

  /** The configured rate times the time that has passed. */
  function Earned(cfg: Config, from: real, to: real): real { cfg.rps * (to - from) }

  lemma EarnedIs(cfg: Config, from: real, to: real)
    ensures Accrued(cfg, to - from) == Earned(cfg, from, to)
  {}

  /** What was left and what has been earned since, up to the burst. */
  function Due(cfg: Config, b: Bucket, now: real): real {
    Min(cfg.burst as real, b.tokens + Earned(cfg, b.lastRef, now))
  }

  lemma RefillGives(cfg: Config, b: Bucket, now: real)
    ensures Refill(cfg, b, now).tokens == if now <= b.lastRef then b.tokens else Due(cfg, b, now)
  {
    EarnedIs(cfg, b.lastRef, now);
  }

  /** A call is allowed exactly when that is at least one; it then costs one, a refused call nothing. The
      other clients that were not idle for more than 600 seconds keep their buckets. */
  lemma AllowedExactly(cfg: Config, bs: Buckets, c: Call)
    ensures var (next, ok) := Allow(cfg, true, bs, c);
      && (ok <==> Purchasing(cfg, bs, c) >= 1.0)
      && c.ip in next && next[c.ip].tokens == Purchasing(cfg, bs, c) - (if ok then 1.0 else 0.0)
      && (forall k | k != c.ip :: k in next <==> k in bs && c.at - bs[k].lastRef <= 600.0)
      && (forall k | k != c.ip && k in next :: next[k] == bs[k])
  {
    var p := Prune(bs, c.at);
    assert c.ip in p <==> c.ip in bs && c.at - bs[c.ip].lastRef <= 600.0;
    if c.ip in p { RefillGives(cfg, bs[c.ip], c.at); }
  }

  /** The calls of a client that keeps the configured pace: each at least 1 / rps after the one before. */
  predicate Paced(cfg: Config, calls: seq<Call>, ip: string) {
    && (forall i | 0 <= i < |calls| :: calls[i].ip == ip)
    && (forall i | 0 <= i < |calls| - 1 :: KeepsPace(cfg, calls[i].at, calls[i + 1].at))
  }

  predicate KeepsPace(cfg: Config, before: real, now: real) { Earned(cfg, before, now) >= 1.0 }

  lemma NothingEarlier(cfg: Config, from: real, to: real)
    requires cfg.rps > 0.0 && to <= from
    ensures Earned(cfg, from, to) <= 0.0
  {}

  lemma EarnsOnlyLater(cfg: Config, from: real, to: real)
    requires cfg.rps > 0.0 && Earned(cfg, from, to) >= 1.0
    ensures to > from
  {
    if to <= from { NothingEarlier(cfg, from, to); }
  }

  lemma PacedCall(cfg: Config, bs: Buckets, c: Call)
    requires cfg.rps > 0.0 && cfg.burst >= 1
    requires c.ip in bs ==> bs[c.ip].tokens >= 0.0 && KeepsPace(cfg, bs[c.ip].lastRef, c.at)
    ensures Allow(cfg, true, bs, c).1
    ensures var next := Allow(cfg, true, bs, c).0;
      c.ip in next && next[c.ip].tokens >= 0.0 && next[c.ip].lastRef == c.at
  {
    PacedPurchase(cfg, bs, c);
    AllowedExactly(cfg, bs, c);
    Touches(cfg, bs, c);
  }

  lemma DueWhenPaced(cfg: Config, b: Bucket, now: real)
    requires cfg.rps > 0.0 && cfg.burst >= 1 && b.tokens >= 0.0 && KeepsPace(cfg, b.lastRef, now)
    ensures now > b.lastRef && Due(cfg, b, now) >= 1.0
  {
    EarnsOnlyLater(cfg, b.lastRef, now);
  }

  lemma PacedPurchase(cfg: Config, bs: Buckets, c: Call)
    requires cfg.rps > 0.0 && cfg.burst >= 1
    requires c.ip in bs ==> bs[c.ip].tokens >= 0.0 && KeepsPace(cfg, bs[c.ip].lastRef, c.at)
    ensures Purchasing(cfg, bs, c) >= 1.0 && (c.ip in bs ==> c.at > bs[c.ip].lastRef)
  {
    if c.ip in bs { DueWhenPaced(cfg, bs[c.ip], c.at); }
  }

  lemma Touches(cfg: Config, bs: Buckets, c: Call)
    requires c.ip in bs ==> c.at > bs[c.ip].lastRef
    ensures var next := Allow(cfg, true, bs, c).0; c.ip in next && next[c.ip].lastRef == c.at
  {}

  lemma PacedTail(cfg: Config, calls: seq<Call>, ip: string)
    requires Paced(cfg, calls, ip) && calls != []
    ensures calls[0].ip == ip && Paced(cfg, calls[1..], ip)
    ensures |calls| > 1 ==> KeepsPace(cfg, calls[0].at, calls[1..][0].at)
  {
    var rest := calls[1..];
    forall i | 0 <= i < |rest| - 1 ensures KeepsPace(cfg, rest[i].at, rest[i + 1].at) {
      assert KeepsPace(cfg, calls[i + 1].at, calls[i + 1 + 1].at);
    }
  }

  /** The other half of the bound: a client that keeps the pace is never refused. */
  lemma {:induction false} PacedNeverRefused(cfg: Config, bs: Buckets, calls: seq<Call>, ip: string)
    requires cfg.rps > 0.0 && cfg.burst >= 1 && Paced(cfg, calls, ip)
    requires ip in bs && calls != [] ==> bs[ip].tokens >= 0.0 && KeepsPace(cfg, bs[ip].lastRef, calls[0].at)
    ensures forall i | 0 <= i < |calls| :: Answers(cfg, true, bs, calls)[i]
    decreases |calls|
  {
    if calls != [] {
      var next := Allow(cfg, true, bs, calls[0]).0;
      PacedCall(cfg, bs, calls[0]);
      PacedTail(cfg, calls, ip);
      PacedNeverRefused(cfg, next, calls[1..], ip);
      AnswersTail(cfg, true, bs, calls);
      var answers := Answers(cfg, true, bs, calls);
      assert forall i | 1 <= i < |calls| :: answers[i] == answers[1..][i - 1];
    }
  }

  // ---------------------------------------------------------------- windows inside a run

  lemma AnswersTail(cfg: Config, pruning: bool, bs: Buckets, calls: seq<Call>)
    requires calls != []
    ensures Answers(cfg, pruning, bs, calls)[0] == Allow(cfg, pruning, bs, calls[0]).1
    ensures Answers(cfg, pruning, bs, calls)[1..] ==
      Answers(cfg, pruning, Allow(cfg, pruning, bs, calls[0]).0, calls[1..])
  {}

  lemma {:induction false} SuffixAnswers(cfg: Config, pruning: bool, bs: Buckets, calls: seq<Call>, i: nat)
    requires i <= |calls|
    ensures Answers(cfg, pruning, bs, calls)[i..] ==
      Answers(cfg, pruning, After(cfg, pruning, bs, calls[..i]), calls[i..])
    decreases |calls|
  {
    if i > 0 {
      var next := Allow(cfg, pruning, bs, calls[0]).0;
      SuffixAnswers(cfg, pruning, next, calls[1..], i - 1);
      AnswersTail(cfg, pruning, bs, calls);
      assert calls[..i][1..] == calls[1..][..i - 1];
      assert calls[1..][i - 1..] == calls[i..];
      LaterSlice(Answers(cfg, pruning, bs, calls), i);
    }
  }

  lemma LaterSlice(a: seq<bool>, i: nat)
    requires 1 <= i <= |a|
    ensures a[i..] == a[1..][i - 1..]
  {}

  lemma EarlierSlice(a: seq<bool>, j: nat)
    requires 1 <= j <= |a|
    ensures a[..j] == [a[0]] + a[1..][..j - 1]
  {}

  lemma {:induction false} PrefixAnswers(cfg: Config, pruning: bool, bs: Buckets, calls: seq<Call>, j: nat)
    requires j <= |calls|
    ensures Answers(cfg, pruning, bs, calls)[..j] == Answers(cfg, pruning, bs, calls[..j])
    decreases |calls|
  {
    if j > 0 {
      var next := Allow(cfg, pruning, bs, calls[0]).0;
      PrefixAnswers(cfg, pruning, next, calls[1..], j - 1);
      assert calls[..j][1..] == calls[1..][..j - 1];
      AnswersTail(cfg, pruning, bs, calls);
      AnswersTail(cfg, pruning, bs, calls[..j]);
      EarlierSlice(Answers(cfg, pruning, bs, calls), j);
      EarlierSlice(Answers(cfg, pruning, bs, calls[..j]), j);
    }
  }

  lemma {:induction false} SortedSlice(calls: seq<Call>, from: real, i: nat, j: nat)
    requires Sorted(calls, from) && i < j <= |calls|
    ensures Sorted(calls[i..j], calls[i].at)
    decreases |calls|
  {
    if i > 0 {
      SortedSlice(calls[1..], calls[0].at, i - 1, j - 1);
      assert calls[1..][i - 1..j - 1] == calls[i..j];
    } else {
      SortedPrefix(calls, from, j);
    }
  }

  lemma {:induction false} SortedPrefix(calls: seq<Call>, from: real, j: nat)
    requires Sorted(calls, from) && j <= |calls|
    ensures Sorted(calls[..j], from)
    ensures j > 0 ==> Sorted(calls[..j], calls[0].at)
    decreases |calls|
  {
    if j > 0 {
      SortedPrefix(calls[1..], calls[0].at, j - 1);
      assert calls[..j][1..] == calls[1..][..j - 1];
    }
  }

  /** The buckets a window starts from are valid at the time of its first call. */
  lemma {:induction false} ValidBefore(cfg: Config, bs: Buckets, calls: seq<Call>, i: nat, now: real)
    requires Valid(cfg, bs, now) && Sorted(calls, now) && i < |calls|
    ensures Valid(cfg, After(cfg, false, bs, calls[..i]), calls[i].at)
    decreases |calls|
  {
    if i > 0 {
      AllowValid(cfg, false, bs, calls[0], now);
      ValidBefore(cfg, Allow(cfg, false, bs, calls[0]).0, calls[1..], i - 1, calls[0].at);
      assert calls[..i][1..] == calls[1..][..i - 1];
    }
  }

  lemma WindowAnswers(cfg: Config, bs: Buckets, calls: seq<Call>, i: nat, j: nat)
    requires i <= j <= |calls|
    ensures Answers(cfg, false, bs, calls)[i..j] == Answers(cfg, false, After(cfg, false, bs, calls[..i]), calls[i..j])
  {
    var head := calls[..j];
    assert head[i..] == calls[i..j] && head[..i] == calls[..i];
    PrefixAnswers(cfg, false, bs, calls, j);
    SuffixAnswers(cfg, false, bs, head, i);
    assert Answers(cfg, false, bs, calls)[i..j] == Answers(cfg, false, bs, calls)[..j][i..];
  }

  /** The time from the first call to the last. */
  function Span(calls: seq<Call>): real
    requires calls != []
  {
    calls[|calls| - 1].at - calls[0].at
  }

  lemma WindowSpending(cfg: Config, bs: Buckets, window: seq<Call>, ip: string)
    requires window != [] && Valid(cfg, bs, window[0].at) && Sorted(window, window[0].at)
    ensures WithinBudget(cfg, Allowed(window, Answers(cfg, false, bs, window), ip), Span(window))
  {
    var first, last := window[0].at, window[|window| - 1].at;
    SortedEnd(window, first);
    SpendingWithin(cfg, bs, window, ip, first, last);
    LevelGrows(cfg, bs, ip, first, first);
    BudgetFrom(cfg, Allowed(window, Answers(cfg, false, bs, window), ip), Level(cfg, bs, ip, first), last - first);
  }

  lemma BudgetFrom(cfg: Config, n: nat, level: real, d: real)
    requires n as real <= level + Accrued(cfg, d) && level <= cfg.burst as real
    ensures WithinBudget(cfg, n, d)
  {}

  lemma WindowWithin(cfg: Config, pruning: bool, calls: seq<Call>, start: real, i: nat, j: nat, ip: string)
    requires cfg.rps >= 0.0 && cfg.burst >= 0 && Sorted(calls, start) && i < j <= |calls|
    requires pruning ==> PruningHarmless(cfg)
    ensures WithinBudget(cfg, Allowed(calls[i..j], Answers(cfg, pruning, map[], calls)[i..j], ip), Span(calls[i..j]))
  {
    if pruning { RefinementRun(cfg, map[], map[], calls, start); }
    WindowAnswers(cfg, map[], calls, i, j);
    SortedSlice(calls, start, i, j);
    ValidBefore(cfg, map[], calls, i, start);
    WindowSpending(cfg, After(cfg, false, map[], calls[..i]), calls[i..j], ip);
  }

  lemma BudgetMeans(cfg: Config, n: nat, d: real)
    ensures WithinBudget(cfg, n, d) <==> AtMost(cfg, n, cfg.burst as real, d)
  {}

  /** In any window of any run of the limiter that never deletes a bucket, one IP is allowed at most
      burst + rps * T requests, T being the time from the first call of the window to the last. */
  lemma WindowBoundUnpruned(cfg: Config, calls: seq<Call>, start: real, i: nat, j: nat, ip: string)
    requires cfg.rps >= 0.0 && cfg.burst >= 0 && Sorted(calls, start) && i < j <= |calls|
    ensures AtMost(cfg, Allowed(calls[i..j], Answers(cfg, false, map[], calls)[i..j], ip),
      cfg.burst as real, Span(calls[i..j]))
  {
    WindowWithin(cfg, false, calls, start, i, j, ip);
    BudgetMeans(cfg, Allowed(calls[i..j], Answers(cfg, false, map[], calls)[i..j], ip), Span(calls[i..j]));
  }

  /** The same for the pruning limiter, when rps * 600 >= burst. */
  lemma WindowBound(cfg: Config, calls: seq<Call>, start: real, i: nat, j: nat, ip: string)
    requires cfg.rps >= 0.0 && cfg.burst >= 0 && Sorted(calls, start) && i < j <= |calls|
    requires cfg.rps * 600.0 >= cfg.burst as real
    ensures AtMost(cfg, Allowed(calls[i..j], Answers(cfg, true, map[], calls)[i..j], ip),
      cfg.burst as real, Span(calls[i..j]))
  {
    HarmlessMeans(cfg);
    WindowWithin(cfg, true, calls, start, i, j, ip);
    BudgetMeans(cfg, Allowed(calls[i..j], Answers(cfg, true, map[], calls)[i..j], ip), Span(calls[i..j]));
  }

  // ---------------------------------------------------------------- pruning that is not harmless

  function Repeat(ip: string, t: real, n: nat): (r: seq<Call>)
    ensures |r| == n && forall i | 0 <= i < n :: r[i] == Call(ip, t)
  {
    if n == 0 then [] else [Call(ip, t)] + Repeat(ip, t, n - 1)
  }

  /** What the pruning limiter lets ip spend at once at time t. */
  function Purse(cfg: Config, bs: Buckets, ip: string, t: real): real {
    var p := Prune(bs, t);
    if ip in p then p[ip].tokens else cfg.burst as real
  }

  /** The bucket of ip is new at time t, or was last touched at that very time. */
  predicate Fresh(bs: Buckets, ip: string, t: real) {
    var p := Prune(bs, t);
    ip in p ==> p[ip].lastRef == t
  }

  /** n calls at one instant are all allowed when the purse holds n tokens. */
  lemma {:induction false} AllAllowed(cfg: Config, bs: Buckets, ip: string, t: real, n: nat)
    requires Fresh(bs, ip, t) && Purse(cfg, bs, ip, t) >= n as real
    ensures Allowed(Repeat(ip, t, n), Answers(cfg, true, bs, Repeat(ip, t, n)), ip) == n
    ensures n > 0 ==> var after := After(cfg, true, bs, Repeat(ip, t, n));
      ip in after && after[ip] == Bucket(Purse(cfg, bs, ip, t) - n as real, t)
    decreases n
  {
    if n > 0 {
      var next := Allow(cfg, true, bs, Call(ip, t)).0;
      AllowedOnce(cfg, bs, ip, t);
      AllAllowed(cfg, next, ip, t, n - 1);
      var calls := Repeat(ip, t, n);
      assert calls[1..] == Repeat(ip, t, n - 1) && calls[0] == Call(ip, t);
      assert Answers(cfg, true, bs, calls)[1..] == Answers(cfg, true, next, Repeat(ip, t, n - 1));
      if n == 1 { assert Repeat(ip, t, 0) == []; }
    }
  }

  lemma AllowedOnce(cfg: Config, bs: Buckets, ip: string, t: real)
    requires Fresh(bs, ip, t) && Purse(cfg, bs, ip, t) >= 1.0
    ensures var (next, ok) := Allow(cfg, true, bs, Call(ip, t));
      ok && ip in next && next[ip] == Bucket(Purse(cfg, bs, ip, t) - 1.0, t)
      && Fresh(next, ip, t) && Purse(cfg, next, ip, t) == Purse(cfg, bs, ip, t) - 1.0
  {
    var next := Allow(cfg, true, bs, Call(ip, t)).0;
    assert next[ip].lastRef == t;
    assert ip in Prune(next, t);
  }

  lemma {:induction false} AllowedConcat(a: seq<Call>, b: seq<Call>, x: seq<bool>, y: seq<bool>, ip: string)
    requires |a| == |x| && |b| == |y|
    ensures Allowed(a + b, x + y, ip) == Allowed(a, x, ip) + Allowed(b, y, ip)
    decreases |a|
  {
    if a == [] {
      assert a + b == b && x + y == y;
    } else {
      AllowedConcat(a[1..], b, x[1..], y, ip);
      var ab, xy := a + b, x + y;
      assert ab[0] == a[0] && xy[0] == x[0];
      assert ab[1..] == a[1..] + b;
      assert xy[1..] == x[1..] + y;
    }
  }

  lemma {:induction false} SortedRepeat(ip: string, t: real, n: nat, from: real)
    requires from <= t
    ensures Sorted(Repeat(ip, t, n), from)
    decreases n
  {
    if n > 0 {
      SortedRepeat(ip, t, n - 1, t);
      assert Repeat(ip, t, n)[1..] == Repeat(ip, t, n - 1);
    }
  }

  lemma {:induction false} SortedConcat(a: seq<Call>, b: seq<Call>, from: real, mid: real)
    requires Sorted(a, from) && Sorted(b, mid) && from <= mid && forall i | 0 <= i < |a| :: a[i].at <= mid
    ensures Sorted(a + b, from)
    decreases |a|
  {
    if a == [] {
      assert a + b == b;
    } else {
      SortedConcat(a[1..], b, a[0].at, mid);
      assert (a + b)[1..] == a[1..] + b;
    }
  }

  /** A drained IP that comes back just after the idle limit. */
  function Comeback(ip: string, burst: nat, t: real): seq<Call> { Repeat(ip, 0.0, burst) + Repeat(ip, t, burst) }

  /** What is allowed in a run is what is allowed in its first part and then in its second. */
  lemma AllowedInTurn(cfg: Config, bs: Buckets, a: seq<Call>, b: seq<Call>, ip: string)
    ensures Allowed(a + b, Answers(cfg, true, bs, a + b), ip) ==
      Allowed(a, Answers(cfg, true, bs, a), ip) + Allowed(b, Answers(cfg, true, After(cfg, true, bs, a), b), ip)
  {
    var n, answers := |a|, Answers(cfg, true, bs, a + b);
    assert (a + b)[..n] == a && (a + b)[n..] == b;
    PrefixAnswers(cfg, true, bs, a + b, n);
    SuffixAnswers(cfg, true, bs, a + b, n);
    assert answers == answers[..n] + answers[n..];
    AllowedConcat(a, b, answers[..n], answers[n..], ip);
  }

  lemma ComebackAllowed(cfg: Config, ip: string, t: real)
    requires cfg.burst >= 1 && t > IDLE_TTL
    ensures Allowed(Comeback(ip, cfg.burst, t), Answers(cfg, true, map[], Comeback(ip, cfg.burst, t)), ip) ==
      2 * cfg.burst
  {
    var n := cfg.burst;
    var a, b := Repeat(ip, 0.0, n), Repeat(ip, t, n);
    var mid := After(cfg, true, map[], a);
    AllAllowed(cfg, map[], ip, 0.0, n);
    assert ip !in Prune(mid, t);
    AllAllowed(cfg, mid, ip, t, n);
    AllowedInTurn(cfg, map[], a, b, ip);
  }

  /** Between 600 seconds and the time a full refill takes. */
  lemma ComebackTime(cfg: Config) returns (t: real)
    requires cfg.rps > 0.0 && !PruningHarmless(cfg)
    ensures t > IDLE_TTL && Accrued(cfg, t) < cfg.burst as real
  {
    var full := cfg.burst as real / cfg.rps;
    assert cfg.rps * full == cfg.burst as real;
    if full <= IDLE_TTL {
      AccruedNonNegative(cfg, IDLE_TTL - full);
    }
    t := (IDLE_TTL + full) / 2.0;
    assert cfg.rps * t == (cfg.rps * IDLE_TTL + cfg.rps * full) / 2.0;
  }

  lemma ComebackSorted(ip: string, n: nat, t: real)
    requires t > 0.0
    ensures Sorted(Comeback(ip, n, t), 0.0)
  {
    SortedRepeat(ip, 0.0, n, 0.0);
    SortedRepeat(ip, t, n, t);
    SortedConcat(Repeat(ip, 0.0, n), Repeat(ip, t, n), 0.0, t);
  }

  ghost predicate SameAnswers(cfg: Config) {
    forall calls: seq<Call>, start: real | Sorted(calls, start) ::
      Answers(cfg, true, map[], calls) == Answers(cfg, false, map[], calls)
  }

  /** The allowed requests of ip in the whole run. */
  ghost function Total(cfg: Config, calls: seq<Call>, ip: string): nat {
    Allowed(calls, Answers(cfg, true, map[], calls), ip)
  }

  ghost predicate WindowBounded(cfg: Config) {
    forall calls: seq<Call>, start: real, ip: string | Sorted(calls, start) && calls != [] ::
      AtMost(cfg, Total(cfg, calls, ip), cfg.burst as real, Span(calls))
  }

  lemma HarmlessSuffices(cfg: Config)
    requires cfg.rps > 0.0 && cfg.burst >= 0 && PruningHarmless(cfg)
    ensures SameAnswers(cfg) && WindowBounded(cfg)
  {
    forall calls: seq<Call>, start: real | Sorted(calls, start)
      ensures Answers(cfg, true, map[], calls) == Answers(cfg, false, map[], calls)
    {
      RefinementRun(cfg, map[], map[], calls, start);
    }
    forall calls: seq<Call>, start: real, ip: string | Sorted(calls, start) && calls != []
      ensures AtMost(cfg, Total(cfg, calls, ip), cfg.burst as real, Span(calls))
    {
      WholeWindow(cfg, true, calls, start, ip);
      BudgetMeans(cfg, Total(cfg, calls, ip), Span(calls));
    }
  }

  lemma HarmfulShows(cfg: Config)
    requires cfg.rps > 0.0 && cfg.burst >= 0 && !PruningHarmless(cfg)
    ensures !SameAnswers(cfg) && !WindowBounded(cfg)
  {
    var t := ComebackTime(cfg);
    var calls := Comeback("", cfg.burst, t);
    ComebackSorted("", cfg.burst, t);
    ComebackAllowed(cfg, "", t);
    WholeWindow(cfg, false, calls, 0.0, "");
    ComebackOverBudget(cfg, calls, t);
    BudgetMeans(cfg, Total(cfg, calls, ""), Span(calls));
  }

  /** Pruning changes an answer, and the window bound fails, exactly when rps * 600 < burst. */
  lemma HarmlessIff(cfg: Config)
    requires cfg.rps > 0.0 && cfg.burst >= 0
    ensures cfg.rps * 600.0 >= cfg.burst as real <==> SameAnswers(cfg)
    ensures cfg.rps * 600.0 >= cfg.burst as real <==> WindowBounded(cfg)
  {
    HarmlessMeans(cfg);
    if PruningHarmless(cfg) { HarmlessSuffices(cfg); } else { HarmfulShows(cfg); }
  }

  lemma ComebackOverBudget(cfg: Config, calls: seq<Call>, t: real)
    requires cfg.burst >= 1 && Accrued(cfg, t) < cfg.burst as real && calls == Comeback("", cfg.burst, t)
    ensures calls != [] && !WithinBudget(cfg, 2 * cfg.burst, calls[|calls| - 1].at - calls[0].at)
  {
    assert calls[0].at == 0.0 && calls[|calls| - 1].at == t;
  }

  lemma WholeWindow(cfg: Config, pruning: bool, calls: seq<Call>, start: real, ip: string)
    requires cfg.rps >= 0.0 && cfg.burst >= 0 && Sorted(calls, start) && calls != []
    requires pruning ==> PruningHarmless(cfg)
    ensures WithinBudget(cfg, Allowed(calls, Answers(cfg, pruning, map[], calls), ip), Span(calls))
  {
    var a := Answers(cfg, pruning, map[], calls);
    assert calls[0..|calls|] == calls && a[0..|calls|] == a;
    WindowWithin(cfg, pruning, calls, start, 0, |calls|, ip);
  }

  // ---------------------------------------------------------------- isolation of clients

  function Only(calls: seq<Call>, ip: string): seq<Call> {
    if calls == [] then [] else (if calls[0].ip == ip then [calls[0]] else []) + Only(calls[1..], ip)
  }

  function OnlyAnswers(calls: seq<Call>, answers: seq<bool>, ip: string): seq<bool>
    requires |calls| == |answers|
  {
    if calls == [] then []
    else (if calls[0].ip == ip then [answers[0]] else []) + OnlyAnswers(calls[1..], answers[1..], ip)
  }

  /** The two maps treat ip alike from now on: same bucket, or one that any later call prunes. */
  ghost predicate SameFor(a: Buckets, b: Buckets, ip: string, now: real) {
    && (ip in a ==> ip in b && b[ip] == a[ip])
    && (ip in b && ip !in a ==> Stale(b[ip], now))
  }

  lemma OwnCallSame(cfg: Config, a: Buckets, b: Buckets, c: Call, now: real)
    requires SameFor(a, b, c.ip, now) && now <= c.at
    ensures Allow(cfg, true, a, c).1 == Allow(cfg, true, b, c).1
    ensures SameFor(Allow(cfg, true, a, c).0, Allow(cfg, true, b, c).0, c.ip, c.at)
  {
    var pa, pb := Prune(a, c.at), Prune(b, c.at);
    assert c.ip in pa <==> c.ip in pb;
    assert c.ip in pa ==> pa[c.ip] == pb[c.ip];
  }

  lemma ForeignCallSame(cfg: Config, a: Buckets, b: Buckets, c: Call, ip: string, now: real)
    requires SameFor(a, b, ip, now) && now <= c.at && c.ip != ip
    ensures SameFor(Allow(cfg, true, a, c).0, b, ip, c.at)
  {
    var pa := Prune(a, c.at);
    assert ip in Allow(cfg, true, a, c).0 <==> ip in pa;
  }

  /** The answers an IP gets do not depend on the calls of any other IP, even though each of those
      calls prunes the map. This needs no relation between rate and burst. */
  lemma {:induction false} ClientsIsolated(cfg: Config, a: Buckets, b: Buckets, calls: seq<Call>, ip: string, now: real)
    requires SameFor(a, b, ip, now) && Sorted(calls, now)
    ensures OnlyAnswers(calls, Answers(cfg, true, a, calls), ip) == Answers(cfg, true, b, Only(calls, ip))
    decreases |calls|
  {
    if calls != [] {
      var c, rest := calls[0], calls[1..];
      var next := Allow(cfg, true, a, c).0;
      assert Answers(cfg, true, a, calls)[1..] == Answers(cfg, true, next, rest);
      if c.ip == ip {
        OwnCallSame(cfg, a, b, c, now);
        ClientsIsolated(cfg, next, Allow(cfg, true, b, c).0, rest, ip, c.at);
        assert Only(calls, ip)[1..] == Only(rest, ip);
      } else {
        ForeignCallSame(cfg, a, b, c, ip, now);
        ClientsIsolated(cfg, next, b, rest, ip, c.at);
        assert Only(calls, ip) == Only(rest, ip);
      }
    }
  }

  // ---------------------------------------------------------------- the default burst

  /** The limiter is off without a positive rate. Otherwise it has that rate, and the burst that is set if it
      is positive, else twice the whole part of the rate. */
  lemma LoadMeans(rps: Option<real>, burst: Option<int>)
    ensures var cfg := LoadRateLimit(rps, burst);
      && (cfg.Some? <==> rps.Some? && rps.value > 0.0)
      && (cfg.Some? ==> cfg.value.rps == rps.value)
      && (cfg.Some? && burst.Some? && burst.value > 0 ==> cfg.value.burst == burst.value)
      && (cfg.Some? && (burst.None? || burst.value <= 0) ==>
            exists n: nat :: cfg.value.burst == 2 * n && n as real <= rps.value < n as real + 1.0)
  {
    if rps.Some? && rps.value > 0.0 {
      var n: nat := rps.value.Floor;
      assert rps.value.Floor * 2 == 2 * n;
    }
  }

  /** The first request of a client passes exactly when an explicit burst is set or the rate is at
      least one per second: below that the default burst is zero. */
  lemma FirstRequestPassesIff(rps: Option<real>, burst: Option<int>, bs: Buckets, c: Call)
    requires LoadRateLimit(rps, burst).Some? && c.ip !in bs
    ensures Allow(LoadRateLimit(rps, burst).value, true, bs, c).1
       <==> ((burst.Some? && burst.value > 0) || rps.value >= 1.0)
  {
    var cfg := LoadRateLimit(rps, burst).value;
    assert c.ip !in Prune(bs, c.at);
    assert cfg.burst >= 1 <==> cfg.burst as real >= 1.0;
  }

  /** The default burst of a rate below one is zero. */
  lemma SlowDefaultBurst(rps: real)
    requires 0.0 < rps < 1.0
    ensures LoadRateLimit(Some(rps), None) == Some(Config(rps, 0))
  {}

  /** So a server limited to less than one request a second, with no burst set, refuses every request. */
  lemma SlowDefaultRefuses(rps: real, calls: seq<Call>, start: real)
    requires 0.0 < rps < 1.0 && Sorted(calls, start)
    ensures var cfg := LoadRateLimit(Some(rps), None);
      cfg.Some? && forall i | 0 <= i < |calls| :: !Answers(cfg.value, true, map[], calls)[i]
  {
    SlowDefaultBurst(rps);
    SlowDefaultDeniesAll(Config(rps, 0), map[], calls, start);
  }

  /** With a burst of zero no request is ever allowed. */
  lemma {:induction false} SlowDefaultDeniesAll(cfg: Config, bs: Buckets, calls: seq<Call>, now: real)
    requires cfg.burst == 0 && Valid(cfg, bs, now) && Sorted(calls, now)
    ensures forall i | 0 <= i < |calls| :: !Answers(cfg, true, bs, calls)[i]
    decreases |calls|
  {
    if calls != [] {
      AllowValid(cfg, true, bs, calls[0], now);
      DeniedWhenEmpty(cfg, bs, calls[0], now);
      SlowDefaultDeniesAll(cfg, Allow(cfg, true, bs, calls[0]).0, calls[1..], calls[0].at);
    }
  }

  lemma DeniedWhenEmpty(cfg: Config, bs: Buckets, c: Call, now: real)
    requires cfg.burst == 0 && Valid(cfg, bs, now) && now <= c.at
    ensures !Allow(cfg, true, bs, c).1
  {
    var p := Prune(bs, c.at);
    RefillOk(cfg, if c.ip in p then p[c.ip] else Bucket(0.0, c.at), c.at);
  }

  // ---------------------------------------------------------------- the limiter object

  class RateLimiter {
    var buckets: Buckets

    constructor ()
      ensures buckets == map[]
    {
      buckets := map[];
    }

    /** Delete every idle bucket, in any order. */
    method PruneIdle(now: real)
      modifies this
      ensures buckets == Prune(old(buckets), now)
    {
      var keys := buckets.Keys;
      while keys != {}
        invariant keys <= old(buckets).Keys
        invariant forall k :: k in buckets <==> k in old(buckets) && (k in keys || !Stale(old(buckets)[k], now))
        invariant forall k | k in buckets :: buckets[k] == old(buckets)[k]
        decreases |keys|
      {
        var k :| k in keys;
        if Stale(buckets[k], now) { buckets := buckets - {k}; }
        keys := keys - {k};
      }
    }

    method AllowCall(cfg: Config, ip: string, now: real) returns (ok: bool)
      modifies this
      ensures (buckets, ok) == Allow(cfg, true, old(buckets), Call(ip, now))
    {
      PruneIdle(now);
      ghost var pruned := buckets;
      if ip !in buckets { buckets := buckets[ip := Bucket(cfg.burst as real, now)]; }
      var elapsed := now - buckets[ip].lastRef;
      if elapsed > 0.0 {
        var tokens := buckets[ip].tokens + Accrued(cfg, elapsed);
        if tokens > cfg.burst as real { tokens := cfg.burst as real; }
        buckets := buckets[ip := Bucket(tokens, now)];
      }
      ghost var b := if ip in pruned then pruned[ip] else Bucket(cfg.burst as real, now);
      assert buckets == pruned[ip := Refill(cfg, b, now)];
      if buckets[ip].tokens < 1.0 { return false; }
      buckets := buckets[ip := buckets[ip].(tokens := buckets[ip].tokens - 1.0)];
      assert buckets == pruned[ip := buckets[ip]];
      return true;
    }
  }
}
