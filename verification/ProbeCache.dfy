/** The time-to-live cache in front of the readiness probes. */
module ProbeCache {

  /** One cached probe and when it was stored. Times are in nanoseconds. */
  datatype Entry<P> = Entry(at: int, p: P)

  type Cache<P> = map<string, Entry<P>>

  /** One call of run: the clock at the age check, the clock at the store, and what the probe
      function would return. */
  datatype Call<P> = Call(key: string, checkAt: int, storeAt: int, probe: P)

  predicate IsHit<P>(ttl: int, cache: Cache<P>, c: Call<P>) {
    c.key in cache && c.checkAt - cache[c.key].at < ttl
  }

  function Step<P>(ttl: int, cache: Cache<P>, c: Call<P>): Cache<P> {
    if IsHit(ttl, cache, c) then cache else cache[c.key := Entry(c.storeAt, c.probe)]
  }

  function Reply<P>(ttl: int, cache: Cache<P>, c: Call<P>): P {
    if IsHit(ttl, cache, c) then cache[c.key].p else c.probe
  }

  /** The cache as call j finds it. */
  function Before<P>(ttl: int, calls: seq<Call<P>>, j: nat): Cache<P>
    requires j <= |calls|
  {
    if j == 0 then map[] else Step(ttl, Before(ttl, calls, j - 1), calls[j - 1])
  }

  predicate Computes<P>(ttl: int, calls: seq<Call<P>>, j: nat)
    requires j < |calls|
  {
    !IsHit(ttl, Before(ttl, calls, j), calls[j])
  }

  /** The mutex serialises the calls and the clock does not run backwards. */
  ghost predicate Clocked<P>(calls: seq<Call<P>>) {
    && (forall i | 0 <= i < |calls| :: calls[i].checkAt <= calls[i].storeAt)
    && (forall i, j | 0 <= i < j < |calls| :: calls[i].storeAt <= calls[j].checkAt)
  }

  /** Call i is the one whose result the cache holds under key. */
  ghost predicate StoredBy<P>(ttl: int, calls: seq<Call<P>>, j: nat, key: string, i: nat)
    requires j <= |calls|
  {
    && i < j && calls[i].key == key && Computes(ttl, calls, i)
    && key in Before(ttl, calls, j) && Before(ttl, calls, j)[key] == Entry(calls[i].storeAt, calls[i].probe)
  }

  lemma {:induction false} EntryOrigin<P>(ttl: int, calls: seq<Call<P>>, j: nat, key: string) returns (i: nat)
    requires j <= |calls| && key in Before(ttl, calls, j)
    ensures StoredBy(ttl, calls, j, key, i)
    decreases j
  {
    var prev := Before(ttl, calls, j - 1);
    if calls[j - 1].key == key && !IsHit(ttl, prev, calls[j - 1]) {
      i := j - 1;
    } else {
      i := EntryOrigin(ttl, calls, j - 1, key);
    }
  }

  /** Every reply was computed by the call itself, or by an earlier call for the same key that
      stored it less than one TTL before. */
  lemma ReplyFresh<P>(ttl: int, calls: seq<Call<P>>, j: nat)
    requires j < |calls|
    ensures var r := Reply(ttl, Before(ttl, calls, j), calls[j]);
      if Computes(ttl, calls, j) then r == calls[j].probe
      else exists i :: 0 <= i < j && Computes(ttl, calls, i) && calls[i].key == calls[j].key
                       && r == calls[i].probe && calls[j].checkAt - calls[i].storeAt < ttl
  {
    if !Computes(ttl, calls, j) {
      var i := EntryOrigin(ttl, calls, j, calls[j].key);
      assert Computes(ttl, calls, i);
    }
  }

  /** After call i has stored under its key, the entry never gets older than that store. */
  lemma {:induction false} EntryNoOlder<P>(ttl: int, calls: seq<Call<P>>, i: nat, j: nat)
    requires Clocked(calls) && i < j <= |calls| && Computes(ttl, calls, i)
    ensures calls[i].key in Before(ttl, calls, j) && calls[i].storeAt <= Before(ttl, calls, j)[calls[i].key].at
    decreases j
  {
    if i < j - 1 { EntryNoOlder(ttl, calls, i, j - 1); }
  }

  /** Two computations for one key are at least one TTL apart. */
  lemma ComputationsApart<P>(ttl: int, calls: seq<Call<P>>, i: nat, j: nat)
    requires Clocked(calls) && i < j < |calls| && calls[i].key == calls[j].key
    requires Computes(ttl, calls, i) && Computes(ttl, calls, j)
    ensures calls[j].storeAt - calls[i].storeAt >= ttl
  {
    EntryNoOlder(ttl, calls, i, j);
  }

  /** The computations for key among calls[lo..hi]. */
  function Count<P>(ttl: int, calls: seq<Call<P>>, key: string, lo: nat, hi: nat): nat
    requires lo <= hi <= |calls|
    decreases hi - lo
  {
    if lo == hi then 0
    else
      var one := if calls[hi - 1].key == key && Computes(ttl, calls, hi - 1) then 1 else 0;
      Count(ttl, calls, key, lo, hi - 1) + one
  }

  lemma OneLess(n: int, k: int)
    ensures n * k == (n - 1) * k + k
  {}

  lemma {:induction false} CountSpan<P>(ttl: int, calls: seq<Call<P>>, key: string, lo: nat, hi: nat)
    returns (first: nat, last: nat)
    requires Clocked(calls) && lo < hi <= |calls| && Count(ttl, calls, key, lo, hi) > 0 && ttl > 0
    ensures lo <= first <= last < hi && calls[last].key == key && Computes(ttl, calls, last)
    ensures (Count(ttl, calls, key, lo, hi) - 1) * ttl <= calls[last].storeAt - calls[first].storeAt
    decreases hi - lo
  {
    var n := Count(ttl, calls, key, lo, hi - 1);
    if calls[hi - 1].key == key && Computes(ttl, calls, hi - 1) {
      if n == 0 {
        first, last := hi - 1, hi - 1;
      } else {
        var prev;
        first, prev := CountSpan(ttl, calls, key, lo, hi - 1);
        last := hi - 1;
        ComputationsApart(ttl, calls, prev, last);
        OneLess(n, ttl);
      }
    } else {
      first, last := CountSpan(ttl, calls, key, lo, hi - 1);
    }
  }

  /** In a span of calls that ends T after its first store, a key is computed at most 1 + T / TTL times. */
  lemma ComputationBound<P>(ttl: int, calls: seq<Call<P>>, key: string, lo: nat, hi: nat)
    requires Clocked(calls) && lo < hi <= |calls| && ttl > 0
    ensures (Count(ttl, calls, key, lo, hi) - 1) * ttl <= calls[hi - 1].storeAt - calls[lo].storeAt
  {
    assert calls[lo].storeAt <= calls[hi - 1].storeAt;
    if Count(ttl, calls, key, lo, hi) > 0 {
      var first, last := CountSpan(ttl, calls, key, lo, hi);
      assert calls[lo].storeAt <= calls[first].storeAt && calls[last].storeAt <= calls[hi - 1].storeAt;
    }
  }

  class Probes<P> {
    var entries: Cache<P>
    const ttl: int

    constructor (ttl: int)
      ensures entries == map[] && this.ttl == ttl
    {
      entries := map[];
      this.ttl := ttl;
    }

    method Run(c: Call<P>) returns (p: P)
      modifies this
      ensures entries == Step(ttl, old(entries), c) && p == Reply(ttl, old(entries), c)
    {
      if c.key in entries && c.checkAt - entries[c.key].at < ttl { return entries[c.key].p; }
      p := c.probe;
      entries := entries[c.key := Entry(c.storeAt, p)];
    }
  }
}
