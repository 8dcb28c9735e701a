/** The uid pool: a cyclic scan over a fixed range of uids, on 64-bit integers. */
module UidPool {
  import opened Common

  const MAX_INT: int := 0x7FFF_FFFF_FFFF_FFFF
  const TWO_64: int := 0x1_0000_0000_0000_0000

  /** Two's complement wrap-around. The sums below leave the range of an int at most once. */
  function Wrap(x: int): int {
    if x > MAX_INT then x - TWO_64 else if x < -MAX_INT - 1 then x + TWO_64 else x
  }

  /** The remainder with the sign of the dividend. */
  function Rem(a: int, b: int): int
    requires b > 0
  {
    if a >= 0 then a % b else -((-a) % b)
  }

  function AtLeastOne(n: int): int { if n < 1 then 1 else n }

  lemma DivisionGuards(jobs: int, per: int)
    requires jobs >= 1 && per >= 1
    ensures jobs > MAX_INT / per <==> jobs * per > MAX_INT
  {
    var q := MAX_INT / per;
    assert MAX_INT == q * per + MAX_INT % per;
    if jobs <= q {
      assert jobs * per <= q * per;
    } else {
      assert jobs * per >= (q + 1) * per;
    }
  }

  /** The pool size: the true product of jobs and (cpus + 1), saturated. */
  function UidBudget(concurrentJobs: int, numCpu: int): (n: int)
    requires numCpu < MAX_INT
    ensures var want := AtLeastOne(concurrentJobs) * (AtLeastOne(numCpu) + 1);
      n == (if want <= MAX_INT then want else MAX_INT)
  {
    var jobs := AtLeastOne(concurrentJobs);
    var per := AtLeastOne(numCpu) + 1;
    DivisionGuards(jobs, per);
    if jobs > MAX_INT / per then MAX_INT else jobs * per
  }

  // ---------------------------------------------------------------- the pool as a value

  datatype Pool = Pool(min: int, size: int, next: int, held: set<int>)

  /** What New establishes, for a range that starts at a positive uid. */
  predicate WellFormed(p: Pool) {
    0 < p.min <= MAX_INT && 1 <= p.size <= MAX_INT
  }

  /** No intermediate result overflows: the range ends inside an int, and so does the sum of the
      cursor and the scan index. */
  predicate Exact(p: Pool) {
    && WellFormed(p)
    && p.min + p.size <= MAX_INT
    && 2 * p.size - 2 <= MAX_INT
    && 0 <= p.next < p.size
  }

  predicate InRange(p: Pool, uid: int) { p.min <= uid < p.min + p.size }

  predicate HeldInRange(p: Pool) { forall u | u in p.held :: InRange(p, u) }

  /** The uid examined by iteration i of the scan. */
  function Slot(p: Pool, i: int): int
    requires p.size > 0
  {
    Wrap(p.min + Rem(Wrap(p.next + i), p.size))
  }

  /** The first iteration at or after i that finds a free uid, or `size`. */
  function Scan(p: Pool, i: nat): (k: nat)
    requires p.size > 0 && i <= p.size
    ensures i <= k <= p.size
    ensures k < p.size ==> Slot(p, k) !in p.held
    ensures forall j | i <= j < k :: Slot(p, j) in p.held
    decreases p.size - i
  {
    if i == p.size || Slot(p, i) !in p.held then i else Scan(p, i + 1)
  }

  function Alloc(p: Pool): (Pool, Option<int>)
    requires p.size > 0
  {
    var k := Scan(p, 0);
    if k == p.size then (p, None)
    else (p.(held := p.held + {Slot(p, k)}, next := Rem(Wrap(p.next + k + 1), p.size)), Some(Slot(p, k)))
  }

  function Release(p: Pool, uid: int): Pool {
    if uid < p.min || uid >= Wrap(p.min + p.size) then p else p.(held := p.held - {uid})
  }

  /** The uid the next allocation hands out, if there is one. */
  function NextUid(p: Pool): int
    requires p.size > 0
  {
    var uid := Alloc(p).1;
    if uid.Some? then uid.value else 0
  }

  /** The pool after an allocation whose uid is given back. */
  function Refunded(p: Pool): Pool
    requires p.size > 0
  {
    var (q, uid) := Alloc(p);
    if uid.None? then q else Release(q, uid.value)
  }

  // ---------------------------------------------------------------- exactness

  lemma RemOnce(a: int, n: int)
    requires 0 <= a < 2 * n
    ensures Rem(a, n) == if a < n then a else a - n
  {
    if a >= n { assert a == n * 1 + (a - n); }
  }

  /** How far the scan goes before it examines uid. */
  function Distance(p: Pool, uid: int): int {
    var off := uid - p.min;
    if off >= p.next then off - p.next else off - p.next + p.size
  }

  /** The scan walks the range cyclically from the cursor. */
  lemma SlotExact(p: Pool, i: int)
    requires Exact(p) && 0 <= i < p.size
    ensures Slot(p, i) == p.min + (if p.next + i < p.size then p.next + i else p.next + i - p.size)
    ensures InRange(p, Slot(p, i)) && Distance(p, Slot(p, i)) == i
  {
    RemOnce(p.next + i, p.size);
  }

  /** The range fits an int; nothing is said about the sum of the cursor and the scan index. */
  predicate RangeFits(p: Pool) { WellFormed(p) && p.min + p.size <= MAX_INT && 0 <= p.next < p.size }

  /** The scan stays in the range exactly when its last cursor sum fits an int: past that it looks at
      uids below the range. */
  lemma ScanInRangeIff(p: Pool)
    requires RangeFits(p)
    ensures (forall i | 0 <= i < p.size :: InRange(p, Slot(p, i))) <==> p.next + p.size - 1 <= MAX_INT
  {
    if p.next + p.size - 1 <= MAX_INT {
      forall i | 0 <= i < p.size ensures InRange(p, Slot(p, i)) { RemOnce(p.next + i, p.size); }
    } else {
      var i := MAX_INT + 1 - p.next;
      RemOnce(MAX_INT + 1, p.size);
      assert Slot(p, i) == p.min - (MAX_INT + 1 - p.size);
      assert !InRange(p, Slot(p, i));
    }
  }

  lemma SlotAt(p: Pool, uid: int)
    requires Exact(p) && InRange(p, uid)
    ensures 0 <= Distance(p, uid) < p.size && Slot(p, Distance(p, uid)) == uid
  {
    SlotExact(p, Distance(p, uid));
  }

  /** Alloc hands out the first free uid cyclically from the cursor and moves the cursor just past
      it; it fails exactly when every uid of the range is held. */
  lemma AllocExact(p: Pool)
    requires Exact(p)
    ensures var (q, r) := Alloc(p);
      && (r.None? <==> forall u | InRange(p, u) :: u in p.held)
      && (r.None? ==> q == p)
      && (r.Some? ==>
            && InRange(p, r.value) && r.value !in p.held
            && (forall u | InRange(p, u) && Distance(p, u) < Distance(p, r.value) :: u in p.held)
            && q == p.(held := p.held + {r.value}, next := q.next)
            && Distance(q, r.value) == p.size - 1
            && Exact(q))
  {
    var (q, r) := Alloc(p);
    var k := Scan(p, 0);
    forall u | InRange(p, u) && Distance(p, u) < k ensures u in p.held {
      SlotAt(p, u);
    }
    if r.None? {
      forall u | InRange(p, u) ensures u in p.held { SlotAt(p, u); }
    } else {
      SlotExact(p, k);
      RemOnce(p.next + k + 1, p.size);
    }
  }

  /** A pool with fewer held uids than its size never refuses. */
  lemma AllocSucceedsBelowSize(p: Pool)
    requires Exact(p) && |p.held| < p.size
    ensures Alloc(p).1.Some?
  {
    AllocExact(p);
    var all := Interval(p.min, p.size);
    if all <= p.held {
      SubsetSize(all, p.held);
      assert false;
    }
    assert exists u :: u in all && u !in p.held;
  }

  /** A held uid is freed by Release exactly when the end of the range fits an int. */
  lemma ReleaseFreesIffRangeFits(p: Pool, uid: int)
    requires WellFormed(p) && InRange(p, uid) && uid in p.held
    ensures uid !in Release(p, uid).held <==> p.min + p.size <= MAX_INT
  {
  }

  /** A saturated budget makes every release of that pool a no-op, whatever uid the range starts at. */
  lemma SaturatedPoolNeverReleases(p: Pool, jobs: int, cpus: int, uid: int)
    requires cpus < MAX_INT && AtLeastOne(jobs) * (AtLeastOne(cpus) + 1) > MAX_INT
    requires WellFormed(p) && p.size == UidBudget(jobs, cpus)
    ensures Release(p, uid) == p
  {
    assert Wrap(p.min + p.size) == p.min + p.size - TWO_64;
  }

  // ---------------------------------------------------------------- fairness of reuse

  datatype Event = AllocOne | ReleaseOne(uid: int)

  function Next(p: Pool, e: Event): Pool
    requires p.size > 0
  {
    match e
    case AllocOne => Alloc(p).0
    case ReleaseOne(uid) => Release(p, uid)
  }

  function Exec(p: Pool, es: seq<Event>): (q: Pool)
    requires p.size > 0
    ensures q.min == p.min && q.size == p.size
    decreases |es|
  {
    if es == [] then p else Exec(Next(p, es[0]), es[1..])
  }

  /** uid is free in every state the run goes through. */
  predicate FreeThroughout(p: Pool, es: seq<Event>, uid: int)
    requires p.size > 0
    decreases |es|
  {
    uid !in p.held && (es == [] || FreeThroughout(Next(p, es[0]), es[1..], uid))
  }

  /** While v stays free it stays nearer to the cursor than u, so the scan cannot reach u. */
  lemma StaysNearer(p: Pool, e: Event, u: int, v: int)
    requires Exact(p) && InRange(p, u) && InRange(p, v)
    requires Distance(p, v) < Distance(p, u) && v !in p.held
    ensures Exact(Next(p, e)) && Next(p, e).min == p.min && Next(p, e).size == p.size
    ensures v !in Next(p, e).held ==> Distance(Next(p, e), v) < Distance(Next(p, e), u)
  {
    AllocExact(p);
    if e.AllocOne? && v !in Next(p, e).held {
      assert Distance(p, NextUid(p)) < Distance(p, v);
    }
  }

  lemma {:induction false} StaysNearerRun(p: Pool, es: seq<Event>, u: int, v: int)
    requires Exact(p) && InRange(p, u) && InRange(p, v)
    requires Distance(p, v) < Distance(p, u) && FreeThroughout(p, es, v)
    ensures var q := Exec(p, es); Exact(q) && InRange(q, v) && v !in q.held && Distance(q, v) < Distance(q, u)
    decreases |es|
  {
    if es != [] {
      StaysNearer(p, es[0], u, v);
      StaysNearerRun(Next(p, es[0]), es[1..], u, v);
    }
  }

  lemma NearerFreeWins(p: Pool, u: int, v: int)
    requires Exact(p) && InRange(p, v) && v !in p.held && Distance(p, v) < Distance(p, u)
    ensures Alloc(p).1 != Some(u)
  {
    AllocExact(p);
  }

  /** Just after u is handed out, every other uid of the range is nearer to the cursor. */
  lemma HandedOutIsLast(p: Pool, u: int, v: int)
    requires Exact(p) && InRange(p, v) && v != u
    ensures Alloc(p).1 == Some(u) ==>
      var q := Alloc(p).0;
      Exact(q) && q.min == p.min && q.size == p.size && InRange(q, u) && Distance(q, v) < Distance(q, u)
  {
    AllocExact(p);
  }

  /** Between two handouts of the same uid no other uid of the range can have stayed free. */
  lemma {:induction false} NoReuseWhileAnotherStaysFree(p: Pool, es: seq<Event>, u: int, v: int)
    requires Exact(p) && InRange(p, v) && v != u
    ensures Alloc(p).1 == Some(u) && FreeThroughout(Alloc(p).0, es, v) ==> Alloc(Exec(Alloc(p).0, es)).1 != Some(u)
  {
    if Alloc(p).1 == Some(u) && FreeThroughout(Alloc(p).0, es, v) {
      HandedOutIsLast(p, u, v);
      StaysNearerRun(Alloc(p).0, es, u, v);
      NearerFreeWins(Exec(Alloc(p).0, es), u, v);
    }
  }

  /** Giving back what Alloc just handed out restores the held set. */
  lemma RefundRestores(p: Pool)
    requires Exact(p)
    ensures Refunded(p).held == p.held
  {
    AllocExact(p);
  }

  /** Handing out another uid and taking it back brings the cursor nearer to a free one. */
  lemma RefundComesNearer(p: Pool, u: int)
    requires Exact(p) && InRange(p, u) && u !in p.held
    ensures Alloc(p).1 != Some(u) ==>
      var q := Refunded(p);
      Exact(q) && q == p.(next := q.next) && 0 <= Distance(q, u) < Distance(p, u)
  {
    AllocExact(p);
    RefundRestores(p);
  }

  // ---------------------------------------------------------------- staying in the range, over runs

  function New(min: int, size: int): Pool { Pool(min, size, 0, {}) }

  lemma {:induction false} ExecConcat(p: Pool, a: seq<Event>, b: seq<Event>)
    requires p.size > 0
    ensures Exec(p, a + b) == Exec(Exec(p, a), b)
    decreases |a|
  {
    if a == [] {
      assert a + b == b;
    } else {
      ExecConcat(Next(p, a[0]), a[1..], b);
      assert (a + b)[1..] == a[1..] + b;
    }
  }

  lemma {:induction false} RunExact(p: Pool, es: seq<Event>)
    requires Exact(p)
    ensures Exact(Exec(p, es))
    decreases |es|
  {
    if es != [] {
      AllocExact(p);
      RunExact(Next(p, es[0]), es[1..]);
    }
  }

  /** A pool whose first k uids are held, with the cursor after them. */
  function Filled(min: int, size: int, k: nat): Pool { Pool(min, size, if k == size then 0 else k, Interval(min, k)) }

  /** The scan stops at the first free uid it looks at. */
  lemma ScanStops(p: Pool, k: nat)
    requires 0 <= k < p.size && Slot(p, k) !in p.held && forall j | 0 <= j < k :: Slot(p, j) in p.held
    ensures Alloc(p) == (p.(held := p.held + {Slot(p, k)}, next := Rem(Wrap(p.next + k + 1), p.size)), Some(Slot(p, k)))
  {
    assert Scan(p, 0) == k;
  }

  /** A free uid at the cursor is handed out. */
  lemma AllocAtCursor(p: Pool)
    requires RangeFits(p) && p.min + p.next !in p.held
    ensures Next(p, AllocOne) ==
      p.(held := p.held + {p.min + p.next}, next := if p.next + 1 == p.size then 0 else p.next + 1)
  {
    RemOnce(p.next, p.size);
    RemOnce(p.next + 1, p.size);
    ScanStops(p, 0);
  }

  lemma IntervalGrows(lo: int, n: nat)
    ensures Interval(lo, n) + {lo + n} == Interval(lo, n + 1) && lo + n !in Interval(lo, n)
  {}

  lemma FillOne(min: int, size: int, k: nat)
    requires RangeFits(New(min, size)) && k < size
    ensures Next(Filled(min, size, k), AllocOne) == Filled(min, size, k + 1)
  {
    IntervalGrows(min, k);
    AllocAtCursor(Filled(min, size, k));
  }

  lemma {:induction false} FillUp(min: int, size: int, k: nat) returns (es: seq<Event>)
    requires RangeFits(New(min, size)) && k <= size
    ensures Exec(Filled(min, size, k), es) == Filled(min, size, size)
    decreases size - k
  {
    if k == size {
      es := [];
    } else {
      FillOne(min, size, k);
      var rest := FillUp(min, size, k + 1);
      es := [AllocOne] + rest;
      assert es[1..] == rest;
    }
  }

  lemma TakeBack(p: Pool, u: int)
    requires RangeFits(p) && p.size >= 2 && u == p.min + p.size - 2 && p.next == 0
    requires p.held == Interval(p.min, p.size) - {u}
    ensures Next(p, AllocOne) == p.(held := p.held + {u}, next := p.size - 1)
  {
    forall i | 0 <= i < p.size ensures Slot(p, i) == p.min + i { RemOnce(i, p.size); }
    ScanStops(p, p.size - 2);
    RemOnce(p.size - 1, p.size);
  }

  /** A full pool takes back its last uid but one and hands it out again: the cursor is at the end. */
  lemma CursorToEnd(p: Pool, u: int)
    requires RangeFits(p) && p.size >= 2 && u == p.min + p.size - 2 && p.next == 0 && p.held == Interval(p.min, p.size)
    ensures Next(Next(p, ReleaseOne(u)), AllocOne) == p.(next := p.size - 1)
  {
    TakeBack(p.(held := p.held - {u}), u);
    assert p.held - {u} + {u} == p.held;
  }

  lemma ExecCons(p: Pool, e: Event, rest: seq<Event>)
    requires p.size > 0
    ensures Exec(p, [e] + rest) == Exec(Next(p, e), rest)
  {
    assert ([e] + rest)[1..] == rest;
  }

  lemma ExecPair(p: Pool, e: Event, f: Event)
    requires p.size > 0
    ensures Exec(p, [e] + ([f] + [])) == Next(Next(p, e), f)
  {
    ExecCons(p, e, [f] + []);
    ExecCons(Next(p, e), f, []);
  }

  /** With every uid held and the cursor at the end, the scan finds no free uid before its sum overflows,
      and then one below the range. */
  lemma ScanLeavesRange(min: int, size: int)
    requires RangeFits(New(min, size)) && 2 * size - 2 > MAX_INT
    ensures Alloc(Pool(min, size, size - 1, Interval(min, size))).1 == Some(min - (MAX_INT + 1 - size))
  {
    var p, k := Pool(min, size, size - 1, Interval(min, size)), MAX_INT + 2 - size;
    forall i | 0 <= i < k ensures Slot(p, i) in p.held { RemOnce(p.next + i, size); }
    RemOnce(MAX_INT + 1, size);
    assert Slot(p, k) == min - (MAX_INT + 1 - size);
    ScanStops(p, k);
  }

  /** Allocate all, release the last uid but one, allocate it again. */
  lemma RunToEnd(min: int, size: int) returns (es: seq<Event>)
    requires RangeFits(New(min, size)) && size >= 2
    ensures Exec(New(min, size), es) == Pool(min, size, size - 1, Interval(min, size))
  {
    var full, u := Filled(min, size, size), min + size - 2;
    var fill := FillUp(min, size, 0);
    assert Filled(min, size, 0) == New(min, size);
    es := fill + ([ReleaseOne(u)] + ([AllocOne] + []));
    ExecConcat(New(min, size), fill, [ReleaseOne(u)] + ([AllocOne] + []));
    ExecPair(full, ReleaseOne(u), AllocOne);
    CursorToEnd(full, u);
  }

  ghost predicate NextInRange(p: Pool, es: seq<Event>)
    requires p.size > 0
  {
    var uid := Alloc(Exec(p, es)).1;
    uid.Some? ==> InRange(p, uid.value)
  }

  /** Every uid handed out in every run is one of the range. */
  ghost predicate AlwaysInRange(p: Pool)
    requires p.size > 0
  {
    forall es :: NextInRange(p, es)
  }

  lemma ExactStaysInRange(p: Pool, es: seq<Event>)
    requires Exact(p)
    ensures NextInRange(p, es)
  {
    RunExact(p, es);
    AllocExact(Exec(p, es));
  }

  lemma OverflowLeavesRange(min: int, size: int) returns (es: seq<Event>)
    requires RangeFits(New(min, size)) && 2 * size - 2 > MAX_INT
    ensures !NextInRange(New(min, size), es)
  {
    es := RunToEnd(min, size);
    ScanLeavesRange(min, size);
  }

  /** From a new pool whose range fits an int: exactly when twice the size, less two, fits too. */
  lemma AlwaysInRangeIff(min: int, size: int)
    requires RangeFits(New(min, size))
    ensures AlwaysInRange(New(min, size)) <==> 2 * size - 2 <= MAX_INT
  {
    if 2 * size - 2 <= MAX_INT {
      forall es ensures NextInRange(New(min, size), es) { ExactStaysInRange(New(min, size), es); }
    } else {
      var es := OverflowLeavesRange(min, size);
    }
  }

  // ---------------------------------------------------------------- the pool object

  class UidPool {
    var min: int
    var size: int
    var inUse: map<int, bool>
    var next: int

    ghost predicate Valid()
      reads this
    {
      size >= 1 && forall u | u in inUse :: inUse[u]
    }

    ghost function Abs(): Pool
      reads this
    {
      Pool(min, size, next, inUse.Keys)
    }

    constructor (minUid: int, n: int)
      ensures Valid() && Abs() == Pool(minUid, AtLeastOne(n), 0, {})
    {
      min := minUid;
      size := if n < 1 then 1 else n;
      inUse := map[];
      next := 0;
    }

    method AllocUid() returns (r: Option<int>)
      requires Valid()
      modifies this`inUse, this`next
      ensures Valid() && (Abs(), r) == Alloc(old(Abs()))
    {
      ghost var p := Abs();
      var i := 0;
      while i < size
        invariant 0 <= i <= size && Abs() == p && Valid()
        invariant forall j | 0 <= j < i :: Slot(p, j) in p.held
      {
        var uid := Wrap(min + Rem(Wrap(next + i), size));
        assert uid == Slot(p, i);
        if uid !in inUse || !inUse[uid] {
          assert Scan(p, 0) == i;
          inUse := inUse[uid := true];
          next := Rem(Wrap(next + i + 1), size);
          assert inUse.Keys == p.held + {uid};
          return Some(uid);
        }
        i := i + 1;
      }
      assert Scan(p, 0) == size;
      return None;
    }

    method ReleaseUid(uid: int)
      requires Valid()
      modifies this`inUse
      ensures Valid() && Abs() == Release(old(Abs()), uid)
    {
      if uid < min || uid >= Wrap(min + size) { return; }
      inUse := inUse - {uid};
    }
  }
}
