/** One jail on its host: a uid, a directory and perhaps a control group, materialized step by step
    and released by a teardown that runs once. */
module JailLife {
  import opened Common
  import P = UidPool
  import S = Sandbox

  /** Which steps work on this host: the fallible steps of materialization, in order, and the two
      best-effort removals. */
  datatype Outcomes = Outcomes(
    mkdirTemp: bool, chownDir: bool,
    groupsActive: bool, groupMade: bool, groupReady: bool,
    mkdirApp: bool, chownApp: bool, writeSource: bool, chownSource: bool,
    removeDir: bool, removeGroup: bool)
  {
    /** A control group that cannot be set up does not fail the jail. */
    predicate Materializes() { mkdirTemp && chownDir && mkdirApp && chownApp && writeSource && chownSource }

    predicate GetsGroup() { groupsActive && groupMade && groupReady }
  }

  class Jail {
    const dir: nat
    const uid: int
    var grouped: bool
    var done: bool

    constructor (dir: nat, uid: int)
      ensures this.dir == dir && this.uid == uid && !grouped && !done
    {
      this.dir, this.uid := dir, uid;
      grouped, done := false, false;
    }
  }

  class Host {
    const pool: P.UidPool
    var dirs: set<nat>
    var groups: set<nat>

    constructor (pool: P.UidPool)
      ensures this.pool == pool && dirs == {} && groups == {}
    {
      this.pool := pool;
      dirs, groups := {}, {};
    }

    /** Materialization takes one uid, one directory and at most one control group, or, at whatever
        step it fails, leaves the held uids as they were and nothing that it could remove. */
    method NewJail(name: nat, o: Outcomes) returns (r: Option<Jail>)
      requires pool.Valid() && name !in dirs && name !in groups
      modifies this`dirs, this`groups, pool
      ensures pool.Valid()
      ensures r.Some? <==> P.Alloc(old(pool.Abs())).1.Some? && o.Materializes()
      ensures r.Some? ==>
        && fresh(r.value) && !r.value.done && r.value.dir == name && r.value.grouped == o.GetsGroup()
        && (pool.Abs(), Some(r.value.uid)) == P.Alloc(old(pool.Abs()))
        && dirs == old(dirs) + {name}
      ensures r.None? ==> pool.Abs() == P.Refunded(old(pool.Abs()))
      ensures r.None? && P.Exact(old(pool.Abs())) ==> pool.Abs().held == old(pool.Abs().held)
      ensures r.None? ==> dirs == old(dirs) || (!o.removeDir && dirs == old(dirs) + {name})
      ensures groups == (if r.Some? && o.GetsGroup() then old(groups) + {name} else old(groups)) || !o.removeGroup
    {
      ghost var before := pool.Abs();
      var uid := pool.AllocUid();
      if uid.None? { return None; }
      if P.Exact(before) { P.RefundRestores(before); }
      r := Furnish(name, uid.value, o);
    }

    /** Everything after the allocation: the uid is kept by the jail or released. */
    method Furnish(name: nat, uid: int, o: Outcomes) returns (r: Option<Jail>)
      requires pool.Valid() && name !in dirs && name !in groups
      modifies this`dirs, this`groups, pool
      ensures pool.Valid()
      ensures r.Some? <==> o.Materializes()
      ensures r.Some? ==>
        && fresh(r.value) && !r.value.done && r.value.dir == name && r.value.uid == uid
        && r.value.grouped == o.GetsGroup()
        && pool.Abs() == old(pool.Abs())
        && dirs == old(dirs) + {name}
      ensures r.None? ==> pool.Abs() == P.Release(old(pool.Abs()), uid)
      ensures r.None? ==> dirs == old(dirs) || (!o.removeDir && dirs == old(dirs) + {name})
      ensures groups == (if r.Some? && o.GetsGroup() then old(groups) + {name} else old(groups)) || !o.removeGroup
    {
      if !o.mkdirTemp {
        pool.ReleaseUid(uid);
        return None;
      }
      dirs := dirs + {name};
      if !o.chownDir {
        pool.ReleaseUid(uid);
        RemoveDir(name, o.removeDir);
        return None;
      }
      var j := new Jail(name, uid);
      JoinGroup(j, o);
      if !(o.mkdirApp && o.chownApp && o.writeSource && o.chownSource) {
        Teardown(j, o.removeDir, o.removeGroup);
        return None;
      }
      return Some(j);
    }

    /** A group that was made but cannot be used is removed again, as far as that works. */
    method JoinGroup(j: Jail, o: Outcomes)
      requires j.dir !in groups && !j.grouped
      modifies this`groups, j`grouped
      ensures j.grouped == o.GetsGroup()
      ensures groups == (if j.grouped then old(groups) + {j.dir} else old(groups)) || !o.removeGroup
    {
      if o.groupsActive {
        if o.groupMade { groups := groups + {j.dir}; }
        if o.groupMade && o.groupReady {
          j.grouped := true;
        } else if o.removeGroup {
          groups := groups - {j.dir};
        }
      }
    }

    method RemoveDir(name: nat, works: bool)
      modifies this`dirs
      ensures dirs == if works then old(dirs) - {name} else old(dirs)
    {
      if works { dirs := dirs - {name}; }
    }

    /** The first teardown releases the uid and removes what it can; any later one does nothing,
        whoever holds the uid by then. */
    method Teardown(j: Jail, removeDir: bool, removeGroup: bool)
      requires pool.Valid()
      modifies this`dirs, this`groups, pool, j`done
      ensures pool.Valid() && j.done
      ensures old(j.done) ==> pool.Abs() == old(pool.Abs()) && dirs == old(dirs) && groups == old(groups)
      ensures !old(j.done) ==>
        && pool.Abs() == P.Release(old(pool.Abs()), j.uid)
        && dirs == (if removeDir then old(dirs) - {j.dir} else old(dirs))
        && groups == (if j.grouped && removeGroup then old(groups) - {j.dir} else old(groups))
    {
      if j.done { return; }
      j.done := true;
      pool.ReleaseUid(j.uid);
      if j.grouped && removeGroup { groups := groups - {j.dir}; }
      RemoveDir(j.dir, removeDir);
    }

    /** The life of a jail as ExecuteRun arranges it, with any number of further teardowns: when it
        ends, nothing of it is held. */
    method Live(name: nat, o: Outcomes, again: nat)
      requires pool.Valid() && P.Exact(pool.Abs()) && name !in dirs && name !in groups
      modifies this`dirs, this`groups, pool
      ensures pool.Valid() && pool.Abs().held == old(pool.Abs().held)
      ensures o.removeDir ==> dirs == old(dirs)
      ensures o.removeGroup ==> groups == old(groups)
    {
      ghost var before := pool.Abs();
      var r := NewJail(name, o);
      if r.None? { return; }
      P.RefundRestores(before);
      Teardown(r.value, o.removeDir, o.removeGroup);
      for i := 0 to again
        invariant pool.Valid() && r.value.done && pool.Abs().held == before.held
        invariant o.removeDir ==> dirs == old(dirs)
        invariant o.removeGroup ==> groups == old(groups)
      {
        Teardown(r.value, o.removeDir, o.removeGroup);
      }
    }

    // -------------------------------------------------------------- the same steps in the composed system

    /** Jail id of the composed system is this jail, with the same directory, and the pools are the same. */
    ghost predicate Mirrors(sys: S.System, id: S.JailId, j: Jail)
      reads this, pool, j
    {
      && sys.pool == pool.Abs() && id in sys.jails
      && sys.jails[id].uid == j.uid && sys.jails[id].phase == (if j.done then S.Gone else S.Open)
      && (id in sys.dirs <==> j.dir in dirs)
    }

    /** newJail is the step that takes a uid, followed by the ones that make the directory and hand out the
        jail, or by the one that gives it up. */
    method NewJailSteps(name: nat, o: Outcomes, ghost sys: S.System, ghost t: S.Tid, ghost id: S.JailId)
      returns (r: Option<Jail>)
      requires pool.Valid() && name !in dirs && name !in groups
      requires sys.pool == pool.Abs() && S.Enabled(sys, S.CallNewJail(t, id))
      modifies this`dirs, this`groups, pool
      ensures pool.Valid()
      ensures var u := S.Apply(sys, S.CallNewJail(t, id));
        && (r.Some? ==>
              u.threads[t].pc.InNewJail? && Mirrors(S.Apply(S.Apply(u, S.MakeDir(t)), S.JailReady(t)), id, r.value))
        && (r.None? && u.threads[t].pc.InNewJail? ==> S.Apply(u, S.JailFails(t)).pool == pool.Abs())
        && (!u.threads[t].pc.InNewJail? ==> r.None? && u.pool == pool.Abs())
    {
      r := NewJail(name, o);
    }

    /** teardown, when its removals work, is the two teardown steps: the uid first, then the directory. A
        later call is two steps that change nothing. */
    method TeardownSteps(j: Jail, removeGroup: bool, ghost sys: S.System, ghost id: S.JailId)
      requires pool.Valid() && Mirrors(sys, id, j) && (j.done ==> j.dir !in dirs)
      modifies this`dirs, this`groups, pool, j`done
      ensures pool.Valid() && j.done && j.dir !in dirs
      ensures Mirrors(S.Apply(S.Apply(sys, S.CallTeardown(id)), S.CallTeardown(id)), id, j)
    {
      Teardown(j, true, removeGroup);
    }
  }
}
