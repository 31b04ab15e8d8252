/** Whose lock a release deletes, exactly and in every behaviour; that it is its
    caller's own if lock holders finish inside the lock TTL; and what a failed
    adapter call leaves behind. */
module LockOwnership {
  import opened CacheKeys
  import opened BreakerStates
  import opened Gateway
  import opened Races
  import opened SingleFlight

  /* ---------- what a step does to a lock ---------- */

  /** The step takes the free lock of `key`; its reply may be lost. */
  predicate TakesLock(s: World, e: Event, key: string) {
    && e.Run? && e.choice != RequestLost && e.pid in s.procs
    && s.procs[e.pid].pc.Acquiring? && MakeKey(s.procs[e.pid].req) == key && !Locked(s, key)
  }

  /** The step deletes the lock of `key`, whoever owns it. */
  predicate DeletesLock(s: World, e: Event, key: string) {
    && e.Run? && e.choice != RequestLost && e.pid in s.procs
    && s.procs[e.pid].pc.Releasing? && MakeKey(s.procs[e.pid].req) == key
  }

  lemma LockEffect(cfg: Config, s: World, e: Event, key: string)
    requires Enabled(s, e)
    ensures var s' := Next(cfg, s, e);
            if TakesLock(s, e, key) then key in s'.locks && s'.locks[key] == Lock(e.pid, s.now + cfg.lockTtl)
            else if DeletesLock(s, e, key) then key !in s'.locks
            else (key in s'.locks <==> key in s.locks) && (key in s.locks ==> s'.locks[key] == s.locks[key])
  {
    if e.Run? {
      match s.procs[e.pid].pc
      case Lookup =>
      case Admission =>
      case Acquiring =>
      case Polling(_) =>
      case InFlight =>
      case Storing(_) =>
      case Releasing(_, _) =>
      case _ =>
    }
  }

  /** No release of `key` got through strictly between `b` and `n`. */
  ghost predicate Undeleted(ss: seq<World>, es: seq<Event>, b: nat, n: nat, key: string)
    requires n <= |es| < |ss|
  {
    forall m | b < m < n :: !DeletesLock(ss[m], es[m], key)
  }

  /** The lock of `key` was taken at `b`, and at `n` has neither expired nor been deleted. */
  ghost predicate TakenAt(cfg: Config, ss: seq<World>, es: seq<Event>, b: nat, n: nat, key: string)
    requires n <= |es| < |ss|
  {
    && b < n && TakesLock(ss[b], es[b], key)
    && ss[n].now < ss[b].now + cfg.lockTtl && Undeleted(ss, es, b, n, key)
  }

  lemma {:induction false} TakenLockStays(cfg: Config, ss: seq<World>, es: seq<Event>, b: nat, n: nat, key: string)
    requires Behaviour(cfg, ss, es) && n <= |es| && TakenAt(cfg, ss, es, b, n, key)
    ensures key in ss[n].locks && ss[n].locks[key] == Lock(es[b].pid, ss[b].now + cfg.lockTtl)
  {
    assert Follows(cfg, ss, es, n - 1);
    LockEffect(cfg, ss[n - 1], es[n - 1], key);
    if b < n - 1 {
      TimeAdvances(cfg, ss[n - 1], es[n - 1]);
      TakenLockStays(cfg, ss, es, b, n - 1, key);
    }
  }

  lemma {:induction false} LockWasTaken(cfg: Config, ss: seq<World>, es: seq<Event>, n: nat, key: string)
    returns (b: nat)
    requires Behaviour(cfg, ss, es) && n <= |es| && key in ss[n].locks
    ensures b < n && TakesLock(ss[b], es[b], key) && Undeleted(ss, es, b, n, key)
    ensures ss[n].locks[key] == Lock(es[b].pid, ss[b].now + cfg.lockTtl)
  {
    assert Follows(cfg, ss, es, n - 1);
    LockEffect(cfg, ss[n - 1], es[n - 1], key);
    if TakesLock(ss[n - 1], es[n - 1], key) {
      b := n - 1;
    } else {
      b := LockWasTaken(cfg, ss, es, n - 1, key);
    }
  }

  /** The live lock of a key belongs to whoever took it less than the lock TTL
      ago without its being deleted since. */
  lemma LockedExactly(cfg: Config, ss: seq<World>, es: seq<Event>, n: nat, key: string, owner: Pid)
    requires Behaviour(cfg, ss, es) && n <= |es|
    ensures Locked(ss[n], key) && ss[n].locks[key].owner == owner <==>
            exists b: nat :: TakenAt(cfg, ss, es, b, n, key) && es[b].pid == owner
  {
    if Locked(ss[n], key) && ss[n].locks[key].owner == owner {
      var b := LockWasTaken(cfg, ss, es, n, key);
      assert TakenAt(cfg, ss, es, b, n, key);
    }
    if b: nat :| TakenAt(cfg, ss, es, b, n, key) && es[b].pid == owner {
      TakenLockStays(cfg, ss, es, b, n, key);
    }
  }

  /* ---------- the one time a request takes its lock ---------- */

  predicate PastAcquiring(pc: Pc) {
    !pc.Lookup? && !pc.Admission? && !pc.Acquiring?
  }

  lemma StaysPast(cfg: Config, s: World, e: Event, pid: Pid)
    requires Enabled(s, e) && pid in s.procs
    requires PastAcquiring(s.procs[pid].pc) || (e.Run? && e.pid == pid && s.procs[pid].pc.Acquiring?)
    ensures pid in Next(cfg, s, e).procs && PastAcquiring(Next(cfg, s, e).procs[pid].pc)
  {
    if e.Run? && e.pid == pid {
      match s.procs[pid].pc
      case Acquiring =>
      case Polling(_) =>
      case InFlight =>
      case Storing(_) =>
      case Releasing(_, _) =>
      case _ =>
    } else {
      OthersStay(cfg, s, e, pid);
    }
  }

  /** At `a` the request tries the lock. */
  ghost predicate TriesAt(ss: seq<World>, es: seq<Event>, a: nat, pid: Pid)
    requires a < |es| < |ss|
  {
    es[a].Run? && es[a].pid == pid && pid in ss[a].procs && ss[a].procs[pid].pc.Acquiring?
  }

  lemma {:induction false} PastSince(cfg: Config, ss: seq<World>, es: seq<Event>, a: nat, n: nat, pid: Pid)
    requires Behaviour(cfg, ss, es) && a < n <= |es| && TriesAt(ss, es, a, pid)
    ensures pid in ss[n].procs && PastAcquiring(ss[n].procs[pid].pc)
  {
    assert Follows(cfg, ss, es, n - 1);
    if a < n - 1 {
      PastSince(cfg, ss, es, a, n - 1, pid);
    }
    StaysPast(cfg, ss[n - 1], es[n - 1], pid);
  }

  lemma TriesOnce(cfg: Config, ss: seq<World>, es: seq<Event>, a: nat, b: nat, pid: Pid)
    requires Behaviour(cfg, ss, es) && a < |es| && b < |es| && TriesAt(ss, es, a, pid) && TriesAt(ss, es, b, pid)
    ensures a == b
  {
    if a < b {
      PastSince(cfg, ss, es, a, b, pid);
    } else if b < a {
      PastSince(cfg, ss, es, b, a, pid);
    }
  }

  /** A request that has its lock took it in this step, or had it before. */
  lemma HasLockStep(cfg: Config, s: World, e: Event, pid: Pid)
    requires Enabled(s, e) && pid in Next(cfg, s, e).procs && Next(cfg, s, e).procs[pid].hasLock
    ensures pid in s.procs
    ensures s.procs[pid].hasLock || (e == Run(pid, Proceed) && TakesLock(s, e, MakeKey(s.procs[pid].req)))
  {
    if e.Run? && e.pid == pid {
      match s.procs[pid].pc
      case Lookup =>
      case Admission =>
      case Acquiring =>
      case Polling(_) =>
      case InFlight =>
      case Storing(_) =>
      case Releasing(_, _) =>
      case _ =>
    } else if pid in s.procs {
      OthersStay(cfg, s, e, pid);
    } else if e.Run? {
      StepMovesOne(cfg, s, e.pid, e.choice);
    }
  }

  lemma {:induction false} LockTakenBy(cfg: Config, ss: seq<World>, es: seq<Event>, n: nat, pid: Pid) returns (a: nat)
    requires Behaviour(cfg, ss, es) && n <= |es| && pid in ss[n].procs && ss[n].procs[pid].hasLock
    ensures a < n && es[a] == Run(pid, Proceed) && TakesLock(ss[a], es[a], MakeKey(ss[n].procs[pid].req))
  {
    assert Follows(cfg, ss, es, n - 1);
    HasLockStep(cfg, ss[n - 1], es[n - 1], pid);
    RequestStays(cfg, ss[n - 1], es[n - 1], pid);
    if ss[n - 1].procs[pid].hasLock {
      a := LockTakenBy(cfg, ss, es, n - 1, pid);
    } else {
      a := n - 1;
    }
  }

  predicate LockedIfReleasing(s: World, pid: Pid) {
    pid in s.procs && s.procs[pid].pc.Releasing? ==> s.procs[pid].hasLock
  }

  lemma NextLockedIfReleasing(cfg: Config, s: World, e: Event, pid: Pid)
    requires Enabled(s, e) && LockedIfReleasing(s, pid)
    ensures LockedIfReleasing(Next(cfg, s, e), pid)
  {
    if e.Run? && e.pid == pid {
      match s.procs[pid].pc
      case Lookup =>
      case Admission =>
      case Acquiring =>
      case Polling(_) =>
      case InFlight =>
      case Storing(_) =>
      case Releasing(_, _) =>
      case _ =>
    } else if pid in s.procs {
      OthersStay(cfg, s, e, pid);
    } else if e.Run? {
      StepMovesOne(cfg, s, e.pid, e.choice);
    }
  }

  lemma {:induction false} AlwaysLockedIfReleasing(cfg: Config, ss: seq<World>, es: seq<Event>, n: nat, pid: Pid)
    requires Behaviour(cfg, ss, es) && n <= |es|
    ensures LockedIfReleasing(ss[n], pid)
  {
    if n > 0 {
      AlwaysLockedIfReleasing(cfg, ss, es, n - 1, pid);
      assert Follows(cfg, ss, es, n - 1);
      NextLockedIfReleasing(cfg, ss[n - 1], es[n - 1], pid);
    }
  }

  /* ---------- whose lock a release deletes ---------- */

  /** The step from ss[n] is a release by `pid` of the lock of `key`. */
  ghost predicate ReleasesAt(ss: seq<World>, es: seq<Event>, n: nat, pid: Pid, key: string)
    requires n < |es| < |ss|
  {
    && es[n].Run? && es[n].pid == pid && pid in ss[n].procs
    && ss[n].procs[pid].pc.Releasing? && MakeKey(ss[n].procs[pid].req) == key
  }

  lemma ReleaserTook(cfg: Config, ss: seq<World>, es: seq<Event>, n: nat, pid: Pid, key: string) returns (a: nat)
    requires Behaviour(cfg, ss, es) && n < |es| && ReleasesAt(ss, es, n, pid, key)
    ensures a < n && es[a] == Run(pid, Proceed) && TakesLock(ss[a], es[a], key)
    ensures forall b: nat | b < n && TakesLock(ss[b], es[b], key) && es[b].pid == pid :: b == a
  {
    AlwaysLockedIfReleasing(cfg, ss, es, n, pid);
    a := LockTakenBy(cfg, ss, es, n, pid);
    forall b: nat | b < n && TakesLock(ss[b], es[b], key) && es[b].pid == pid ensures b == a {
      TriesOnce(cfg, ss, es, a, b, pid);
    }
  }

  /** Exactly when a release finds its caller's own live lock, in every
      behaviour: the caller took the lock at `a` less than the lock TTL ago, and
      no release of the key has got through since. */
  lemma ReleaseIsOwnExactly(cfg: Config, ss: seq<World>, es: seq<Event>, n: nat, pid: Pid, key: string)
    returns (a: nat)
    requires Behaviour(cfg, ss, es) && n < |es| && ReleasesAt(ss, es, n, pid, key)
    ensures a < n && es[a] == Run(pid, Proceed) && TakesLock(ss[a], es[a], key)
    ensures Locked(ss[n], key) && ss[n].locks[key].owner == pid <==>
            ss[n].now < ss[a].now + cfg.lockTtl && Undeleted(ss, es, a, n, key)
  {
    a := ReleaserTook(cfg, ss, es, n, pid, key);
    LockedExactly(cfg, ss, es, n, key, pid);
    assert TakenAt(cfg, ss, es, a, n, key) <==> ss[n].now < ss[a].now + cfg.lockTtl && Undeleted(ss, es, a, n, key);
  }

  /** Exactly when it finds, and so deletes, the live lock of another request:
      that request took it after `a`, less than the lock TTL ago, and no release
      of the key has got through since. */
  lemma ReleaseIsAnothersExactly(cfg: Config, ss: seq<World>, es: seq<Event>, n: nat, pid: Pid, key: string)
    returns (a: nat)
    requires Behaviour(cfg, ss, es) && n < |es| && ReleasesAt(ss, es, n, pid, key)
    ensures a < n && es[a] == Run(pid, Proceed) && TakesLock(ss[a], es[a], key)
    ensures Locked(ss[n], key) && ss[n].locks[key].owner != pid <==>
            exists b: nat :: a < b && TakenAt(cfg, ss, es, b, n, key) && es[b].pid != pid
  {
    a := ReleaserTook(cfg, ss, es, n, pid, key);
    if Locked(ss[n], key) && ss[n].locks[key].owner != pid {
      var b := LockWasTaken(cfg, ss, es, n, key);
      if b < a {
        TimeGrows(cfg, ss, es, a, n);
        TakenLockStays(cfg, ss, es, b, a, key);
      }
      assert a < b && TakenAt(cfg, ss, es, b, n, key) && es[b].pid != pid;
    }
    if b: nat :| a < b && TakenAt(cfg, ss, es, b, n, key) && es[b].pid != pid {
      TakenLockStays(cfg, ss, es, b, n, key);
    }
  }

  /** What a release does that gets through: the key's lock is gone, and no
      other lock changes. */
  lemma ReleaseDeletes(cfg: Config, ss: seq<World>, es: seq<Event>, n: nat, pid: Pid, key: string)
    requires Behaviour(cfg, ss, es) && n < |es| && ReleasesAt(ss, es, n, pid, key)
    ensures ss[n + 1].locks == if es[n].choice == RequestLost then ss[n].locks else ss[n].locks - {key}
  {
    assert Follows(cfg, ss, es, n);
  }

  /* ---------- holders that finish in time ---------- */

  ghost predicate HoldersInTime(cfg: Config, s: World) {
    forall pid | pid in s.procs && s.procs[pid].hasLock && Leading(s.procs[pid].pc) ::
      s.now < s.procs[pid].acquiredAt + cfg.lockTtl
  }

  ghost predicate InTime(cfg: Config, ss: seq<World>, es: seq<Event>) {
    Behaviour(cfg, ss, es) && forall i | 0 <= i < |ss| :: HoldersInTime(cfg, ss[i])
  }

  /** A leader that took the lock has it. */
  ghost predicate Holds(cfg: Config, s: World, pid: Pid) {
    pid in s.procs ==>
      var p := s.procs[pid];
      && (p.pc.Releasing? ==> p.hasLock)
      && (p.hasLock ==> Leading(p.pc) || p.pc.Finished?)
      && (p.hasLock && Leading(p.pc) ==>
            && MakeKey(p.req) in s.locks
            && s.locks[MakeKey(p.req)] == Lock(pid, p.acquiredAt + cfg.lockTtl))
  }

  ghost predicate AllHold(cfg: Config, s: World) {
    forall pid :: Holds(cfg, s, pid)
  }

  /** A live lock of a key whose owner does not move stays as it is. */
  lemma LiveLockStays(cfg: Config, s: World, e: Event, key: string)
    requires AllHold(cfg, s) && Enabled(s, e) && Locked(s, key)
    requires e.Run? ==> e.pid != s.locks[key].owner
    ensures key in Next(cfg, s, e).locks && Next(cfg, s, e).locks[key] == s.locks[key]
  {
    LockEffect(cfg, s, e, key);
    if e.Run? {
      assert Holds(cfg, s, e.pid);
    }
  }

  lemma OwnStepHolds(cfg: Config, s: World, pid: Pid, c: Choice)
    requires CanStep(s, pid, c) && Holds(cfg, s, pid)
    ensures Holds(cfg, Step(cfg, s, pid, c), pid)
  {
    match s.procs[pid].pc
    case Lookup =>
    case Admission =>
    case Acquiring =>
    case Polling(_) =>
    case InFlight =>
    case Storing(_) =>
    case Releasing(_, _) =>
    case _ =>
  }

  lemma NextHolds(cfg: Config, s: World, e: Event, pid: Pid)
    requires AllHold(cfg, s) && HoldersInTime(cfg, s) && Enabled(s, e)
    ensures Holds(cfg, Next(cfg, s, e), pid)
  {
    assert Holds(cfg, s, pid);
    if e.Run? && e.pid == pid {
      OwnStepHolds(cfg, s, pid, e.choice);
    } else if pid in s.procs {
      OthersStay(cfg, s, e, pid);
      var p := s.procs[pid];
      if p.hasLock && Leading(p.pc) {
        LiveLockStays(cfg, s, e, MakeKey(p.req));
      }
    }
  }

  lemma {:induction false} AlwaysHold(cfg: Config, ss: seq<World>, es: seq<Event>, n: nat)
    requires InTime(cfg, ss, es) && n < |ss|
    ensures AllHold(cfg, ss[n])
  {
    if n > 0 {
      AlwaysHold(cfg, ss, es, n - 1);
      assert Follows(cfg, ss, es, n - 1) && HoldersInTime(cfg, ss[n - 1]);
      forall pid ensures Holds(cfg, ss[n], pid) {
        NextHolds(cfg, ss[n - 1], es[n - 1], pid);
      }
    }
  }

  /** Every release that reaches Redis deletes the live lock its own caller
      acquired, and no other. */
  lemma ReleaseIsOwn(cfg: Config, ss: seq<World>, es: seq<Event>, n: nat)
    requires InTime(cfg, ss, es) && n < |es|
    requires es[n].Run? && es[n].pid in ss[n].procs && ss[n].procs[es[n].pid].pc.Releasing?
    ensures var p := ss[n].procs[es[n].pid];
            var key := MakeKey(p.req);
            && Locked(ss[n], key) && ss[n].locks[key] == Lock(es[n].pid, p.acquiredAt + cfg.lockTtl)
            && ss[n + 1].locks == if es[n].choice == RequestLost then ss[n].locks else ss[n].locks - {key}
  {
    AlwaysHold(cfg, ss, es, n);
    assert Follows(cfg, ss, es, n) && HoldersInTime(cfg, ss[n]);
    assert Holds(cfg, ss[n], es[n].pid);
  }

  /* ---------- a holder that overstays ---------- */

  /** The first request calls the adapter for longer than the lock TTL; the
      second takes the expired lock. */
  lemma SecondTakesExpiredLock(cfg: Config, req: Request) returns (s: World)
    requires cfg.collapsing && Received(req) && 0.0 < cfg.lockTtl
    ensures Reachable(cfg, s) && s.procs.Keys == {0, 1} && s.now == cfg.lockTtl && s.breaker == FRESH
    ensures s.procs[0] == Proc(req, InFlight, true, 0.0) && s.procs[1] == Proc(req, Calling, true, cfg.lockTtl)
    ensures MakeKey(req) in s.locks && s.locks[MakeKey(req)] == Lock(1, cfg.lockTtl + cfg.lockTtl)
  {
    s := BothMiss(cfg, req);
    s := FirstCalls(cfg, req, s);
    NextIsReachable(cfg, s, Advance(cfg.lockTtl));
    s := Next(cfg, s, Advance(cfg.lockTtl));
    NextIsReachable(cfg, s, Run(1, Proceed));
    s := Next(cfg, s, Run(1, Proceed));
  }

  /** Without the bound a release deletes the live lock of somebody else: for
      every lock TTL there is such a run, Redis up and all. */
  lemma OverstayerDeletesAnothersLock(cfg: Config, req: Request, r: AdapterResult) returns (s: World)
    requires cfg.collapsing && Received(req) && 0.0 < cfg.lockTtl
    ensures Reachable(cfg, s) && 0 in s.procs && s.procs[0].pc.Releasing? && s.procs[0].req == req
    ensures Locked(s, MakeKey(req)) && s.locks[MakeKey(req)].owner == 1
    ensures CanStep(s, 0, Proceed) && MakeKey(req) !in Step(cfg, s, 0, Proceed).locks
  {
    s := SecondTakesExpiredLock(cfg, req);
    NextIsReachable(cfg, s, Run(0, Returns(r)));
    s := Next(cfg, s, Run(0, Returns(r)));
    assert s.procs[0] == Proc(req, Storing(PayloadOf(req, r)), true, 0.0);
    NextIsReachable(cfg, s, Run(0, Proceed));
    s := Next(cfg, s, Run(0, Proceed));
  }

  /* ---------- a leader whose call failed ---------- */

  /** The adapter call of a lock holder ends without a result. */
  ghost predicate HolderFails(ss: seq<World>, es: seq<Event>, r: nat)
    requires r < |es| < |ss|
  {
    && es[r].Run? && es[r].pid in ss[r].procs && !es[r].choice.Returns?
    && ss[r].procs[es[r].pid].hasLock && ss[r].procs[es[r].pid].pc.InFlight?
  }

  /** The failed holder never releases: its lock stays until the lock TTL has
      passed, so that until then nobody else takes it. */
  lemma {:induction false} LockOutlivesFailure(cfg: Config, ss: seq<World>, es: seq<Event>, r: nat, n: nat)
    requires InTime(cfg, ss, es) && r < n < |ss| && HolderFails(ss, es, r)
    requires ss[n].now < ss[r].procs[es[r].pid].acquiredAt + cfg.lockTtl
    ensures var p := ss[r].procs[es[r].pid];
            && Locked(ss[n], MakeKey(p.req))
            && ss[n].locks[MakeKey(p.req)] == Lock(es[r].pid, p.acquiredAt + cfg.lockTtl)
    ensures es[r].pid in ss[n].procs && ss[n].procs[es[r].pid].pc.Finished?
  {
    var pid, s, e := es[r].pid, ss[n - 1], es[n - 1];
    assert Follows(cfg, ss, es, n - 1);
    AlwaysHold(cfg, ss, es, n - 1);
    assert Holds(cfg, s, pid);
    if r < n - 1 {
      TimeAdvances(cfg, s, e);
      LockOutlivesFailure(cfg, ss, es, r, n - 1);
      OthersStay(cfg, s, e, pid);
      LiveLockStays(cfg, s, e, MakeKey(ss[r].procs[pid].req));
    }
  }

  /** Since it lost the race at `lost` the request is waiting, or it went on
      without the lock after the whole wait timeout and has no answer yet. */
  ghost predicate InVain(cfg: Config, s: World, pid: Pid, lost: real) {
    && pid in s.procs && !s.procs[pid].hasLock
    && match s.procs[pid].pc
       case Finished(outcome, _) => (outcome.TimedOut? || outcome.Failed?) && lost + cfg.waitTimeout <= s.now
       case pc =>
         if Waiting(pc)
         then LostAt(pc) == lost <= s.now && (!pc.EnterWait? ==> lost + cfg.waitTimeout <= pc.wait.deadline)
         else (pc.Calling? || pc.InFlight? || pc.Storing?) && lost + cfg.waitTimeout <= s.now
  }

  lemma InVainNext(cfg: Config, s: World, e: Event, pid: Pid, lost: real)
    requires Enabled(s, e) && InVain(cfg, s, pid, lost) && CacheGet(s, MakeKey(s.procs[pid].req)).None?
    requires !StepWrites(s, e, MakeKey(s.procs[pid].req))
    requires e.Run? && e.pid == pid ==> e.choice != RequestLost && e.choice != ReplyLost
    ensures InVain(cfg, Next(cfg, s, e), pid, lost)
  {
    TimeAdvances(cfg, s, e);
    if e.Run? && e.pid == pid {
      match s.procs[pid].pc
      case Polling(_) =>
      case InFlight =>
      case _ =>
    } else {
      OthersStay(cfg, s, e, pid);
    }
  }

  /** A follower whose leader writes nothing gets nothing: while nobody writes
      the key it waits out its whole timeout, and then calls the adapter
      without the lock, as does every other follower. */
  lemma {:induction false} FollowerWaitsInVain(cfg: Config, ss: seq<World>, es: seq<Event>, i: nat, n: nat, pid: Pid,
                                               lost: real)
    requires Behaviour(cfg, ss, es) && i <= n < |ss|
    requires pid in ss[i].procs && ss[i].procs[pid].pc == EnterWait(lost) && !ss[i].procs[pid].hasLock
    requires lost == ss[i].now
    requires CacheGet(ss[i], MakeKey(ss[i].procs[pid].req)).None?
    requires forall k | i <= k < n :: !StepWrites(ss[k], es[k], MakeKey(ss[i].procs[pid].req))
    requires forall k | i <= k < n && es[k].Run? && es[k].pid == pid ::
               es[k].choice != RequestLost && es[k].choice != ReplyLost
    ensures InVain(cfg, ss[n], pid, lost)
  {
    if i < n {
      var key := MakeKey(ss[i].procs[pid].req);
      FollowerWaitsInVain(cfg, ss, es, i, n - 1, pid, lost);
      assert Follows(cfg, ss, es, n - 1);
      RequestStaysUntil(cfg, ss, es, i, n - 1, pid);
      LiveExactlySinceWrite(cfg, ss, es, i, n - 1, key);
      InVainNext(cfg, ss[n - 1], es[n - 1], pid, lost);
    }
  }
}
