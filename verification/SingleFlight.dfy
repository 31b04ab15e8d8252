/** Request collapsing under its timing assumptions: one adapter call in flight
    per cache key, one caller's lead after the other, and every follower is
    served from the cache before its deadline. */
module SingleFlight {
  import opened CacheKeys
  import opened Gateway

  /** `poll` bounds the time between two cache reads of a follower, `release`
      the time between a leader's cache write and its lock release. */
  datatype Timing = Timing(poll: real, release: real)

  ghost predicate Suitable(cfg: Config, t: Timing) {
    && cfg.collapsing
    && 0.0 < cfg.lockTtl && 0.0 <= t.poll && 0.0 < t.release
    && cfg.lockTtl + t.poll <= cfg.waitTimeout
    && t.release + t.poll <= cfg.cacheTtl
  }

  predicate Leading(pc: Pc) {
    pc.Calling? || pc.InFlight? || pc.Storing? || pc.Releasing?
  }

  predicate Waiting(pc: Pc) {
    pc.EnterWait? || pc.AtHead? || pc.Polling? || pc.Sleeping?
  }

  function LostAt(pc: Pc): real
    requires Waiting(pc)
  {
    if pc.EnterWait? then pc.lostAt else pc.wait.lostAt
  }

  /** The last cache read of a follower, or the moment it lost the race. */
  function LastPoll(pc: Pc): real
    requires Waiting(pc)
  {
    if pc.EnterWait? then pc.lostAt else pc.wait.lastPoll
  }

  /** Nobody is late: lock holders finish inside the lock TTL, leaders release
      soon after writing, followers keep polling. */
  ghost predicate Timely(cfg: Config, t: Timing, s: World) {
    forall pid | pid in s.procs ::
      var p := s.procs[pid];
      && (p.hasLock && Leading(p.pc) ==> s.now < p.acquiredAt + cfg.lockTtl)
      && (p.pc.Releasing? ==> s.now < p.pc.storedAt + t.release)
      && (Waiting(p.pc) ==> s.now <= LastPoll(p.pc) + t.poll)
  }

  /** Redis answers, and a lock holder's adapter call succeeds. */
  ghost predicate Smooth(s: World, e: Event) {
    e.Run? && e.pid in s.procs ==>
      && e.choice != RequestLost && e.choice != ReplyLost
      && (s.procs[e.pid].hasLock && s.procs[e.pid].pc.InFlight? ==> e.choice.Returns?)
  }

  ghost predicate Calm(cfg: Config, t: Timing, ss: seq<World>, es: seq<Event>) {
    && Behaviour(cfg, ss, es)
    && (forall i | 0 <= i < |ss| :: Timely(cfg, t, ss[i]))
    && (forall i | 0 <= i < |es| :: Smooth(ss[i], es[i]))
  }

  /* ---------- the invariant ---------- */

  /** A leader that took the lock before the follower lost it has yet to write. */
  ghost predicate Pending(s: World, p: Proc)
    requires Waiting(p.pc)
  {
    var key := MakeKey(p.req);
    && key in s.locks && s.locks[key].owner in s.procs
    && var leader := s.procs[s.locks[key].owner];
       Leading(leader.pc) && !leader.pc.Releasing? && leader.acquiredAt <= LostAt(p.pc)
  }

  /** The value is in the cache and outlives the follower's next poll, which
      comes before its deadline. */
  ghost predicate Ready(cfg: Config, t: Timing, s: World, p: Proc)
    requires Waiting(p.pc)
  {
    var key := MakeKey(p.req);
    && key in s.cache && LastPoll(p.pc) + t.poll < s.cache[key].expireAt
    && LastPoll(p.pc) + t.poll < LostAt(p.pc) + cfg.waitTimeout
  }

  ghost predicate HoldsLock(cfg: Config, s: World, pid: Pid, p: Proc) {
    var key := MakeKey(p.req);
    p.hasLock && key in s.locks && s.locks[key] == Lock(pid, p.acquiredAt + cfg.lockTtl) && p.acquiredAt <= s.now
  }

  ghost predicate Orderly(cfg: Config, t: Timing, s: World, pid: Pid) {
    pid in s.procs ==>
      var p := s.procs[pid];
      var key := MakeKey(p.req);
      && (Leading(p.pc) ==> HoldsLock(cfg, s, pid, p))
      && (p.pc.Releasing? ==>
            p.pc.storedAt <= s.now && key in s.cache && p.pc.storedAt + cfg.cacheTtl <= s.cache[key].expireAt)
      && (Waiting(p.pc) ==>
            && LostAt(p.pc) <= LastPoll(p.pc) <= s.now
            && (!p.pc.EnterWait? ==> LostAt(p.pc) + cfg.waitTimeout <= p.pc.wait.deadline)
            && (Pending(s, p) || Ready(cfg, t, s, p)))
  }

  /** Every lock belongs to a request that is leading on its key. */
  ghost predicate Owned(s: World, key: string) {
    key in s.locks ==>
      var owner := s.locks[key].owner;
      owner in s.procs && Leading(s.procs[owner].pc) && MakeKey(s.procs[owner].req) == key
  }

  ghost predicate Collapsed(cfg: Config, t: Timing, s: World) {
    && (forall pid :: Orderly(cfg, t, s, pid))
    && (forall key :: Owned(s, key))
  }

  /* ---------- what the invariant gives ---------- */

  /** A waiting follower is before its deadline. */
  lemma BeforeDeadline(cfg: Config, t: Timing, s: World, pid: Pid)
    requires Suitable(cfg, t) && Collapsed(cfg, t, s) && Timely(cfg, t, s)
    requires pid in s.procs && Waiting(s.procs[pid].pc)
    ensures s.now < LostAt(s.procs[pid].pc) + cfg.waitTimeout
  {
    var p := s.procs[pid];
    assert Orderly(cfg, t, s, pid);
    if Pending(s, p) {
      var owner := s.locks[MakeKey(p.req)].owner;
      assert Orderly(cfg, t, s, owner);
      assert s.now < s.procs[owner].acquiredAt + cfg.lockTtl;
    }
  }

  /** A lock in the store has not expired. */
  lemma LocksAreLive(cfg: Config, t: Timing, s: World, key: string)
    requires Collapsed(cfg, t, s) && Timely(cfg, t, s) && key in s.locks
    ensures Locked(s, key) && s.locks[key].owner in s.procs
    ensures HoldsLock(cfg, s, s.locks[key].owner, s.procs[s.locks[key].owner])
  {
    assert Owned(s, key);
    assert Orderly(cfg, t, s, s.locks[key].owner);
  }

  /** A follower whose value is there finds it. */
  lemma ReadyHits(cfg: Config, t: Timing, s: World, pid: Pid)
    requires Timely(cfg, t, s) && pid in s.procs && Waiting(s.procs[pid].pc)
    requires Ready(cfg, t, s, s.procs[pid])
    ensures CacheGet(s, MakeKey(s.procs[pid].req)).Some?
  {
  }

  /* ---------- every step keeps it ---------- */

  /** A step that leaves cache and locks alone cannot disturb other requests,
      as long as the moving request stays a leader if it was one. */
  lemma OthersUndisturbed(cfg: Config, t: Timing, s: World, s': World, pid: Pid, other: Pid)
    requires Collapsed(cfg, t, s) && pid in s.procs && pid in s'.procs && other != pid
    requires s'.now == s.now && s'.cache == s.cache && s'.locks == s.locks
    requires s'.procs == s.procs[pid := s'.procs[pid]] && s'.procs[pid].req == s.procs[pid].req
    requires Leading(s.procs[pid].pc) && !s.procs[pid].pc.Releasing? ==>
               && Leading(s'.procs[pid].pc) && !s'.procs[pid].pc.Releasing?
               && s'.procs[pid].acquiredAt == s.procs[pid].acquiredAt
    ensures Orderly(cfg, t, s', other)
  {
    assert Orderly(cfg, t, s, other);
  }

  /** The program counters whose step touches neither cache nor locks. */
  predicate Local(pc: Pc) {
    !pc.Acquiring? && !pc.Storing? && !pc.Releasing? && !pc.Finished?
  }

  lemma LocalStepMovesOne(cfg: Config, s: World, pid: Pid, c: Choice)
    requires CanStep(s, pid, c) && Local(s.procs[pid].pc)
    ensures var s' := Step(cfg, s, pid, c);
            && s'.now == s.now && s'.cache == s.cache && s'.locks == s.locks
            && pid in s'.procs && s'.procs == s.procs[pid := s'.procs[pid]]
            && s'.procs[pid] == s.procs[pid].(pc := s'.procs[pid].pc)
  {
    match s.procs[pid].pc
    case Lookup =>
    case Admission =>
    case Polling(_) =>
    case InFlight =>
    case _ =>
  }

  /** Away from the wait and the lock a leader stays one, and nobody else becomes one. */
  lemma CallStepSelf(cfg: Config, s: World, pid: Pid, c: Choice)
    requires cfg.collapsing && CanStep(s, pid, c) && Smooth(s, Run(pid, c)) && Local(s.procs[pid].pc)
    requires !Waiting(s.procs[pid].pc) && (Leading(s.procs[pid].pc) ==> s.procs[pid].hasLock)
    ensures var pc, pc' := s.procs[pid].pc, Step(cfg, s, pid, c).procs[pid].pc;
            (Leading(pc) <==> Leading(pc')) && !pc'.Releasing? && !Waiting(pc')
  {
    match s.procs[pid].pc
    case Lookup =>
    case Admission =>
    case InFlight =>
    case _ =>
  }

  /** A follower before its deadline keeps waiting or finds its value. */
  lemma WaitingStep(cfg: Config, s: World, pid: Pid, c: Choice)
    requires CanStep(s, pid, c) && Smooth(s, Run(pid, c)) && Waiting(s.procs[pid].pc)
    requires s.procs[pid].pc.AtHead? ==> s.now < s.procs[pid].pc.wait.deadline
    ensures var pc, pc' := s.procs[pid].pc, Step(cfg, s, pid, c).procs[pid].pc;
            if pc'.Finished? then pc.Polling? && CacheGet(s, MakeKey(s.procs[pid].req)).Some?
            else
              && Waiting(pc') && !pc'.EnterWait? && LostAt(pc') == LostAt(pc)
              && pc'.wait.deadline == (if pc.EnterWait? then s.now + cfg.waitTimeout else pc.wait.deadline)
              && (pc.Polling? ==> LastPoll(pc') == s.now && CacheGet(s, MakeKey(s.procs[pid].req)).None?)
              && (!pc.Polling? ==> LastPoll(pc') == LastPoll(pc))
  {
    match s.procs[pid].pc
    case Polling(_) =>
    case _ =>
  }

  lemma WaitingStepSelf(cfg: Config, t: Timing, s: World, pid: Pid, c: Choice)
    requires Suitable(cfg, t) && Collapsed(cfg, t, s) && Timely(cfg, t, s)
    requires CanStep(s, pid, c) && Smooth(s, Run(pid, c)) && Waiting(s.procs[pid].pc)
    ensures var pc' := Step(cfg, s, pid, c).procs[pid].pc;
            !Leading(pc') && !pc'.Releasing? && Orderly(cfg, t, Step(cfg, s, pid, c), pid)
  {
    var s' := Step(cfg, s, pid, c);
    var p, p' := s.procs[pid], s'.procs[pid];
    assert Orderly(cfg, t, s, pid);
    BeforeDeadline(cfg, t, s, pid);
    WaitingStep(cfg, s, pid, c);
    LocalStepMovesOne(cfg, s, pid, c);
    if Ready(cfg, t, s, p) {
      ReadyHits(cfg, t, s, pid);
    } else if Waiting(p'.pc) {
      assert s.locks[MakeKey(p.req)].owner != pid;
      assert Pending(s', p');
    }
  }

  lemma LocalStepSelf(cfg: Config, t: Timing, s: World, pid: Pid, c: Choice)
    requires Suitable(cfg, t) && Collapsed(cfg, t, s) && Timely(cfg, t, s)
    requires CanStep(s, pid, c) && Smooth(s, Run(pid, c)) && Local(s.procs[pid].pc)
    ensures var pc, pc' := s.procs[pid].pc, Step(cfg, s, pid, c).procs[pid].pc;
            && (Leading(pc) <==> Leading(pc')) && !pc'.Releasing?
            && Orderly(cfg, t, Step(cfg, s, pid, c), pid)
  {
    assert Orderly(cfg, t, s, pid);
    LocalStepMovesOne(cfg, s, pid, c);
    if Waiting(s.procs[pid].pc) {
      WaitingStepSelf(cfg, t, s, pid, c);
    } else {
      CallStepSelf(cfg, s, pid, c);
    }
  }

  lemma LocalStep(cfg: Config, t: Timing, s: World, pid: Pid, c: Choice)
    requires Suitable(cfg, t) && Collapsed(cfg, t, s) && Timely(cfg, t, s)
    requires CanStep(s, pid, c) && Smooth(s, Run(pid, c)) && Local(s.procs[pid].pc)
    ensures Collapsed(cfg, t, Step(cfg, s, pid, c))
  {
    var s' := Step(cfg, s, pid, c);
    LocalStepMovesOne(cfg, s, pid, c);
    LocalStepSelf(cfg, t, s, pid, c);
    forall other ensures Orderly(cfg, t, s', other) {
      if other != pid {
        OthersUndisturbed(cfg, t, s, s', pid, other);
      }
    }
    forall key ensures Owned(s', key) {
      assert Owned(s, key);
    }
  }

  /** Losing the race: the owner is leading, so the follower is promised a value. */
  lemma LosingStep(cfg: Config, t: Timing, s: World, pid: Pid)
    requires Suitable(cfg, t) && Collapsed(cfg, t, s) && Timely(cfg, t, s)
    requires CanStep(s, pid, Proceed) && s.procs[pid].pc.Acquiring? && Locked(s, MakeKey(s.procs[pid].req))
    ensures Collapsed(cfg, t, Step(cfg, s, pid, Proceed))
  {
    var s' := Step(cfg, s, pid, Proceed);
    var key := MakeKey(s.procs[pid].req);
    LocksAreLive(cfg, t, s, key);
    assert Owned(s, key) && Orderly(cfg, t, s, s.locks[key].owner);
    assert s'.procs == s.procs[pid := s.procs[pid].(pc := EnterWait(s.now))];
    forall other ensures Orderly(cfg, t, s', other) {
      if other != pid {
        OthersUndisturbed(cfg, t, s, s', pid, other);
      } else if !s.procs[s.locks[key].owner].pc.Releasing? {
        assert Pending(s', s'.procs[pid]);
      } else {
        assert Ready(cfg, t, s', s'.procs[pid]);
      }
    }
    forall k ensures Owned(s', k) {
      assert Owned(s, k);
    }
  }

  /** Winning the race: the key had no lock, so nobody was leading on it. */
  lemma WinningStep(cfg: Config, t: Timing, s: World, pid: Pid)
    requires Suitable(cfg, t) && Collapsed(cfg, t, s) && Timely(cfg, t, s)
    requires CanStep(s, pid, Proceed) && s.procs[pid].pc.Acquiring? && !Locked(s, MakeKey(s.procs[pid].req))
    ensures Collapsed(cfg, t, Step(cfg, s, pid, Proceed))
  {
    var s' := Step(cfg, s, pid, Proceed);
    var key := MakeKey(s.procs[pid].req);
    if key in s.locks {
      LocksAreLive(cfg, t, s, key);
    }
    assert s'.procs == s.procs[pid := s'.procs[pid]];
    forall other ensures Orderly(cfg, t, s', other) {
      assert Orderly(cfg, t, s, other);
    }
    forall k ensures Owned(s', k) {
      assert Owned(s, k);
    }
  }

  lemma StoringStep(cfg: Config, t: Timing, s: World, pid: Pid)
    requires Suitable(cfg, t) && Collapsed(cfg, t, s) && Timely(cfg, t, s)
    requires CanStep(s, pid, Proceed) && s.procs[pid].pc.Storing?
    ensures Collapsed(cfg, t, Step(cfg, s, pid, Proceed))
  {
    var s' := Step(cfg, s, pid, Proceed);
    var key := MakeKey(s.procs[pid].req);
    assert Orderly(cfg, t, s, pid);
    forall other ensures Orderly(cfg, t, s', other) {
      assert Orderly(cfg, t, s, other);
      StoringKeepsOther(cfg, t, s, pid, other);
    }
    forall k ensures Owned(s', k) {
      assert Owned(s, k);
    }
  }

  lemma StoringKeepsOther(cfg: Config, t: Timing, s: World, pid: Pid, other: Pid)
    requires Suitable(cfg, t) && Collapsed(cfg, t, s) && Timely(cfg, t, s)
    requires CanStep(s, pid, Proceed) && s.procs[pid].pc.Storing?
    ensures Orderly(cfg, t, Step(cfg, s, pid, Proceed), other)
  {
    var s' := Step(cfg, s, pid, Proceed);
    var key := MakeKey(s.procs[pid].req);
    assert Orderly(cfg, t, s, pid) && Orderly(cfg, t, s, other);
    if other in s.procs && Waiting(s.procs[other].pc) {
      var p := s.procs[other];
      if MakeKey(p.req) == key {
        assert s.now < s.procs[pid].acquiredAt + cfg.lockTtl;
        assert Ready(cfg, t, s', p);
      } else if Pending(s, p) {
        assert Owned(s, MakeKey(p.req));
        assert s.locks[MakeKey(p.req)].owner != pid;
        assert Pending(s', p);
      }
    }
  }

  lemma ReleasingStep(cfg: Config, t: Timing, s: World, pid: Pid)
    requires Suitable(cfg, t) && Collapsed(cfg, t, s) && Timely(cfg, t, s)
    requires CanStep(s, pid, Proceed) && s.procs[pid].pc.Releasing?
    ensures Collapsed(cfg, t, Step(cfg, s, pid, Proceed))
  {
    var s' := Step(cfg, s, pid, Proceed);
    var key := MakeKey(s.procs[pid].req);
    assert Orderly(cfg, t, s, pid);
    forall other ensures Orderly(cfg, t, s', other) {
      assert Orderly(cfg, t, s, other);
      if other in s.procs && Waiting(s.procs[other].pc) && Pending(s, s.procs[other]) {
        assert s.locks[MakeKey(s.procs[other].req)].owner != pid;
        assert Owned(s, MakeKey(s.procs[other].req));
        assert Pending(s', s'.procs[other]);
      }
    }
    forall k ensures Owned(s', k) {
      assert Owned(s, k);
    }
  }

  lemma NextCollapsed(cfg: Config, t: Timing, s: World, e: Event)
    requires Suitable(cfg, t) && Collapsed(cfg, t, s) && Timely(cfg, t, s)
    requires Enabled(s, e) && Smooth(s, e)
    ensures Collapsed(cfg, t, Next(cfg, s, e))
  {
    var s' := Next(cfg, s, e);
    if e.Run? {
      var pc := s.procs[e.pid].pc;
      if pc.Acquiring? {
        if Locked(s, MakeKey(s.procs[e.pid].req)) {
          LosingStep(cfg, t, s, e.pid);
        } else {
          WinningStep(cfg, t, s, e.pid);
        }
      } else if pc.Storing? {
        StoringStep(cfg, t, s, e.pid);
      } else if pc.Releasing? {
        ReleasingStep(cfg, t, s, e.pid);
      } else {
        LocalStep(cfg, t, s, e.pid, e.choice);
      }
    } else {
      forall pid ensures Orderly(cfg, t, s', pid) {
        assert Orderly(cfg, t, s, pid);
      }
      forall key ensures Owned(s', key) {
        assert Owned(s, key);
      }
    }
  }

  lemma {:induction false} AlwaysCollapsed(cfg: Config, t: Timing, ss: seq<World>, es: seq<Event>, n: nat)
    requires Suitable(cfg, t) && Calm(cfg, t, ss, es) && n < |ss|
    ensures Collapsed(cfg, t, ss[n])
  {
    if n > 0 {
      AlwaysCollapsed(cfg, t, ss, es, n - 1);
      assert Follows(cfg, ss, es, n - 1);
      NextCollapsed(cfg, t, ss[n - 1], es[n - 1]);
    }
  }

  /* ---------- the theorems ---------- */

  /** Single flight: at most one adapter call per cache key at any time. */
  lemma OneCallInFlight(cfg: Config, t: Timing, ss: seq<World>, es: seq<Event>, n: nat, a: Pid, b: Pid)
    requires Suitable(cfg, t) && Calm(cfg, t, ss, es) && n < |ss|
    requires a in ss[n].procs && ss[n].procs[a].pc.InFlight?
    requires b in ss[n].procs && ss[n].procs[b].pc.InFlight?
    requires MakeKey(ss[n].procs[a].req) == MakeKey(ss[n].procs[b].req)
    ensures a == b
  {
    AlwaysCollapsed(cfg, t, ss, es, n);
    assert Orderly(cfg, t, ss[n], a) && Orderly(cfg, t, ss[n], b);
  }

  /* ---------- successive calls ---------- */

  predicate Leads(s: World, pid: Pid) {
    pid in s.procs && Leading(s.procs[pid].pc)
  }

  /** A lead begins by taking a lock that was free. */
  lemma LeadStarts(cfg: Config, t: Timing, s: World, e: Event, pid: Pid)
    requires Suitable(cfg, t) && Collapsed(cfg, t, s) && Timely(cfg, t, s) && Enabled(s, e) && Smooth(s, e)
    requires !Leads(s, pid) && Leads(Next(cfg, s, e), pid)
    ensures e == Run(pid, Proceed) && s.procs[pid].pc.Acquiring? && !Locked(s, MakeKey(s.procs[pid].req))
  {
    if pid in s.procs && !(e.Run? && e.pid == pid) {
      OthersStay(cfg, s, e, pid);
    } else if e.Run? && !s.procs[pid].pc.Acquiring? {
      LocalStepSelf(cfg, t, s, pid, e.choice);
    }
  }

  /** A lead ends by releasing its lock. */
  lemma LeadEnds(cfg: Config, t: Timing, s: World, e: Event, pid: Pid)
    requires Suitable(cfg, t) && Collapsed(cfg, t, s) && Timely(cfg, t, s) && Enabled(s, e) && Smooth(s, e)
    requires Leads(s, pid) && !Leads(Next(cfg, s, e), pid)
    ensures e == Run(pid, Proceed) && s.procs[pid].pc.Releasing?
  {
    assert Orderly(cfg, t, s, pid);
    if !(e.Run? && e.pid == pid) {
      OthersStay(cfg, s, e, pid);
    } else if !s.procs[pid].pc.Releasing? && !s.procs[pid].pc.Storing? {
      LocalStepSelf(cfg, t, s, pid, e.choice);
      LocalStepMovesOne(cfg, s, pid, e.choice);
    }
  }

  lemma {:induction false} LeadStartedAt(cfg: Config, t: Timing, ss: seq<World>, es: seq<Event>, m: nat, n: nat,
                                         pid: Pid)
    returns (q: nat)
    requires Suitable(cfg, t) && Calm(cfg, t, ss, es) && m <= n < |ss| && !Leads(ss[m], pid) && Leads(ss[n], pid)
    ensures m <= q < n && es[q] == Run(pid, Proceed) && pid in ss[q].procs && ss[q].procs[pid].pc.Acquiring?
    ensures ss[q].procs[pid].req == ss[n].procs[pid].req && !Locked(ss[q], MakeKey(ss[q].procs[pid].req))
  {
    var s, e := ss[n - 1], es[n - 1];
    AlwaysCollapsed(cfg, t, ss, es, n - 1);
    assert Follows(cfg, ss, es, n - 1) && Smooth(s, e) && Timely(cfg, t, s);
    if Leads(s, pid) {
      q := LeadStartedAt(cfg, t, ss, es, m, n - 1, pid);
    } else {
      LeadStarts(cfg, t, s, e, pid);
      q := n - 1;
    }
    RequestStays(cfg, s, e, pid);
  }

  lemma {:induction false} LeadEndedAt(cfg: Config, t: Timing, ss: seq<World>, es: seq<Event>, m: nat, n: nat, pid: Pid)
    returns (r: nat)
    requires Suitable(cfg, t) && Calm(cfg, t, ss, es) && m <= n < |ss| && Leads(ss[m], pid) && !Leads(ss[n], pid)
    ensures m <= r < n && es[r] == Run(pid, Proceed) && pid in ss[r].procs && ss[r].procs[pid].pc.Releasing?
  {
    var s, e := ss[n - 1], es[n - 1];
    AlwaysCollapsed(cfg, t, ss, es, n - 1);
    assert Follows(cfg, ss, es, n - 1) && Smooth(s, e) && Timely(cfg, t, s);
    if Leads(s, pid) {
      LeadEnds(cfg, t, s, e, pid);
      r := n - 1;
    } else {
      r := LeadEndedAt(cfg, t, ss, es, m, n - 1, pid);
    }
  }

  lemma LeaderHoldsLock(cfg: Config, t: Timing, s: World, pid: Pid)
    requires Suitable(cfg, t) && Collapsed(cfg, t, s) && Timely(cfg, t, s) && Leads(s, pid)
    ensures Locked(s, MakeKey(s.procs[pid].req)) && s.locks[MakeKey(s.procs[pid].req)].owner == pid
  {
    assert Orderly(cfg, t, s, pid);
    LocksAreLive(cfg, t, s, MakeKey(s.procs[pid].req));
  }

  /** Two calls for one key come one after the other: the first caller releases
      its lock, and only then does the second take it. */
  lemma CallsAreSerial(cfg: Config, t: Timing, ss: seq<World>, es: seq<Event>, m: nat, n: nat, a: Pid, b: Pid)
    returns (r: nat, q: nat)
    requires Suitable(cfg, t) && Calm(cfg, t, ss, es) && m <= n < |ss| && a != b
    requires a in ss[m].procs && ss[m].procs[a].pc.InFlight?
    requires b in ss[n].procs && ss[n].procs[b].pc.InFlight?
    requires MakeKey(ss[m].procs[a].req) == MakeKey(ss[n].procs[b].req)
    ensures m <= r < q < n
    ensures es[r] == Run(a, Proceed) && a in ss[r].procs && ss[r].procs[a].pc.Releasing?
    ensures es[q] == Run(b, Proceed) && b in ss[q].procs && ss[q].procs[b].pc.Acquiring?
  {
    var key := MakeKey(ss[m].procs[a].req);
    AlwaysCollapsed(cfg, t, ss, es, m);
    LeaderHoldsLock(cfg, t, ss[m], a);
    if Leads(ss[m], b) {
      LeaderHoldsLock(cfg, t, ss[m], b);
      RequestStaysUntil(cfg, ss, es, m, n, b);
    }
    q := LeadStartedAt(cfg, t, ss, es, m, n, b);
    RequestStaysUntil(cfg, ss, es, m, q, a);
    AlwaysCollapsed(cfg, t, ss, es, q);
    if Leads(ss[q], a) {
      LeaderHoldsLock(cfg, t, ss[q], a);
    }
    r := LeadEndedAt(cfg, t, ss, es, m, q, a);
  }

  /* ---------- followers ---------- */

  /** The request lost the race at `lost` and is still waiting in time, or was
      answered from the cache before its deadline. */
  ghost predicate Served(cfg: Config, s: World, pid: Pid, lost: real) {
    && pid in s.procs
    && match s.procs[pid].pc
       case Finished(outcome, at) =>
         outcome.Answered? && outcome.response.cacheHit && lost <= at < lost + cfg.waitTimeout
       case pc => Waiting(pc) && LostAt(pc) == lost && s.now < lost + cfg.waitTimeout
  }

  lemma ServedNext(cfg: Config, t: Timing, s: World, e: Event, pid: Pid, lost: real)
    requires Suitable(cfg, t) && Collapsed(cfg, t, s) && Timely(cfg, t, s) && Enabled(s, e) && Smooth(s, e)
    requires Timely(cfg, t, Next(cfg, s, e)) && Served(cfg, s, pid, lost)
    ensures Served(cfg, Next(cfg, s, e), pid, lost)
  {
    var s' := Next(cfg, s, e);
    NextCollapsed(cfg, t, s, e);
    assert Orderly(cfg, t, s, pid);
    if e.Run? && e.pid == pid && Waiting(s.procs[pid].pc) {
      LocalStepMovesOne(cfg, s, pid, e.choice);
      BeforeDeadline(cfg, t, s, pid);
      LocalStepSelf(cfg, t, s, pid, e.choice);
      if Waiting(s'.procs[pid].pc) {
        BeforeDeadline(cfg, t, s', pid);
      }
    } else {
      OthersStay(cfg, s, e, pid);
      if Waiting(s'.procs[pid].pc) {
        BeforeDeadline(cfg, t, s', pid);
      }
    }
  }

  lemma LoserIsServed(cfg: Config, t: Timing, s: World, pid: Pid)
    requires Suitable(cfg, t) && Collapsed(cfg, t, s) && Timely(cfg, t, s)
    requires CanStep(s, pid, Proceed) && s.procs[pid].pc.Acquiring? && Locked(s, MakeKey(s.procs[pid].req))
    requires Timely(cfg, t, Step(cfg, s, pid, Proceed))
    ensures Served(cfg, Step(cfg, s, pid, Proceed), pid, s.now)
  {
    var s' := Step(cfg, s, pid, Proceed);
    LosingStep(cfg, t, s, pid);
    assert s'.procs[pid] == s.procs[pid].(pc := EnterWait(s.now));
    BeforeDeadline(cfg, t, s', pid);
  }

  /** Follower delivery: a request that loses the lock race is from then on
      waiting before its deadline or answered from the cache before it; so by
      the deadline it has its answer, and it never reaches the adapter. */
  lemma {:induction false} FollowerIsServed(cfg: Config, t: Timing, ss: seq<World>, es: seq<Event>, i: nat, n: nat)
    requires Suitable(cfg, t) && Calm(cfg, t, ss, es) && i < n < |ss|
    requires es[i].Run? && es[i].pid in ss[i].procs && ss[i].procs[es[i].pid].pc.Acquiring?
    requires Locked(ss[i], MakeKey(ss[i].procs[es[i].pid].req))
    ensures Served(cfg, ss[n], es[i].pid, ss[i].now)
    ensures es[i].pid in ss[n].procs
    ensures ss[i].now + cfg.waitTimeout <= ss[n].now ==> ss[n].procs[es[i].pid].pc.Finished?
  {
    var s, e := ss[n - 1], es[n - 1];
    assert Follows(cfg, ss, es, n - 1) && Smooth(s, e) && Timely(cfg, t, s) && Timely(cfg, t, ss[n]);
    AlwaysCollapsed(cfg, t, ss, es, n - 1);
    if n == i + 1 {
      assert e.choice == Proceed;
      LoserIsServed(cfg, t, s, e.pid);
    } else {
      FollowerIsServed(cfg, t, ss, es, i, n - 1);
      ServedNext(cfg, t, s, e, es[i].pid, ss[i].now);
    }
  }
}
