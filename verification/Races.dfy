/** What the protocol does not promise, with a run that shows it, and the exact
    reach of what it does promise. */
module Races {
  import opened Prelude
  import opened CacheKeys
  import opened BreakerStates
  import opened Conservation
  import opened Gateway
  import Runs = BreakerRuns

  ghost predicate Reachable(cfg: Config, s: World) {
    exists ss, es :: Behaviour(cfg, ss, es) && ss[|ss| - 1] == s
  }

  lemma StartIsReachable(cfg: Config)
    ensures Reachable(cfg, START)
  {
    assert Behaviour(cfg, [START], []);
    assert [START][|[START]| - 1] == START;
  }

  lemma NextIsReachable(cfg: Config, s: World, e: Event)
    requires Reachable(cfg, s) && Enabled(s, e)
    ensures Reachable(cfg, Next(cfg, s, e))
  {
    var ss, es :| Behaviour(cfg, ss, es) && ss[|ss| - 1] == s;
    var ss', es' := ss + [Next(cfg, s, e)], es + [e];
    Extended(cfg, ss, es, e);
    assert ss'[|ss'| - 1] == Next(cfg, s, e);
  }

  /* ---------- two calls for one key ---------- */

  function Fresh(req: Request): Proc {
    Proc(req, Lookup, false, 0.0)
  }

  /** Two equal requests have missed the cache and passed the breaker. */
  lemma BothMiss(cfg: Config, req: Request) returns (s: World)
    requires cfg.collapsing && Received(req)
    ensures Reachable(cfg, s)
    ensures s == START.(procs := map[0 := Fresh(req).(pc := Acquiring), 1 := Fresh(req).(pc := Acquiring)])
  {
    StartIsReachable(cfg);
    s := START;
    NextIsReachable(cfg, s, Arrive(0, req));
    s := Next(cfg, s, Arrive(0, req));
    NextIsReachable(cfg, s, Arrive(1, req));
    s := Next(cfg, s, Arrive(1, req));
    assert s.procs == map[0 := Fresh(req), 1 := Fresh(req)];
    NextIsReachable(cfg, s, Run(0, Proceed));
    s := Next(cfg, s, Run(0, Proceed));
    NextIsReachable(cfg, s, Run(1, Proceed));
    s := Next(cfg, s, Run(1, Proceed));
    assert s.procs == map[0 := Fresh(req).(pc := Admission), 1 := Fresh(req).(pc := Admission)];
    NextIsReachable(cfg, s, Run(0, Proceed));
    s := Next(cfg, s, Run(0, Proceed));
    NextIsReachable(cfg, s, Run(1, Proceed));
    s := Next(cfg, s, Run(1, Proceed));
    assert s.procs == map[0 := Fresh(req).(pc := Acquiring), 1 := Fresh(req).(pc := Acquiring)];
  }

  /** The first takes the lock and calls the adapter. */
  lemma FirstCalls(cfg: Config, req: Request, s0: World) returns (s: World)
    requires Reachable(cfg, s0)
    requires s0 == START.(procs := map[0 := Fresh(req).(pc := Acquiring), 1 := Fresh(req).(pc := Acquiring)])
    ensures Reachable(cfg, s) && s.procs.Keys == {0, 1} && s.procs[1] == s0.procs[1]
    ensures s.procs[0] == Proc(req, InFlight, true, 0.0)
    ensures s == START.(procs := s.procs, locks := map[MakeKey(req) := Lock(0, cfg.lockTtl)])
  {
    s := s0;
    NextIsReachable(cfg, s, Run(0, Proceed));
    s := Next(cfg, s, Run(0, Proceed));
    assert s.procs[0] == Proc(req, Calling, true, 0.0) && s.procs.Keys == {0, 1};
    NextIsReachable(cfg, s, Run(0, Proceed));
    s := Next(cfg, s, Run(0, Proceed));
  }

  /** The call returns. */
  lemma FirstReturns(cfg: Config, req: Request, r: AdapterResult, s0: World) returns (s: World)
    requires Reachable(cfg, s0)
    requires s0 == START.(procs := map[0 := Fresh(req).(pc := Acquiring), 1 := Fresh(req).(pc := Acquiring)])
    ensures Reachable(cfg, s) && s.procs.Keys == {0, 1} && s.procs[1] == s0.procs[1]
    ensures s.procs[0] == Proc(req, Storing(PayloadOf(req, r)), true, 0.0)
    ensures s.now == 0.0 && s.locks == map[MakeKey(req) := Lock(0, cfg.lockTtl)]
    ensures s.calls == [Call(0, req, 0.0, Returned(r))] && s.breaker == FRESH
  {
    s := FirstCalls(cfg, req, s0);
    NextIsReachable(cfg, s, Run(0, Returns(r)));
    s := Next(cfg, s, Run(0, Returns(r)));
  }

  /** It writes the value and releases the lock. */
  lemma FirstFinishes(cfg: Config, req: Request, r: AdapterResult, s0: World) returns (s: World)
    requires Reachable(cfg, s0)
    requires s0 == START.(procs := map[0 := Fresh(req).(pc := Acquiring), 1 := Fresh(req).(pc := Acquiring)])
    ensures Reachable(cfg, s)
    ensures 1 in s.procs && s.procs[1] == s0.procs[1] && s.now == 0.0 && s.locks == map[]
    ensures CacheGet(s, MakeKey(req)) == (if 0.0 < cfg.cacheTtl then Some(PayloadOf(req, r)) else None)
    ensures s.calls == [Call(0, req, 0.0, Returned(r))] && s.breaker == FRESH
  {
    s := FirstReturns(cfg, req, r, s0);
    NextIsReachable(cfg, s, Run(0, Proceed));
    s := Next(cfg, s, Run(0, Proceed));
    assert s.procs[0].pc.Releasing?;
    NextIsReachable(cfg, s, Run(0, Proceed));
    s := Next(cfg, s, Run(0, Proceed));
    assert s.locks == map[];
  }

  /** "One call instead of N" fails: with Redis up and no time passing, a
      request that missed the cache early takes the free lock late and calls the
      adapter although the value is in the cache by then. */
  lemma SecondCallForCachedKey(cfg: Config, req: Request, r: AdapterResult) returns (s: World)
    requires cfg.collapsing && Received(req) && 0.0 < cfg.cacheTtl
    ensures Reachable(cfg, s) && 1 in s.procs && s.procs[1].req == req && s.procs[1].pc == InFlight
    ensures |s.calls| == 1 && s.calls[0].req == req && s.calls[0].result.Returned?
    ensures CacheGet(s, MakeKey(req)) == Some(PayloadOf(req, r))
  {
    s := BothMiss(cfg, req);
    s := FirstFinishes(cfg, req, r, s);
    NextIsReachable(cfg, s, Run(1, Proceed));
    s := Next(cfg, s, Run(1, Proceed));
    NextIsReachable(cfg, s, Run(1, Proceed));
    s := Next(cfg, s, Run(1, Proceed));
  }

  /* ---------- how the value got into the cache ---------- */

  /** The step writes the cache entry of `key`. */
  predicate StepWrites(s: World, e: Event, key: string) {
    && e.Run? && e.choice != RequestLost
    && e.pid in s.procs && s.procs[e.pid].pc.Storing? && MakeKey(s.procs[e.pid].req) == key
  }

  /** The step from ss[j] writes the cache entry of `key`, which is still live at ss[n]. */
  ghost predicate WritesLive(cfg: Config, ss: seq<World>, es: seq<Event>, j: nat, n: nat, key: string)
    requires j < |es| < |ss| && n < |ss|
  {
    StepWrites(ss[j], es[j], key) && ss[n].now < ss[j].now + cfg.cacheTtl
  }

  lemma CacheStep(cfg: Config, s: World, e: Event, key: string)
    requires Enabled(s, e)
    ensures var s' := Next(cfg, s, e);
            if StepWrites(s, e, key)
            then key in s'.cache && s'.cache[key].expireAt == s.now + cfg.cacheTtl
            else (key in s'.cache <==> key in s.cache) && (key in s.cache ==> s'.cache[key] == s.cache[key])
  {
    if e.Run? {
      match s.procs[e.pid].pc
      case Lookup =>
      case Admission =>
      case Acquiring =>
      case Polling(_) =>
      case InFlight =>
      case Storing(_) =>
      case Releasing(_, _) =>
      case _ =>
    }
  }

  lemma {:induction false} TimeGrows(cfg: Config, ss: seq<World>, es: seq<Event>, i: nat, n: nat)
    requires Behaviour(cfg, ss, es) && i <= n < |ss|
    ensures ss[i].now <= ss[n].now
  {
    if i < n {
      TimeGrows(cfg, ss, es, i, n - 1);
      assert Follows(cfg, ss, es, n - 1);
      TimeAdvances(cfg, ss[n - 1], es[n - 1]);
    }
  }

  /** Every entry was written by a step, and has been there since. */
  lemma {:induction false} EntryWasWritten(cfg: Config, ss: seq<World>, es: seq<Event>, n: nat, key: string)
    returns (j: nat)
    requires Behaviour(cfg, ss, es) && n < |ss| && key in ss[n].cache
    ensures j < n && StepWrites(ss[j], es[j], key) && ss[n].cache[key].expireAt == ss[j].now + cfg.cacheTtl
    ensures forall m | j < m <= n :: key in ss[m].cache && ss[m].cache[key] == ss[n].cache[key]
  {
    var s, e := ss[n - 1], es[n - 1];
    assert Follows(cfg, ss, es, n - 1);
    CacheStep(cfg, s, e, key);
    if StepWrites(s, e, key) {
      j := n - 1;
    } else {
      j := EntryWasWritten(cfg, ss, es, n - 1, key);
    }
  }

  /** A written entry stays; later writes only prolong it. */
  lemma {:induction false} WrittenEntryStays(cfg: Config, ss: seq<World>, es: seq<Event>, j: nat, n: nat, key: string)
    requires Behaviour(cfg, ss, es) && j < n < |ss| && StepWrites(ss[j], es[j], key)
    ensures key in ss[n].cache && ss[j].now + cfg.cacheTtl <= ss[n].cache[key].expireAt
  {
    var s, e := ss[n - 1], es[n - 1];
    assert Follows(cfg, ss, es, n - 1);
    CacheStep(cfg, s, e, key);
    if j < n - 1 {
      WrittenEntryStays(cfg, ss, es, j, n - 1, key);
      TimeGrows(cfg, ss, es, j, n - 1);
    }
  }

  /** After a miss at `i` the value is live at `n` exactly when a write since
      then has not expired. */
  lemma LiveExactlySinceWrite(cfg: Config, ss: seq<World>, es: seq<Event>, i: nat, n: nat, key: string)
    requires Behaviour(cfg, ss, es) && i <= n < |ss| && CacheGet(ss[i], key).None?
    ensures CacheGet(ss[n], key).Some? <==> exists j | i <= j < n :: WritesLive(cfg, ss, es, j, n, key)
  {
    if CacheGet(ss[n], key).Some? {
      var j := EntryWasWritten(cfg, ss, es, n, key);
      TimeGrows(cfg, ss, es, i, n);
      assert WritesLive(cfg, ss, es, j, n, key);
    }
    if j: nat :| i <= j < n && WritesLive(cfg, ss, es, j, n, key) {
      WrittenEntryStays(cfg, ss, es, j, n, key);
    }
  }

  predicate PastLookup(pc: Pc) {
    !pc.Lookup? && !pc.Finished?
  }

  /** At ss[i] the request read the cache, and found nothing or met a fault. */
  ghost predicate LookedUpInVain(ss: seq<World>, es: seq<Event>, i: nat, pid: Pid, req: Request)
    requires i < |es| < |ss|
  {
    && es[i].Run? && es[i].pid == pid && pid in ss[i].procs
    && ss[i].procs[pid].req == req && ss[i].procs[pid].pc.Lookup?
    && (es[i].choice == Proceed ==> CacheGet(ss[i], MakeKey(req)).None?)
  }

  lemma LookupStep(cfg: Config, s: World, e: Event, pid: Pid)
    requires Enabled(s, e) && pid in Next(cfg, s, e).procs && PastLookup(Next(cfg, s, e).procs[pid].pc)
    ensures pid in s.procs && s.procs[pid].req == Next(cfg, s, e).procs[pid].req
    ensures PastLookup(s.procs[pid].pc) ||
            (e.Run? && e.pid == pid && s.procs[pid].pc.Lookup?
             && (e.choice == Proceed ==> CacheGet(s, MakeKey(s.procs[pid].req)).None?))
  {
    if e.Run? && e.pid == pid {
      RequestStays(cfg, s, e, pid);
      if s.procs[pid].pc.Lookup? {
        assert Next(cfg, s, e) == StepLookup(s, pid, e.choice);
      }
    } else if pid in s.procs {
      OthersStay(cfg, s, e, pid);
    } else if e.Run? {
      StepMovesOne(cfg, s, e.pid, e.choice);
    }
  }

  lemma {:induction false} EveryRequestLookedUp(cfg: Config, ss: seq<World>, es: seq<Event>, n: nat, pid: Pid)
    returns (i: nat)
    requires Behaviour(cfg, ss, es) && n < |ss| && pid in ss[n].procs && PastLookup(ss[n].procs[pid].pc)
    ensures i < n && LookedUpInVain(ss, es, i, pid, ss[n].procs[pid].req)
  {
    assert Follows(cfg, ss, es, n - 1);
    LookupStep(cfg, ss[n - 1], es[n - 1], pid);
    if PastLookup(ss[n - 1].procs[pid].pc) {
      i := EveryRequestLookedUp(cfg, ss, es, n - 1, pid);
    } else {
      i := n - 1;
    }
  }

  /** The exact reach of collapsing: a request past its lookup, be it calling
      the adapter, looked up in vain at some step `i`; and unless that was a
      fault, its value is live at `n` exactly when it was written strictly
      after the lookup and has not expired. */
  lemma CallsForCachedKeyExactly(cfg: Config, ss: seq<World>, es: seq<Event>, n: nat, pid: Pid) returns (i: nat)
    requires Behaviour(cfg, ss, es) && n < |ss| && pid in ss[n].procs && PastLookup(ss[n].procs[pid].pc)
    ensures i < n && LookedUpInVain(ss, es, i, pid, ss[n].procs[pid].req)
    ensures var key := MakeKey(ss[n].procs[pid].req);
            es[i].choice == Proceed ==>
              (CacheGet(ss[n], key).Some? <==> exists j | i < j < n :: WritesLive(cfg, ss, es, j, n, key))
  {
    var key := MakeKey(ss[n].procs[pid].req);
    i := EveryRequestLookedUp(cfg, ss, es, n, pid);
    if es[i].choice == Proceed {
      LiveExactlySinceWrite(cfg, ss, es, i, n, key);
      assert !StepWrites(ss[i], es[i], key);
      assert (exists j | i <= j < n :: WritesLive(cfg, ss, es, j, n, key)) <==>
             exists j | i < j < n :: WritesLive(cfg, ss, es, j, n, key);
    }
  }

  /* ---------- the breaker and calls under way ---------- */

  predicate PastAdmission(pc: Pc) {
    !pc.Lookup? && !pc.Admission? && !pc.Finished?
  }

  predicate Blocked(cfg: Config, s: World) {
    Blocks(cfg.breaker, s.breaker, s.now)
  }

  /** At ss[j] the request passed the breaker, which did not block then. */
  ghost predicate Admitted(cfg: Config, ss: seq<World>, es: seq<Event>, j: nat, pid: Pid)
    requires j < |es| < |ss|
  {
    && es[j].Run? && es[j].pid == pid
    && pid in ss[j].procs && ss[j].procs[pid].pc.Admission? && !Blocked(cfg, ss[j])
  }

  lemma AdmissionStep(cfg: Config, s: World, e: Event, pid: Pid)
    requires Enabled(s, e) && pid in Next(cfg, s, e).procs && PastAdmission(Next(cfg, s, e).procs[pid].pc)
    ensures pid in s.procs
    ensures PastAdmission(s.procs[pid].pc) ||
            (e.Run? && e.pid == pid && s.procs[pid].pc.Admission? && !Blocked(cfg, s))
  {
    if e.Run? && e.pid == pid {
      match s.procs[pid].pc
      case Lookup =>
      case Admission =>
      case _ =>
    } else if pid in s.procs {
      OthersStay(cfg, s, e, pid);
    } else if e.Run? {
      StepMovesOne(cfg, s, e.pid, e.choice);
    }
  }

  /** Every request on its way to, in or after an adapter call was admitted by
      a breaker that did not block at that moment. */
  lemma {:induction false} EveryCallWasAdmitted(cfg: Config, ss: seq<World>, es: seq<Event>, n: nat, pid: Pid)
    returns (j: nat)
    requires Behaviour(cfg, ss, es) && n < |ss| && pid in ss[n].procs && PastAdmission(ss[n].procs[pid].pc)
    ensures j < n && Admitted(cfg, ss, es, j, pid)
  {
    assert Follows(cfg, ss, es, n - 1);
    AdmissionStep(cfg, ss[n - 1], es[n - 1], pid);
    if PastAdmission(ss[n - 1].procs[pid].pc) {
      j := EveryCallWasAdmitted(cfg, ss, es, n - 1, pid);
    } else {
      j := n - 1;
    }
  }

  /** The step reports a failure to the breaker. */
  predicate ReportsFailure(s: World, e: Event) {
    match e
    case Elsewhere(use) => use == OtherFailure
    case Run(pid, c) => pid in s.procs && s.procs[pid].pc.InFlight? && !c.Returns?
    case _ => false
  }

  /** The step from ss[k] reports a failure that opens, or re-opens, the circuit. */
  ghost predicate Trips(ss: seq<World>, es: seq<Event>, k: nat)
    requires k < |es| < |ss|
  {
    ReportsFailure(ss[k], es[k]) && ss[k + 1].breaker.state == Open && ss[k + 1].breaker.openedAt == Some(ss[k].now)
  }

  lemma BreakerStep(cfg: Config, s: World, e: Event)
    requires Enabled(s, e)
    ensures var b, b' := s.breaker, Next(cfg, s, e).breaker;
            || (ReportsFailure(s, e) && b'.state == Open && b'.openedAt == Some(s.now))
            || b' == b.(failures := b'.failures)
            || b' == AfterProbe(cfg.breaker, b, s.now)
            || b' == AfterSuccess(b)
  {
    if e.Run? {
      match s.procs[e.pid].pc
      case Lookup =>
      case Admission =>
      case Acquiring =>
      case Polling(_) =>
      case InFlight =>
      case Storing(_) =>
      case Releasing(_, _) =>
      case _ =>
    }
  }

  /** A circuit that blocks now and did not at `j` has the opening time of a
      trip in between. */
  lemma {:induction false} LastTrip(cfg: Config, ss: seq<World>, es: seq<Event>, j: nat, n: nat) returns (k: nat)
    requires Behaviour(cfg, ss, es) && j <= n < |ss| && !Blocked(cfg, ss[j]) && Blocked(cfg, ss[n])
    ensures j <= k < n && Trips(ss, es, k) && ss[n].breaker.openedAt == Some(ss[k].now)
  {
    var s, e := ss[n - 1], es[n - 1];
    assert Follows(cfg, ss, es, n - 1);
    BreakerStep(cfg, s, e);
    TimeAdvances(cfg, s, e);
    if Trips(ss, es, n - 1) {
      k := n - 1;
    } else {
      k := LastTrip(cfg, ss, es, j, n - 1);
    }
  }

  /** A trip blocks until the recovery timeout has passed, whatever follows. */
  lemma {:induction false} TripBlocks(cfg: Config, ss: seq<World>, es: seq<Event>, k: nat, n: nat)
    requires Behaviour(cfg, ss, es) && k < n < |ss| && Trips(ss, es, k)
    requires ss[n].now < ss[k].now + cfg.breaker.recoveryTimeout
    ensures Blocked(cfg, ss[n]) && ss[k].now <= ss[n].breaker.openedAt.value
  {
    var s, e := ss[n - 1], es[n - 1];
    assert Follows(cfg, ss, es, n - 1);
    if k < n - 1 {
      TimeAdvances(cfg, s, e);
      TimeGrows(cfg, ss, es, k, n - 1);
      TripBlocks(cfg, ss, es, k, n - 1);
      BreakerStep(cfg, s, e);
    }
  }

  /** The circuit blocks at `n`, for a request past its admission, exactly when
      a failure tripped it after that admission and less than the recovery
      timeout ago. So a call starts while the circuit is open only like that. */
  lemma BlocksExactlyAfterTrip(cfg: Config, ss: seq<World>, es: seq<Event>, n: nat, pid: Pid) returns (j: nat)
    requires Behaviour(cfg, ss, es) && n < |ss| && pid in ss[n].procs && PastAdmission(ss[n].procs[pid].pc)
    ensures j < n && Admitted(cfg, ss, es, j, pid)
    ensures Blocked(cfg, ss[n]) <==>
            exists k | j < k < n ::
              Trips(ss, es, k) && ss[n].now < ss[k].now + cfg.breaker.recoveryTimeout
  {
    j := EveryCallWasAdmitted(cfg, ss, es, n, pid);
    if Blocked(cfg, ss[n]) {
      var k := LastTrip(cfg, ss, es, j, n);
      assert !ReportsFailure(ss[j], es[j]);
    }
    if k: nat :| j < k < n && Trips(ss, es, k)
                 && ss[n].now < ss[k].now + cfg.breaker.recoveryTimeout {
      TripBlocks(cfg, ss, es, k, n);
    }
  }

  /* ---------- calls that start while the circuit is open ---------- */

  ghost predicate StartsWhileOpen(cfg: Config, s: World) {
    Blocked(cfg, s) && exists pid | pid in s.procs :: s.procs[pid].pc == Calling && CanStep(s, pid, Proceed)
  }

  /** Failures elsewhere, all at time 0. */
  lemma {:induction false} FailuresElsewhere(cfg: Config, s0: World, n: nat) returns (s: World)
    requires Reachable(cfg, s0) && s0.now == 0.0 && s0.breaker == FRESH
    requires n <= cfg.breaker.failureThreshold && 0 < cfg.breaker.failureThreshold && 0.0 <= cfg.breaker.window
    ensures Reachable(cfg, s) && s == s0.(breaker := s.breaker) && Runs.AfterBurst(cfg.breaker, n, s.breaker)
  {
    if n == 0 {
      s := s0;
    } else {
      s := FailuresElsewhere(cfg, s0, n - 1);
      Runs.FailureExtendsBurst(cfg.breaker, n - 1, s.breaker);
      NextIsReachable(cfg, s, Elsewhere(OtherFailure));
      s := Next(cfg, s, Elsewhere(OtherFailure));
    }
  }

  /** Some failures open the circuit: as many as the threshold says. */
  lemma OpensElsewhere(cfg: Config, s0: World) returns (s: World)
    requires Reachable(cfg, s0) && s0.now == 0.0 && s0.breaker == FRESH
    requires cfg.breaker.failureThreshold <= 0 || 0.0 <= cfg.breaker.window
    ensures Reachable(cfg, s) && s == s0.(breaker := s.breaker)
    ensures s.breaker.state == Open && s.breaker.openedAt == Some(0.0)
  {
    if cfg.breaker.failureThreshold <= 0 {
      NextIsReachable(cfg, s0, Elsewhere(OtherFailure));
      s := Next(cfg, s0, Elsewhere(OtherFailure));
    } else {
      s := FailuresElsewhere(cfg, s0, cfg.breaker.failureThreshold);
    }
  }

  /** A request is admitted, the circuit opens, and the request takes the lock
      and calls the adapter. */
  lemma CallStartsWhileOpen(cfg: Config, req: Request) returns (s: World)
    requires cfg.collapsing && Received(req) && 0.0 < cfg.breaker.recoveryTimeout
    requires cfg.breaker.failureThreshold <= 0 || 0.0 <= cfg.breaker.window
    ensures Reachable(cfg, s) && StartsWhileOpen(cfg, s) && 1 in s.procs && s.procs[1].req == req
  {
    s := BothMiss(cfg, req);
    s := OpensElsewhere(cfg, s);
    NextIsReachable(cfg, s, Run(1, Proceed));
    s := Next(cfg, s, Run(1, Proceed));
    assert s.procs[1].pc == Calling && CanStep(s, 1, Proceed);
  }

  lemma BlockingNeeds(cfg: Config, s: World)
    requires Reachable(cfg, s) && Blocked(cfg, s)
    ensures 0.0 < cfg.breaker.recoveryTimeout
    ensures cfg.breaker.failureThreshold <= 0 || 0.0 <= cfg.breaker.window
  {
    var ss, es :| Behaviour(cfg, ss, es) && ss[|ss| - 1] == s;
    BreakerFollowsItsTrace(cfg, ss, es, |ss| - 1);
    Runs.HalfOpenOnlyAfterRecovery(cfg.breaker, BreakerTrace(ss, es, |ss| - 1), s.now);
    Runs.OpeningNeedsWindow(cfg.breaker, BreakerTrace(ss, es, |ss| - 1));
  }

  /** With collapsing a call can start while the circuit is open exactly for the
      settings under which the circuit can block at all. */
  lemma CallsStartWhileOpenExactly(cfg: Config)
    requires cfg.collapsing
    ensures (exists s :: Reachable(cfg, s) && StartsWhileOpen(cfg, s)) <==>
            && 0.0 < cfg.breaker.recoveryTimeout
            && (cfg.breaker.failureThreshold <= 0 || 0.0 <= cfg.breaker.window)
  {
    if s :| Reachable(cfg, s) && StartsWhileOpen(cfg, s) {
      BlockingNeeds(cfg, s);
    }
    if 0.0 < cfg.breaker.recoveryTimeout && (cfg.breaker.failureThreshold <= 0 || 0.0 <= cfg.breaker.window) {
      var s := CallStartsWhileOpen(cfg, Request([], [], None));
    }
  }

  /* ---------- an old call and a new circuit ---------- */

  /** A call is under way when the circuit trips. */
  lemma CallMeetsTrip(cfg: Config, req: Request) returns (s: World)
    requires cfg.collapsing && Received(req)
    requires cfg.breaker.failureThreshold <= 0 || 0.0 <= cfg.breaker.window
    ensures Reachable(cfg, s) && s.now == 0.0 && 0 in s.procs && s.procs[0] == Proc(req, InFlight, true, 0.0)
    ensures s.breaker.state == Open && s.breaker.openedAt == Some(0.0)
  {
    s := BothMiss(cfg, req);
    s := FirstCalls(cfg, req, s);
    s := OpensElsewhere(cfg, s);
  }

  /** A call admitted before the trip can close the circuit: it is under way at
      `tripped`, while the circuit blocks; after the recovery timeout a health
      check makes the circuit HALF_OPEN; and when the old call returns the
      circuit is as new, without a call that HALF_OPEN let through. */
  lemma OldCallClosesCircuit(cfg: Config, req: Request, r: AdapterResult) returns (tripped: World, half: World)
    requires cfg.collapsing && Received(req) && 0.0 < cfg.breaker.recoveryTimeout
    requires cfg.breaker.failureThreshold <= 0 || 0.0 <= cfg.breaker.window
    ensures Reachable(cfg, tripped) && Blocked(cfg, tripped)
    ensures 0 in tripped.procs && tripped.procs[0].req == req && tripped.procs[0].pc == InFlight
    ensures Reachable(cfg, half) && half.breaker.state == HalfOpen
    ensures half.procs == tripped.procs && half.calls == tripped.calls
    ensures CanStep(half, 0, Returns(r)) && Step(cfg, half, 0, Returns(r)).breaker == FRESH
  {
    tripped := CallMeetsTrip(cfg, req);
    NextIsReachable(cfg, tripped, Advance(cfg.breaker.recoveryTimeout));
    var later := Next(cfg, tripped, Advance(cfg.breaker.recoveryTimeout));
    NextIsReachable(cfg, later, Elsewhere(OtherProbe));
    half := Next(cfg, later, Elsewhere(OtherProbe));
  }
}
