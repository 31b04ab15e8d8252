/** Exactly which timings make request collapsing keep its promises: lock TTL
    plus poll period must exceed neither the wait timeout nor the cache TTL.
    For every other timing a run is built, with Redis up and nobody late, in
    which a follower gives up and two calls for one key are in flight. */
module TimingBounds {
  import opened Prelude
  import opened CacheKeys
  import opened BreakerStates
  import opened Gateway
  import opened SingleFlight
  import opened PromptRuns

  /** Collapsing is on, and followers can poll as often as they have to. */
  predicate Polls(cfg: Config, poll: real) {
    cfg.collapsing && 0.0 < cfg.lockTtl && 0.0 < poll && cfg.pollInterval <= poll
  }

  predicate Fits(cfg: Config, poll: real) {
    cfg.lockTtl + poll <= cfg.waitTimeout && cfg.lockTtl + poll <= cfg.cacheTtl
  }

  /* ---------- three equal requests ---------- */

  /** A request without the lock. */
  function Asking(req: Request, pc: Pc): Proc {
    Proc(req, pc, false, 0.0)
  }

  /** The request that took the lock at time 0. */
  function Leader(req: Request, pc: Pc): Proc {
    Proc(req, pc, true, 0.0)
  }

  function Done(req: Request, r: AdapterResult, at: real): Proc {
    Leader(req, Finished(Answered(BuildResponse(PayloadOf(req, r), false)), at))
  }

  /** A leader, a follower and a third request that is slow to try the lock. */
  ghost predicate Scene(s: World, now: real, leader: Proc, follower: Proc, third: Proc) {
    s.now == now && s.breaker == FRESH && s.procs == map[0 := leader, 1 := follower, 2 := third]
  }

  /** Nothing is cached, and the leader holds the lock. */
  ghost predicate Begun(cfg: Config, s: World, req: Request) {
    s.cache == map[] && s.locks == map[MakeKey(req) := Lock(0, cfg.lockTtl)]
  }

  /** A request that finds the cache empty gets as far as trying the lock. */
  lemma MissAndPass(cfg: Config, poll: real, s0: World, req: Request, pid: Pid) returns (s: World)
    requires Polls(cfg, poll) && Reached(cfg, poll, s0) && s0.cache == map[] && s0.breaker == FRESH
    requires pid in s0.procs && s0.procs[pid] == Asking(req, Lookup)
    ensures Reached(cfg, poll, s) && s == s0.(procs := s0.procs[pid := Asking(req, Acquiring)])
  {
    s := Move(cfg, poll, s0, pid, Proceed);
    s := Move(cfg, poll, s, pid, Proceed);
  }

  lemma Arrival(cfg: Config, poll: real, s0: World, req: Request, pid: Pid) returns (s: World)
    requires Reached(cfg, poll, s0) && pid !in s0.procs && Received(req)
    ensures Reached(cfg, poll, s) && s == s0.(procs := s0.procs[pid := Asking(req, Lookup)])
  {
    ReachedIsPrompt(cfg, poll, s0);
    s := Extend(cfg, poll, s0, Arrive(pid, req));
  }

  lemma AllMiss(cfg: Config, poll: real, req: Request) returns (s: World)
    requires Polls(cfg, poll) && Received(req)
    ensures Reached(cfg, poll, s) && s.cache == map[] && s.locks == map[]
    ensures Scene(s, 0.0, Asking(req, Acquiring), Asking(req, Acquiring), Asking(req, Acquiring))
  {
    StartIsReached(cfg, poll);
    s := Arrival(cfg, poll, START, req, 0);
    s := Arrival(cfg, poll, s, req, 1);
    s := Arrival(cfg, poll, s, req, 2);
    s := MissAndPass(cfg, poll, s, req, 0);
    s := MissAndPass(cfg, poll, s, req, 1);
    s := MissAndPass(cfg, poll, s, req, 2);
  }

  /** At time 0 the leader takes the lock and calls the adapter. */
  lemma LeaderCalls(cfg: Config, poll: real, req: Request) returns (s: World)
    requires Polls(cfg, poll) && Received(req)
    ensures Reached(cfg, poll, s) && Begun(cfg, s, req)
    ensures Scene(s, 0.0, Leader(req, InFlight), Asking(req, Acquiring), Asking(req, Acquiring))
  {
    s := AllMiss(cfg, poll, req);
    s := Move(cfg, poll, s, 0, Proceed);
    assert s.procs[0] == Leader(req, Calling);
    s := Move(cfg, poll, s, 0, Proceed);
  }

  lemma LeaderReturns(cfg: Config, poll: real, s0: World, req: Request, r: AdapterResult,
                      now: real, follower: Proc, third: Proc) returns (s: World)
    requires Reached(cfg, poll, s0) && Scene(s0, now, Leader(req, InFlight), follower, third) && now < cfg.lockTtl
    ensures Reached(cfg, poll, s) && s.locks == s0.locks && s.cache == s0.cache
    ensures Scene(s, now, Leader(req, Storing(PayloadOf(req, r))), follower, third)
  {
    s := Move(cfg, poll, s0, 0, Returns(r));
  }

  /** The call returns and the value is written. */
  lemma LeaderStores(cfg: Config, poll: real, s0: World, req: Request, r: AdapterResult,
                     now: real, follower: Proc, third: Proc) returns (s: World)
    requires Reached(cfg, poll, s0) && Begun(cfg, s0, req) && now < cfg.lockTtl
    requires Scene(s0, now, Leader(req, InFlight), follower, third)
    ensures Reached(cfg, poll, s) && s.locks == s0.locks
    ensures Scene(s, now, Leader(req, Releasing(PayloadOf(req, r), now)), follower, third)
    ensures s.cache == map[MakeKey(req) := Entry(PayloadOf(req, r), now, now + cfg.cacheTtl)]
  {
    s := LeaderReturns(cfg, poll, s0, req, r, now, follower, third);
    s := Move(cfg, poll, s, 0, Proceed);
  }

  lemma LeaderReleases(cfg: Config, poll: real, s0: World, req: Request, r: AdapterResult,
                       now: real, stored: real, follower: Proc, third: Proc) returns (s: World)
    requires Reached(cfg, poll, s0) && s0.locks == map[MakeKey(req) := Lock(0, cfg.lockTtl)]
    requires Scene(s0, now, Leader(req, Releasing(PayloadOf(req, r), stored)), follower, third)
    ensures Reached(cfg, poll, s) && s.locks == map[] && s.cache == s0.cache
    ensures Scene(s, now, Done(req, r, now), follower, third)
  {
    s := Move(cfg, poll, s0, 0, Proceed);
    assert s.locks == map[];
  }

  /** The follower tries the lock while it is held, and enters its loop. */
  lemma FollowerLoses(cfg: Config, poll: real, s0: World, req: Request, now: real, leader: Proc, third: Proc)
    returns (s: World)
    requires Polls(cfg, poll) && Reached(cfg, poll, s0) && Locked(s0, MakeKey(req))
    requires Scene(s0, now, leader, Asking(req, Acquiring), third)
    ensures Reached(cfg, poll, s) && s.cache == s0.cache && s.locks == s0.locks
    ensures Scene(s, now, leader, Asking(req, AtHead(Wait(now, now + cfg.waitTimeout, now))), third)
  {
    s := Move(cfg, poll, s0, 1, Proceed);
    assert s.procs[1] == Asking(req, EnterWait(now));
    s := Move(cfg, poll, s, 1, Proceed);
  }

  /* ---------- the polling loop ---------- */

  lemma StartsPoll(cfg: Config, poll: real, s0: World, req: Request, now: real, w: Wait, leader: Proc, third: Proc)
    returns (s: World)
    requires Reached(cfg, poll, s0) && now < w.deadline && now <= w.lastPoll + poll
    requires Scene(s0, now, leader, Asking(req, AtHead(w)), third)
    ensures Reached(cfg, poll, s) && s.cache == s0.cache && s.locks == s0.locks
    ensures Scene(s, now, leader, Asking(req, Polling(w)), third)
  {
    s := Move(cfg, poll, s0, 1, Proceed);
  }

  /** Before the deadline: the follower reads the cache, in vain, and sleeps. */
  lemma PollInVain(cfg: Config, poll: real, s0: World, req: Request, now: real, w: Wait, leader: Proc, third: Proc)
    returns (s: World)
    requires Polls(cfg, poll) && Reached(cfg, poll, s0) && CacheGet(s0, MakeKey(req)).None?
    requires now < w.deadline && now <= w.lastPoll + poll
    requires Scene(s0, now, leader, Asking(req, AtHead(w)), third)
    ensures Reached(cfg, poll, s) && s.cache == s0.cache && s.locks == s0.locks
    ensures Scene(s, now, leader, Asking(req, Sleeping(w.(lastPoll := now), now + cfg.pollInterval)), third)
  {
    s := StartsPoll(cfg, poll, s0, req, now, w, leader, third);
    s := Move(cfg, poll, s, 1, Proceed);
  }

  /** It oversleeps up to the poll period. */
  lemma Oversleep(cfg: Config, poll: real, s0: World, req: Request, now: real, w: Wait, leader: Proc)
    returns (s: World)
    requires Polls(cfg, poll) && Reached(cfg, poll, s0) && now == w.lastPoll && OnTime(cfg, poll, leader, now + poll)
    requires Scene(s0, now, leader, Asking(req, Sleeping(w, now + cfg.pollInterval)), Asking(req, Acquiring))
    ensures Reached(cfg, poll, s) && s.cache == s0.cache && s.locks == s0.locks
    ensures Scene(s, now + poll, leader, Asking(req, AtHead(w)), Asking(req, Acquiring))
  {
    s := Pass(cfg, poll, s0, now + poll);
    s := Move(cfg, poll, s, 1, Proceed);
  }

  lemma OneMorePoll(cfg: Config, poll: real, s0: World, req: Request, now: real, w: Wait, leader: Proc)
    returns (s: World)
    requires Polls(cfg, poll) && Reached(cfg, poll, s0) && CacheGet(s0, MakeKey(req)).None?
    requires now < w.deadline && now <= w.lastPoll + poll && OnTime(cfg, poll, leader, now + poll)
    requires Scene(s0, now, leader, Asking(req, AtHead(w)), Asking(req, Acquiring))
    ensures Reached(cfg, poll, s) && s.cache == s0.cache && s.locks == s0.locks
    ensures Scene(s, now + poll, leader, Asking(req, AtHead(w.(lastPoll := now))), Asking(req, Acquiring))
  {
    s := PollInVain(cfg, poll, s0, req, now, w, leader, Asking(req, Acquiring));
    s := Oversleep(cfg, poll, s, req, now, w.(lastPoll := now), leader);
  }

  /** After the deadline it goes on to the adapter. */
  lemma GivesUp(cfg: Config, poll: real, s0: World, req: Request, now: real, w: Wait, leader: Proc, third: Proc)
    returns (s: World)
    requires Reached(cfg, poll, s0) && w.deadline <= now
    requires Scene(s0, now, leader, Asking(req, AtHead(w)), third)
    ensures Reached(cfg, poll, s) && s.locks == s0.locks && Scene(s, now, leader, Asking(req, Calling), third)
  {
    s := Move(cfg, poll, s0, 1, Proceed);
  }

  /** How many poll periods fit in a stretch of time. */
  function Periods(stretch: real, poll: real): nat
    requires 0.0 < poll
  {
    if stretch <= 0.0 then 0
    else
      PositiveQuotient(stretch, poll);
      (stretch / poll).Floor + 1
  }

  lemma PositiveQuotient(stretch: real, poll: real)
    requires 0.0 < stretch && 0.0 < poll
    ensures 0.0 <= stretch / poll
  {
  }

  lemma QuotientOfDifference(stretch: real, poll: real)
    requires 0.0 < poll
    ensures (stretch - poll) / poll == stretch / poll - 1.0
  {
    var q, less := stretch / poll, (stretch - poll) / poll;
    assert q * poll == stretch && less * poll == stretch - poll;
    assert (q - 1.0) * poll == stretch - poll;
    Cancel(less, q - 1.0, poll);
  }

  lemma Cancel(a: real, b: real, c: real)
    requires 0.0 < c && a * c == b * c
    ensures a == b
  {
    assert (a - b) * c == 0.0;
  }

  lemma OnePeriodLess(stretch: real, poll: real)
    requires 0.0 < poll && 0.0 < stretch
    ensures Periods(stretch - poll, poll) < Periods(stretch, poll)
  {
    PositiveQuotient(stretch, poll);
    QuotientOfDifference(stretch, poll);
  }

  /* ---------- a cache TTL that is too short ---------- */

  /** The lock is free, the follower has given up and the third request has
      not tried the lock yet. */
  ghost predicate Stranded(s: World, req: Request) {
    && s.locks == map[] && s.procs.Keys == {0, 1, 2}
    && s.procs[1] == Asking(req, Calling) && s.procs[2] == Asking(req, Acquiring)
  }

  /** From here on every poll misses, up to the deadline. */
  lemma {:induction false} Starves(cfg: Config, poll: real, s0: World, req: Request, now: real, w: Wait, leader: Proc)
    returns (s: World)
    requires Polls(cfg, poll) && Reached(cfg, poll, s0) && CacheGet(s0, MakeKey(req)).None?
    requires now <= w.lastPoll + poll && leader.pc.Finished?
    requires Scene(s0, now, leader, Asking(req, AtHead(w)), Asking(req, Acquiring))
    ensures Reached(cfg, poll, s) && s.locks == s0.locks
    ensures Scene(s, s.now, leader, Asking(req, Calling), Asking(req, Acquiring))
    decreases Periods(w.deadline - now, poll)
  {
    if now < w.deadline {
      s := OneMorePoll(cfg, poll, s0, req, now, w, leader);
      OnePeriodLess(w.deadline - now, poll);
      s := Starves(cfg, poll, s, req, now + poll, w.(lastPoll := now), leader);
    } else {
      s := GivesUp(cfg, poll, s0, req, now, w, leader, Asking(req, Acquiring));
    }
  }

  /** A follower loses the race between the leader's write and its release. */
  lemma LosesAfterWrite(cfg: Config, poll: real, req: Request, r: AdapterResult, lost: real) returns (s: World)
    requires Polls(cfg, poll) && Received(req) && 0.0 <= lost < cfg.lockTtl
    ensures Reached(cfg, poll, s) && s.locks == map[]
    ensures s.cache == map[MakeKey(req) := Entry(PayloadOf(req, r), 0.0, cfg.cacheTtl)]
    ensures Scene(s, lost, Done(req, r, lost), Asking(req, AtHead(Wait(lost, lost + cfg.waitTimeout, lost))),
                  Asking(req, Acquiring))
  {
    var asking, leader := Asking(req, Acquiring), Leader(req, Releasing(PayloadOf(req, r), 0.0));
    s := LeaderCalls(cfg, poll, req);
    s := LeaderStores(cfg, poll, s, req, r, 0.0, asking, asking);
    s := Pass(cfg, poll, s, lost);
    s := FollowerLoses(cfg, poll, s, req, lost, leader, asking);
    var waiting := Asking(req, AtHead(Wait(lost, lost + cfg.waitTimeout, lost)));
    s := LeaderReleases(cfg, poll, s, req, r, lost, 0.0, waiting, asking);
  }

  /** The leader writes at once and releases late; a follower that lost the
      race in between first polls when the entry has expired. */
  lemma ExpiryBeforeFirstPoll(cfg: Config, poll: real, req: Request, r: AdapterResult) returns (s: World)
    requires Polls(cfg, poll) && Received(req) && cfg.cacheTtl < cfg.lockTtl + poll
    ensures Reached(cfg, poll, s) && Stranded(s, req)
  {
    var lost := Max(0.0, cfg.cacheTtl - poll);
    s := LosesAfterWrite(cfg, poll, req, r, lost);
    s := Pass(cfg, poll, s, lost + poll);
    s := Starves(cfg, poll, s, req, lost + poll, Wait(lost, lost + cfg.waitTimeout, lost), Done(req, r, lost));
  }

  /* ---------- a wait timeout that is too short ---------- */

  lemma FollowerLosesAtOnce(cfg: Config, poll: real, req: Request) returns (s: World, w: Wait)
    requires Polls(cfg, poll) && Received(req)
    ensures Reached(cfg, poll, s) && Begun(cfg, s, req) && w == Wait(0.0, cfg.waitTimeout, 0.0)
    ensures Scene(s, 0.0, Leader(req, InFlight), Asking(req, AtHead(w)), Asking(req, Acquiring))
  {
    w := Wait(0.0, cfg.waitTimeout, 0.0);
    s := LeaderCalls(cfg, poll, req);
    s := FollowerLoses(cfg, poll, s, req, 0.0, Leader(req, InFlight), Asking(req, Acquiring));
  }

  /** The follower of a slow leader stands at its loop head at any given time
      before the lock TTL and the deadline. */
  lemma {:induction false} FollowerAtHead(cfg: Config, poll: real, req: Request, now: real) returns (s: World, w: Wait)
    requires Polls(cfg, poll) && Received(req) && 0.0 <= now < cfg.lockTtl && (0.0 < now ==> now < cfg.waitTimeout)
    ensures Reached(cfg, poll, s) && Begun(cfg, s, req)
    ensures w.deadline == cfg.waitTimeout && w.lastPoll <= now <= w.lastPoll + poll
    ensures Scene(s, now, Leader(req, InFlight), Asking(req, AtHead(w)), Asking(req, Acquiring))
    decreases Periods(now, poll)
  {
    var leader := Leader(req, InFlight);
    if now <= poll {
      s, w := FollowerLosesAtOnce(cfg, poll, req);
      s := Pass(cfg, poll, s, now);
    } else {
      OnePeriodLess(now, poll);
      s, w := FollowerAtHead(cfg, poll, req, now - poll);
      s := OneMorePoll(cfg, poll, s, req, now - poll, w, leader);
      w := w.(lastPoll := now - poll);
    }
  }

  /** The leader writes right after the follower's last poll before the deadline. */
  lemma WriteAfterLastPoll(cfg: Config, poll: real, req: Request, r: AdapterResult) returns (s: World)
    requires Polls(cfg, poll) && Received(req) && poll < cfg.waitTimeout < cfg.lockTtl + poll
    ensures Reached(cfg, poll, s) && Stranded(s, req)
  {
    var now, asking := cfg.waitTimeout - poll, Asking(req, Acquiring);
    var w;
    s, w := FollowerAtHead(cfg, poll, req, now);
    s := PollInVain(cfg, poll, s, req, now, w, Leader(req, InFlight), asking);
    w := w.(lastPoll := now);
    var sleeping := Asking(req, Sleeping(w, now + cfg.pollInterval));
    s := LeaderStores(cfg, poll, s, req, r, now, sleeping, asking);
    s := LeaderReleases(cfg, poll, s, req, r, now, now, sleeping, asking);
    s := Oversleep(cfg, poll, s, req, now, w, Done(req, r, now));
    s := GivesUp(cfg, poll, s, req, cfg.waitTimeout, w, Done(req, r, now), asking);
  }

  /** A deadline within one poll period passes without a poll. */
  lemma NoPollAtAll(cfg: Config, poll: real, req: Request, r: AdapterResult) returns (s: World)
    requires Polls(cfg, poll) && Received(req) && cfg.waitTimeout <= poll
    ensures Reached(cfg, poll, s) && Stranded(s, req)
  {
    var asking, late := Asking(req, Acquiring), Max(0.0, cfg.waitTimeout);
    var w;
    s, w := FollowerLosesAtOnce(cfg, poll, req);
    s := LeaderStores(cfg, poll, s, req, r, 0.0, Asking(req, AtHead(w)), asking);
    s := LeaderReleases(cfg, poll, s, req, r, 0.0, 0.0, Asking(req, AtHead(w)), asking);
    s := Pass(cfg, poll, s, late);
    s := GivesUp(cfg, poll, s, req, late, w, Done(req, r, 0.0), asking);
  }

  /* ---------- the exact bounds ---------- */

  /** A request that lost the race does not get to the adapter. */
  ghost predicate LosersWait(s: World) {
    forall pid | pid in s.procs && Leading(s.procs[pid].pc) :: s.procs[pid].hasLock
  }

  /** At most one adapter call per key is in flight. */
  ghost predicate OneFlight(s: World) {
    forall a, b | a in s.procs && b in s.procs && s.procs[a].pc.InFlight? && s.procs[b].pc.InFlight?
                  && MakeKey(s.procs[a].req) == MakeKey(s.procs[b].req) :: a == b
  }

  lemma UnfitLoses(cfg: Config, poll: real) returns (s: World, req: Request)
    requires Polls(cfg, poll) && !Fits(cfg, poll)
    ensures Reached(cfg, poll, s) && Stranded(s, req)
  {
    req := Request([], [], None);
    var r := AdapterResult([], None);
    if cfg.cacheTtl < cfg.lockTtl + poll {
      s := ExpiryBeforeFirstPoll(cfg, poll, req, r);
    } else if cfg.waitTimeout <= poll {
      s := NoPollAtAll(cfg, poll, req, r);
    } else {
      s := WriteAfterLastPoll(cfg, poll, req, r);
    }
  }

  /** The follower calls the adapter, and so does the third request, which is
      slow to take the free lock. */
  lemma UnfitOverlaps(cfg: Config, poll: real) returns (s: World)
    requires Polls(cfg, poll) && !Fits(cfg, poll)
    ensures Reached(cfg, poll, s) && !OneFlight(s)
  {
    var req;
    s, req := UnfitLoses(cfg, poll);
    s := Move(cfg, poll, s, 1, Proceed);
    assert s.procs[1] == Asking(req, InFlight) && s.procs[2] == Asking(req, Acquiring);
    s := Move(cfg, poll, s, 2, Proceed);
    assert s.procs[1] == Asking(req, InFlight) && s.procs[2] == Proc(req, Calling, true, s.now);
    s := Move(cfg, poll, s, 2, Proceed);
    assert s.procs[1].pc == InFlight && s.procs[2].pc == InFlight && s.procs[1].req == s.procs[2].req;
  }

  lemma FitIsSuitable(cfg: Config, poll: real, s: World)
    requires Polls(cfg, poll) && Fits(cfg, poll) && Reached(cfg, poll, s)
    ensures LosersWait(s) && OneFlight(s)
  {
    var t := Timing(poll, cfg.lockTtl);
    ReachedIsCollapsed(cfg, poll, s);
    forall pid | pid in s.procs && Leading(s.procs[pid].pc) ensures HoldsLock(cfg, s, pid, s.procs[pid]) {
      assert Orderly(cfg, t, s, pid);
    }
  }

  /** Followers never call the adapter, in any prompt run, exactly when the
      timing fits. */
  lemma DeliveryExactly(cfg: Config, poll: real)
    requires Polls(cfg, poll)
    ensures (forall s | Reached(cfg, poll, s) :: LosersWait(s)) <==> Fits(cfg, poll)
  {
    if Fits(cfg, poll) {
      forall s | Reached(cfg, poll, s) ensures LosersWait(s) {
        FitIsSuitable(cfg, poll, s);
      }
    } else {
      var s, req := UnfitLoses(cfg, poll);
      assert s.procs[1] == Asking(req, Calling);
    }
  }

  /** Single flight holds, in every prompt run, exactly when the timing fits. */
  lemma SingleFlightExactly(cfg: Config, poll: real)
    requires Polls(cfg, poll)
    ensures (forall s | Reached(cfg, poll, s) :: OneFlight(s)) <==> Fits(cfg, poll)
  {
    if Fits(cfg, poll) {
      forall s | Reached(cfg, poll, s) ensures OneFlight(s) {
        FitIsSuitable(cfg, poll, s);
      }
    } else {
      var s := UnfitOverlaps(cfg, poll);
    }
  }
}
