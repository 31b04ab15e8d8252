/** The infer path in the form of its source: classes whose methods await
    Redis, the breaker and the adapter and update them in place, while other
    tasks do the same at every await. Each execution is proved to be a
    behaviour of the state machine. */
module InferenceServices {
  import opened Prelude
  import opened Json
  import opened CacheKeys
  import opened BreakerStates
  import opened CircuitBreakers
  import opened Gateway
  import opened Conservation
  import opened Transparency
  import opened Outcomes
  import Runs = BreakerRuns

  /** The result of awaiting: the task resumes with a value, or is never
      scheduled again within the part of the execution under consideration. */
  datatype Resumed<+T> = Resumed(value: T) | Suspended {
    predicate IsFailure() { Suspended? }
    function PropagateFailure<U>(): Resumed<U> requires Suspended? { Suspended }
    function Extract(): T requires Resumed? { value }
  }

  datatype Reply<+T> = Reply(value: T) | ConnectionError

  /** What happens at one await: the events of other tasks and of the clock,
      and then how the awaited operation ends. */
  datatype Turn = Turn(others: seq<Event>, choice: Choice)

  /* ---------- the shared objects ---------- */

  /** The four Redis commands of the infer path. */
  class Redis {
    var cache: map<string, Entry>
    var locks: map<string, Lock>

    constructor ()
      ensures cache == map[] && locks == map[]
    {
      cache, locks := map[], map[];
    }

    method Get(key: string, now: real) returns (value: Option<Payload>)
      ensures value == if key in cache && now < cache[key].expireAt then Some(cache[key].payload) else None
    {
      if key in cache && now < cache[key].expireAt {
        return Some(cache[key].payload);
      }
      return None;
    }

    method SetEx(key: string, ttl: real, value: Payload, now: real)
      modifies this`cache
      ensures cache == old(cache)[key := Entry(value, now, now + ttl)]
    {
      cache := cache[key := Entry(value, now, now + ttl)];
    }

    /** SET NX EX; the owner is not part of the stored value. */
    method SetNx(key: string, ttl: real, owner: Pid, now: real) returns (acquired: bool)
      modifies this`locks
      ensures acquired <==> !(key in old(locks) && now < old(locks)[key].expireAt)
      ensures locks == if acquired then old(locks)[key := Lock(owner, now + ttl)] else old(locks)
    {
      acquired := key !in locks || locks[key].expireAt <= now;
      if acquired {
        locks := locks[key := Lock(owner, now + ttl)];
      }
    }

    method Del(key: string)
      modifies this`locks
      ensures locks == old(locks) - {key}
    {
      locks := locks - {key};
    }
  }

  /** The token and cost counters. */
  class UsageMeters {
    var tokensIn: map<Text, nat>
    var tokensOut: map<Text, nat>
    var cost: map<Text, real>

    constructor ()
      ensures View() == Meters(map[], map[], map[])
    {
      tokensIn, tokensOut, cost := map[], map[], map[];
    }

    function View(): Meters
      reads this
    {
      Meters(tokensIn, tokensOut, cost)
    }

    method Record(cfg: Config, model: Text, usage: Usage)
      modifies this
      ensures View() == RecordUsage(cfg, old(View()), model, usage)
    {
      tokensIn := tokensIn[model := Count(tokensIn, model) + usage.tokensIn];
      tokensOut := tokensOut[model := Count(tokensOut, model) + usage.tokensOut];
      var estimate := usage.tokensIn as real / 1000.0 * cfg.priceIn + usage.tokensOut as real / 1000.0 * cfg.priceOut;
      assert estimate == EstimateCost(cfg, usage);
      cost := cost[model := Amount(cost, model) + estimate];
    }
  }

  /** The event loop with everything the tasks share. `turns` is an arbitrary
      schedule; events it proposes that cannot happen are skipped. The task
      table `procs` and the log `calls` are bookkeeping that no code reads. */
  class Site {
    const cfg: Config
    const redis: Redis
    const breaker: CircuitBreaker
    const meters: UsageMeters
    var now: real
    var turns: seq<Turn>
    var procs: map<Pid, Proc>
    var calls: seq<Call>
    ghost var history: seq<World>
    ghost var trace: seq<Event>

    constructor (cfg: Config, turns: seq<Turn>)
      ensures Valid() && this.cfg == cfg && View() == START && this.turns == turns
      ensures fresh(redis) && fresh(breaker) && fresh(meters)
    {
      this.cfg := cfg;
      this.turns := turns;
      this.redis := new Redis();
      this.breaker := new CircuitBreaker(cfg.breaker);
      this.meters := new UsageMeters();
      now, procs, calls := 0.0, map[], [];
      history, trace := [START], [];
    }

    ghost function Shared(): set<object> {
      {this, redis, breaker, meters}
    }

    function View(): World
      reads this, redis, breaker, meters
    {
      World(now, redis.cache, redis.locks, breaker.View(), procs, calls, meters.View())
    }

    /** All that happened so far is a behaviour that ends in what the objects hold now. */
    ghost predicate Valid()
      reads this, redis, breaker, meters
    {
      && Behaviour(cfg, history, trace) && View() == history[|history| - 1]
      && breaker.Valid() && breaker.settings == cfg.breaker
    }

    /** The world before the last event. */
    ghost function Before(): World
      requires |history| >= 2
      reads this
    {
      history[|history| - 2]
    }

    ghost predicate Serves(pid: Pid, req: Request, hasLock: bool)
      reads this
    {
      pid in procs && procs[pid].req == req && procs[pid].hasLock == hasLock
    }

    /** The task `pid` serves `req` and stands at program counter `pc`. */
    ghost predicate At(pid: Pid, req: Request, pc: Pc, hasLock: bool)
      reads this
    {
      Serves(pid, req, hasLock) && procs[pid].pc == pc
    }

    ghost predicate Ended(pid: Pid, req: Request, outcome: Outcome)
      reads this
    {
      pid in procs && procs[pid].req == req && procs[pid].pc.Finished? && procs[pid].pc.outcome == outcome
    }

    /** The latest event is a step of `pid`; the others' events before it left
        the past as it was. */
    ghost predicate Stepped(pid: Pid, past: seq<World>)
      reads this
    {
      && |past| < |history| && past <= history && 1 <= |trace| == |history| - 1
      && trace[|trace| - 1].Run? && trace[|trace| - 1].pid == pid && Before().now == now
    }

    /** A request that ended with an answer got what the adapter would have said. */
    lemma AnswersAreTransparent(pid: Pid, req: Request, response: Response, adapter: Request -> AdapterResult)
      requires Valid() && Ended(pid, req, Answered(response)) && Gives(adapter, calls) && AgreesOnText(adapter)
      ensures var direct := Direct(adapter, req, response.cacheHit);
              response.output == direct.output && response.usage == direct.usage
              && Fuse(response.model) == Fuse(direct.model)
    {
      ResponsesAreTransparent(cfg, history, trace, |history| - 1, pid, adapter);
    }

    /** A step of the task in the history decided on this outcome. */
    ghost predicate Decided(pid: Pid, o: Outcome)
      reads this
    {
      exists i: nat | i < |trace| :: DecidedAt(cfg, history, trace, i, pid, o)
    }

    /** The outcome of a task is the one its steps decided on, and the only one. */
    lemma OutcomeIsDecided(pid: Pid, req: Request, outcome: Outcome)
      requires Valid() && Ended(pid, req, outcome)
      ensures forall o :: outcome == o <==> Decided(pid, o)
    {
      forall o ensures outcome == o <==> Decided(pid, o) {
        OutcomeExactly(cfg, history, trace, |history| - 1, pid, o);
      }
    }

    method UseBreaker(uses: seq<Runs.Event>)
      requires breaker.Valid() && |uses| <= 1
      modifies breaker
      ensures breaker.Valid() && Heard(breaker.settings, old(breaker.View()), breaker.View(), uses)
    {
      if uses != [] {
        match uses[0] {
          case Probe(at) =>
            var _ := breaker.IsOpen(at);
          case Failure(at) =>
            breaker.RecordFailure(at);
          case Success(at) =>
            breaker.RecordSuccess(at);
        }
      }
    }

    /** Somebody else's event. */
    method Interfere(e: Event)
      requires Valid() && Enabled(View(), e)
      modifies Shared()
      ensures Valid() && View() == Next(cfg, old(View()), e) && turns == old(turns)
      ensures history == old(history) + [View()] && old(now) <= now
    {
      var w := View();
      var w' := Next(cfg, w, e);
      StepFollowsTrace(cfg, w, e);
      Extended(cfg, history, trace, e);
      UseBreaker(BreakerEvents(w, e));
      redis.cache, redis.locks := w'.cache, w'.locks;
      meters.tokensIn, meters.tokensOut, meters.cost := w'.meters.tokensIn, w'.meters.tokensOut, w'.meters.cost;
      now, procs, calls := w'.now, w'.procs, w'.calls;
      history, trace := history + [w'], trace + [e];
    }

    /** Other tasks run; the task `pid` does not move. */
    method RunOthers(pid: Pid, others: seq<Event>)
      requires Valid() && pid in procs
      modifies Shared()
      ensures Valid() && old(history) <= history && old(now) <= now && turns == old(turns)
      ensures pid in procs && procs[pid] == old(procs)[pid]
    {
      for i := 0 to |others|
        invariant Valid() && old(history) <= history && old(now) <= now && turns == old(turns)
        invariant pid in procs && procs[pid] == old(procs)[pid]
      {
        var e := others[i];
        if Enabled(View(), e) && !(e.Run? && e.pid == pid) {
          OthersStay(cfg, View(), e, pid);
          Interfere(e);
        }
      }
    }

    /** `await`: yields to the schedule until the awaited operation ends. */
    method Await(pid: Pid) returns (r: Resumed<Choice>)
      requires Valid() && pid in procs
      modifies Shared()
      ensures Valid() && old(history) <= history && old(now) <= now
      ensures pid in procs && procs[pid] == old(procs)[pid]
      ensures r.Resumed? ==> CanStep(View(), pid, r.value) && |turns| < |old(turns)|
    {
      if turns == [] {
        return Suspended;
      }
      var turn := turns[0];
      RunOthers(pid, turn.others);
      turns := turns[1..];
      if CanStep(View(), pid, turn.choice) {
        return Resumed(turn.choice);
      }
      return Suspended;
    }

    /** The task has run up to its next await. It must have done to the shared
        objects what its step in the state machine does to the world `before`;
        only its place in the task table is still to be noted. */
    method Commit(pid: Pid, choice: Choice, before: World)
      requires Behaviour(cfg, history, trace) && before == history[|history| - 1] && CanStep(before, pid, choice)
      requires breaker.Valid() && breaker.settings == cfg.breaker && procs == before.procs && calls == before.calls
      requires var after := Step(cfg, before, pid, choice);
               && now == after.now && redis.cache == after.cache && redis.locks == after.locks
               && breaker.View() == after.breaker && meters.View() == after.meters
      modifies this`procs, this`calls, this`history, this`trace
      ensures Valid() && View() == Step(cfg, before, pid, choice) && history == old(history) + [View()]
      ensures Stepped(pid, old(history)) && Before() == before
    {
      Extended(cfg, history, trace, Run(pid, choice));
      StepMovesOne(cfg, before, pid, choice);
      var after := Step(cfg, before, pid, choice);
      procs, calls := after.procs, after.calls;
      history, trace := history + [after], trace + [Run(pid, choice)];
    }

    /** Where plain code takes a task that reads the clock at `now`. */
    static function After(cfg: Config, pc: Pc, now: real): Pc {
      match pc
      case EnterWait(lostAt) => AtHead(Wait(lostAt, now + cfg.waitTimeout, lostAt))
      case AtHead(w) => if now < w.deadline then Polling(w) else Calling
      case Sleeping(w, _) => AtHead(w)
      case Calling => InFlight
      case _ => pc
    }

    /** The task resumes and runs plain code, on its own variables only, up to
        its next await. */
    method Continue(pid: Pid) returns (r: Resumed<()>)
      requires Valid() && pid in procs
      requires var pc := procs[pid].pc; pc.EnterWait? || pc.AtHead? || pc.Sleeping? || pc.Calling?
      modifies Shared()
      ensures Valid() && old(history) <= history && old(now) <= now
      ensures r.Resumed? ==> |turns| < |old(turns)| && pid in procs && Stepped(pid, old(history))
      ensures r.Resumed? ==> var p := old(procs)[pid]; procs[pid] == p.(pc := After(cfg, p.pc, now))
    {
      var choice :- Await(pid);
      Commit(pid, choice, View());
      return Resumed(());
    }
  }

  /* ---------- the services ---------- */

  class SemanticCache {
    const site: Site

    constructor (site: Site)
      ensures this.site == site
    {
      this.site := site;
    }

    /** Where a cache read leaves a task. */
    static function AfterGet(cfg: Config, pc: Pc, reply: Reply<Option<Payload>>, now: real): Pc {
      if reply.Reply? && reply.value.Some? then Finished(Answered(BuildResponse(reply.value.value, true)), now)
      else if !pc.Polling? then Admission
      else if reply.Reply? then Sleeping(pc.wait.(lastPoll := now), now + cfg.pollInterval)
      else Calling
    }

    static lemma GetStep(cfg: Config, s: World, pid: Pid, c: Choice)
      requires CanStep(s, pid, c) && (s.procs[pid].pc.Lookup? || s.procs[pid].pc.Polling?)
      ensures var reply := if c == Proceed then Reply(CacheGet(s, MakeKey(s.procs[pid].req))) else ConnectionError;
              Step(cfg, s, pid, c) == Goto(s, pid, AfterGet(cfg, s.procs[pid].pc, reply, s.now))
    {
    }

    static lemma SetStep(cfg: Config, s: World, pid: Pid, c: Choice, p: Payload)
      requires CanStep(s, pid, c) && s.procs[pid].pc == Storing(p)
      ensures var proc := s.procs[pid];
              var answer := Finished(Answered(BuildResponse(p, false)), s.now);
              var pc := if proc.hasLock then Releasing(p, s.now) else answer;
              var cache := s.cache[MakeKey(proc.req) := Entry(p, s.now, s.now + cfg.cacheTtl)];
              Step(cfg, s, pid, c) ==
              s.(procs := s.procs[pid := proc.(pc := pc)], cache := if c == RequestLost then s.cache else cache)
    {
    }

    /** `get`, awaited either first of all or in the polling loop: the live
        entry of the request's key, which stays as it is. */
    method Get(pid: Pid, req: Request) returns (r: Resumed<Reply<Option<Payload>>>)
      requires site.Valid() && site.Serves(pid, req, false)
      requires site.procs[pid].pc.Lookup? || site.procs[pid].pc.Polling?
      modifies site.Shared()
      ensures site.Valid() && old(site.history) <= site.history && old(site.now) <= site.now
      ensures r.Resumed? ==> |site.turns| < |old(site.turns)| && site.Stepped(pid, old(site.history))
      ensures r.Resumed? ==> site.redis.cache == site.Before().cache
      ensures r.Resumed? && r.value.Reply? ==> r.value.value == CacheGet(site.View(), MakeKey(req))
      ensures r.Resumed? && r.value.Reply? && r.value.value.Some? ==>
                site.At(pid, req, Finished(Answered(BuildResponse(r.value.value.value, true)), site.now), false)
      ensures r.Resumed? && old(site.procs)[pid].pc.Lookup? && (r.value.ConnectionError? || r.value.value.None?) ==>
                site.At(pid, req, Admission, false)
      ensures r.Resumed? && old(site.procs)[pid].pc.Polling? && r.value.ConnectionError? ==>
                site.At(pid, req, Calling, false)
      ensures r.Resumed? && old(site.procs)[pid].pc.Polling? && r.value == Reply(None) ==>
                && site.Serves(pid, req, false) && site.procs[pid].pc.Sleeping?
                && site.procs[pid].pc.wait.deadline == old(site.procs)[pid].pc.wait.deadline
                && site.procs[pid].pc.wake == site.now + site.cfg.pollInterval
    {
      var choice :- site.Await(pid);
      var before := site.View();
      var reply := ConnectionError;
      if choice == Proceed {
        var value := site.redis.Get(MakeKey(req), site.now);
        reply := Reply(value);
      }
      GetStep(site.cfg, before, pid, choice);
      site.Commit(pid, choice, before);
      return Resumed(reply);
    }

    /** `set`: the entry lives for the cache TTL. An error is reported, and
        swallowed by the caller; the entry may be there nevertheless. */
    method Set(pid: Pid, req: Request, p: Payload, hasLock: bool) returns (r: Resumed<Reply<()>>)
      requires site.Valid() && site.At(pid, req, Storing(p), hasLock)
      modifies site.Shared()
      ensures site.Valid() && old(site.history) <= site.history
      ensures r.Resumed? ==> site.Stepped(pid, old(site.history))
      ensures r.Resumed? ==>
                var written := site.Before().cache[MakeKey(req) := Entry(p, site.now, site.now + site.cfg.cacheTtl)];
                site.redis.cache == written || (r.value.ConnectionError? && site.redis.cache == site.Before().cache)
      ensures r.Resumed? ==>
                if hasLock then site.At(pid, req, Releasing(p, site.now), true)
                else site.At(pid, req, Finished(Answered(BuildResponse(p, false)), site.now), false)
    {
      var choice :- site.Await(pid);
      var before := site.View();
      if choice != RequestLost {
        site.redis.SetEx(MakeKey(req), site.cfg.cacheTtl, p, site.now);
      }
      SetStep(site.cfg, before, pid, choice, p);
      site.Commit(pid, choice, before);
      return Resumed(if choice == Proceed then Reply(()) else ConnectionError);
    }
  }

  class RequestCollapser {
    const site: Site
    const cache: SemanticCache

    constructor (site: Site, cache: SemanticCache)
      ensures this.site == site && this.cache == cache
    {
      this.site, this.cache := site, cache;
    }

    static lemma AcquireStep(cfg: Config, s: World, pid: Pid, c: Choice)
      requires CanStep(s, pid, c) && s.procs[pid].pc.Acquiring?
      ensures var proc := s.procs[pid];
              var key := MakeKey(proc.req);
              var taken := c != RequestLost && !Locked(s, key);
              var locks := if taken then s.locks[key := Lock(pid, s.now + cfg.lockTtl)] else s.locks;
              var next :=
                if taken && c == Proceed then proc.(pc := Calling, hasLock := true, acquiredAt := s.now)
                else proc.(pc := EnterWait(s.now));
              Step(cfg, s, pid, c) == s.(procs := s.procs[pid := next], locks := locks)
    {
    }

    /** SET lock:key "1" NX EX ttl: true exactly when the key had no live lock
        and the reply came through; then the lock lives for the lock TTL. */
    method TryAcquire(pid: Pid, req: Request) returns (r: Resumed<Reply<bool>>)
      requires site.Valid() && site.At(pid, req, Acquiring, false)
      modifies site.Shared()
      ensures site.Valid() && old(site.history) <= site.history && old(site.now) <= site.now
      ensures r.Resumed? ==> site.Stepped(pid, old(site.history))
      ensures r.Resumed? ==>
                var key, locks := MakeKey(req), site.Before().locks;
                var taken := locks[key := Lock(pid, site.now + site.cfg.lockTtl)];
                match r.value
                case Reply(true) => !Locked(site.Before(), key) && site.redis.locks == taken
                case Reply(false) => Locked(site.Before(), key) && site.redis.locks == locks
                case ConnectionError =>
                  site.redis.locks == locks || (!Locked(site.Before(), key) && site.redis.locks == taken)
      ensures r.Resumed? ==>
                if r.value == Reply(true) then site.At(pid, req, Calling, true)
                else site.Serves(pid, req, false) && site.procs[pid].pc.EnterWait?
    {
      var choice :- site.Await(pid);
      var before := site.View();
      var reply := ConnectionError;
      if choice != RequestLost {
        var acquired := site.redis.SetNx(MakeKey(req), site.cfg.lockTtl, pid, site.now);
        if choice == Proceed {
          reply := Reply(acquired);
        }
      }
      AcquireStep(site.cfg, before, pid, choice);
      site.Commit(pid, choice, before);
      return Resumed(reply);
    }

    /** Polls the cache until a value appears or the deadline passes; it gives
        up without an error only after the whole wait timeout. */
    method WaitForValue(pid: Pid, req: Request) returns (r: Resumed<Reply<Option<Payload>>>)
      requires cache.site == site
      requires site.Valid() && site.Serves(pid, req, false) && site.procs[pid].pc.EnterWait?
      modifies site.Shared()
      ensures site.Valid() && old(site.history) <= site.history
      ensures r.Resumed? ==>
                if r.value.Reply? && r.value.value.Some?
                then
                  && site.At(pid, req, Finished(Answered(BuildResponse(r.value.value.value, true)), site.now), false)
                  && CacheGet(site.View(), MakeKey(req)) == r.value.value
                else site.At(pid, req, Calling, false)
      ensures r == Resumed(Reply(None)) ==> old(site.now) + site.cfg.waitTimeout <= site.now
    {
      var _ :- site.Continue(pid);
      var deadline := site.now + site.cfg.waitTimeout;
      while true
        invariant site.Valid() && old(site.history) <= site.history
        invariant site.Serves(pid, req, false) && site.procs[pid].pc.AtHead?
        invariant site.procs[pid].pc.wait.deadline == deadline
        decreases |site.turns|
      {
        var polled :- Poll(pid, req, deadline);
        if polled.Some? {
          return Resumed(polled.value);
        }
        var _ :- site.Continue(pid);
      }
    }

    /** The loop head and one read of the cache: the result of the wait, or
        nothing yet. */
    method Poll(pid: Pid, req: Request, deadline: real) returns (r: Resumed<Option<Reply<Option<Payload>>>>)
      requires cache.site == site
      requires site.Valid() && site.Serves(pid, req, false)
      requires site.procs[pid].pc.AtHead? && site.procs[pid].pc.wait.deadline == deadline
      modifies site.Shared()
      ensures site.Valid() && old(site.history) <= site.history
      ensures r.Resumed? ==> |site.turns| < |old(site.turns)|
      ensures r.Resumed? ==>
                match r.value
                case None =>
                  && site.Serves(pid, req, false)
                  && site.procs[pid].pc.Sleeping? && site.procs[pid].pc.wait.deadline == deadline
                case Some(Reply(Some(p))) =>
                  && site.At(pid, req, Finished(Answered(BuildResponse(p, true)), site.now), false)
                  && CacheGet(site.View(), MakeKey(req)) == Some(p)
                case Some(reply) =>
                  site.At(pid, req, Calling, false) && (reply == Reply(None) ==> deadline <= site.now)
    {
      var _ :- site.Continue(pid);
      if !(site.now < deadline) {
        return Resumed(Some(Reply(None)));
      }
      var reply :- cache.Get(pid, req);
      return Resumed(if reply.ConnectionError? || reply.value.Some? then Some(reply) else None);
    }

    /** DEL lock:key, whoever owns the lock. */
    method Release(pid: Pid, req: Request, ghost p: Payload) returns (r: Resumed<Reply<()>>)
      requires site.Valid() && pid in site.procs && site.procs[pid].pc.Releasing?
      requires site.At(pid, req, Releasing(p, site.procs[pid].pc.storedAt), true)
      modifies site.Shared()
      ensures site.Valid() && old(site.history) <= site.history
      ensures r.Resumed? ==> site.Stepped(pid, old(site.history))
      ensures r.Resumed? ==>
                var locks := site.Before().locks;
                || site.redis.locks == locks - {MakeKey(req)}
                || (r.value.ConnectionError? && site.redis.locks == locks)
      ensures r.Resumed? ==> site.At(pid, req, Finished(Answered(BuildResponse(p, false)), site.now), true)
    {
      var choice :- site.Await(pid);
      var before := site.View();
      if choice != RequestLost {
        site.redis.Del(MakeKey(req));
      }
      site.Commit(pid, choice, before);
      return Resumed(if choice == Proceed then Reply(()) else ConnectionError);
    }
  }

  class InferenceService {
    const site: Site
    const cache: SemanticCache
    const collapser: RequestCollapser

    constructor (site: Site)
      ensures this.site == site && Wired()
    {
      this.site := site;
      var cache := new SemanticCache(site);
      this.cache := cache;
      this.collapser := new RequestCollapser(site, cache);
    }

    predicate Wired() {
      cache.site == site && collapser.site == site && collapser.cache == cache
    }

    /** The breaker check: it refuses exactly when the circuit blocks, with the
        truncated retry time. */
    method CheckBreaker(pid: Pid, req: Request) returns (r: Resumed<Option<int>>)
      requires site.Valid() && site.At(pid, req, Admission, false)
      modifies site.Shared()
      ensures site.Valid() && old(site.history) <= site.history
      ensures r.Resumed? ==> site.Stepped(pid, old(site.history))
      ensures r.Resumed? ==>
                var b := site.Before().breaker;
                && (r.value.Some? <==> Blocks(site.cfg.breaker, b, site.now))
                && (r.value.Some? ==> r.value.value == RetryAfter(site.cfg.breaker, b, site.now).Floor)
                && site.breaker.View() == AfterProbe(site.cfg.breaker, b, site.now)
      ensures r.Resumed? ==>
                match r.value
                case Some(retry) => site.At(pid, req, Finished(Refused(retry), site.now), false)
                case None => site.At(pid, req, if site.cfg.collapsing then Acquiring else Calling, false)
    {
      var choice :- site.Await(pid);
      var before := site.View();
      var refusal := None;
      var isOpen := site.breaker.IsOpen(site.now);
      if isOpen {
        refusal := Some(Truncate(site.breaker.GetRetryAfter(site.now)));
      }
      site.Commit(pid, choice, before);
      return Resumed(refusal);
    }

    /** Request collapsing: the leader's lock, or a value from the leader. */
    method Collapse(pid: Pid, req: Request) returns (r: Resumed<(bool, Option<Payload>)>)
      requires Wired() && site.Valid() && site.At(pid, req, Acquiring, false)
      modifies site.Shared()
      ensures site.Valid() && old(site.history) <= site.history
      ensures r.Resumed? ==>
                match r.value.1
                case Some(p) =>
                  && !r.value.0 && CacheGet(site.View(), MakeKey(req)) == Some(p)
                  && site.At(pid, req, Finished(Answered(BuildResponse(p, true)), site.now), false)
                case None => site.At(pid, req, Calling, r.value.0)
    {
      var acquired :- collapser.TryAcquire(pid, req);
      if acquired == Reply(true) {
        return Resumed((true, None));
      }
      var waited :- collapser.WaitForValue(pid, req);
      return Resumed((false, if waited.Reply? then waited.value else None));
    }

    /** What the end of the adapter call does to the breaker and the counters. */
    ghost predicate Recorded(pid: Pid, req: Request, result: CallResult)
      requires |site.history| >= 2
      reads site, site.redis, site.breaker, site.meters
    {
      var before := site.Before();
      && site.calls == before.calls + [Call(pid, req, site.now, result)]
      && match result
         case Returned(value) =>
           && site.breaker.View() == AfterSuccess(before.breaker)
           && site.meters.View() ==
              RecordUsage(site.cfg, before.meters, req.model,
                          Usage(Reported(value.usage, "prompt_tokens"), Reported(value.usage, "completion_tokens")))
         case _ =>
           && site.breaker.View() == AfterFailure(site.cfg.breaker, before.breaker, site.now)
           && site.meters.View() == before.meters
    }

    /** A call that returned: breaker record, usage counters and payload. */
    method Succeed(pid: Pid, req: Request, hasLock: bool, value: AdapterResult)
      requires site.Valid() && site.At(pid, req, InFlight, hasLock)
      modifies site.Shared()
      ensures site.Valid() && site.Stepped(pid, old(site.history))
      ensures site.history == old(site.history) + [site.View()] && Recorded(pid, req, Returned(value))
      ensures site.At(pid, req, Storing(PayloadOf(req, value)), hasLock)
    {
      var before := site.View();
      site.breaker.RecordSuccess(site.now);
      site.meters.Record(site.cfg, req.model, MapUsage(value.usage));
      site.Commit(pid, Returns(value), before);
    }

    /** A call that timed out or failed. */
    method Fail(pid: Pid, req: Request, hasLock: bool, timedOut: bool)
      requires site.Valid() && site.At(pid, req, InFlight, hasLock)
      modifies site.Shared()
      ensures site.Valid() && site.Stepped(pid, old(site.history))
      ensures site.history == old(site.history) + [site.View()]
      ensures Recorded(pid, req, if timedOut then CallTimedOut else CallFailed)
      ensures site.At(pid, req, Finished(if timedOut then TimedOut else Failed, site.now), hasLock)
    {
      var before := site.View();
      site.breaker.RecordFailure(site.now);
      site.Commit(pid, if timedOut then TimesOut else Fails, before);
    }

    method AwaitAdapter(pid: Pid, req: Request, hasLock: bool) returns (r: Resumed<Choice>)
      requires site.Valid() && site.At(pid, req, Calling, hasLock)
      modifies site.Shared()
      ensures site.Valid() && old(site.history) <= site.history
      ensures r.Resumed? ==> site.At(pid, req, InFlight, hasLock)
      ensures r.Resumed? ==> r.value.Returns? || r.value.TimesOut? || r.value.Fails?
    {
      var _ :- site.Continue(pid);
      var end :- site.Await(pid);
      return Resumed(end);
    }

    /** The adapter call with its breaker record and usage counters. */
    method CallAdapter(pid: Pid, req: Request, hasLock: bool) returns (r: Resumed<CallResult>)
      requires site.Valid() && site.At(pid, req, Calling, hasLock)
      modifies site.Shared()
      ensures site.Valid() && old(site.history) <= site.history
      ensures r.Resumed? ==> site.Stepped(pid, old(site.history)) && Recorded(pid, req, r.value)
      ensures r.Resumed? ==>
                match r.value
                case Returned(result) =>
                  && site.Serves(pid, req, hasLock) && site.procs[pid].pc.Storing?
                  && ShowsResult(req, result, site.procs[pid].pc.payload)
                case CallTimedOut => site.At(pid, req, Finished(TimedOut, site.now), hasLock)
                case CallFailed => site.At(pid, req, Finished(Failed, site.now), hasLock)
    {
      var end :- AwaitAdapter(pid, req, hasLock);
      if end.Returns? {
        Succeed(pid, req, hasLock, end.result);
        return Resumed(Returned(end.result));
      }
      Fail(pid, req, hasLock, end.TimesOut?);
      return Resumed(if end.TimesOut? then CallTimedOut else CallFailed);
    }

    /** At this point of the history the value was written. */
    ghost predicate Wrote(i: nat, req: Request, p: Payload)
      reads site
    {
      && 0 < i < |site.history|
      && var s := site.history[i];
         s.cache == site.history[i - 1].cache[MakeKey(req) := Entry(p, s.now, s.now + site.cfg.cacheTtl)]
    }

    /** Cache write and, for a leader, lock release; neither error is fatal. A
        write that was acknowledged is in the history, and a leader's last step
        deletes the lock unless it reports an error. */
    method Publish(pid: Pid, req: Request, payload: Payload, hasLock: bool)
      returns (r: Resumed<(Reply<()>, Reply<()>)>, ghost at: nat)
      requires Wired() && site.Valid() && site.At(pid, req, Storing(payload), hasLock)
      modifies site.Shared()
      ensures site.Valid() && old(site.history) <= site.history
      ensures r.Resumed? ==> site.Ended(pid, req, Answered(BuildResponse(payload, false)))
      ensures r.Resumed? && r.value.0.Reply? ==> |old(site.history)| <= at && Wrote(at, req, payload)
      ensures r.Resumed? && hasLock ==>
                && site.Stepped(pid, old(site.history))
                && (r.value.1.Reply? ==> site.redis.locks == site.Before().locks - {MakeKey(req)})
    {
      at := 0;
      var stored := cache.Set(pid, req, payload, hasLock);
      if stored.Suspended? {
        return Suspended, at;
      }
      at := |site.history| - 1;
      var released := Reply(());
      if hasLock {
        var reply := collapser.Release(pid, req, payload);
        if reply.Suspended? {
          return Suspended, at;
        }
        released := reply.value;
      }
      return Resumed((stored.value, released)), at;
    }

    /** The adapter call and what follows it. */
    method CallAndPublish(pid: Pid, req: Request, hasLock: bool) returns (r: Resumed<Outcome>)
      requires Wired() && site.Valid() && site.At(pid, req, Calling, hasLock)
      modifies site.Shared()
      ensures site.Valid() && old(site.history) <= site.history
      ensures r.Resumed? ==> site.Ended(pid, req, r.value)
    {
      var result :- CallAdapter(pid, req, hasLock);
      match result {
        case CallTimedOut => return Resumed(TimedOut);
        case CallFailed => return Resumed(Failed);
        case Returned(value) =>
          var payload := Gateway.Payload(value.output, req.model, MapUsage(value.usage));
          ghost var at;
          var published;
          published, at := Publish(pid, req, payload, hasLock);
          if published.Suspended? {
            return Suspended;
          }
          return Resumed(Answered(BuildResponse(payload, false)));
      }
    }

    /** An admitted request: collapsing, if it is on, and the adapter call. */
    method Serve(pid: Pid, req: Request) returns (r: Resumed<Outcome>)
      requires Wired() && site.Valid()
      requires site.At(pid, req, if site.cfg.collapsing then Acquiring else Calling, false)
      modifies site.Shared()
      ensures site.Valid() && old(site.history) <= site.history
      ensures r.Resumed? ==> site.Ended(pid, req, r.value)
    {
      var hasLock := false;
      if site.cfg.collapsing {
        var collapse :- Collapse(pid, req);
        var collapsed := collapse.1;
        hasLock := collapse.0;
        if collapsed.Some? {
          return Resumed(Answered(BuildResponse(collapsed.value, true)));
        }
      }
      r := CallAndPublish(pid, req, hasLock);
    }

    /** The request has arrived. The result is the outcome recorded by the
        state machine, reached by one of its behaviours: so everything proved
        of behaviours holds of every execution of this method. It is `Refused`
        exactly if the task met the breaker while the circuit blocked, and any
        other outcome exactly if a step of its own decided on that. */
    method Infer(pid: Pid, req: Request) returns (r: Resumed<Outcome>)
      requires Wired() && site.Valid() && site.At(pid, req, Lookup, false)
      modifies site.Shared()
      ensures site.Valid() && old(site.history) <= site.history
      ensures r.Resumed? ==> site.Ended(pid, req, r.value)
      ensures r.Resumed? ==> forall o :: r.value == o <==> site.Decided(pid, o)
    {
      var lookup :- cache.Get(pid, req);
      var cached := if lookup.Reply? then lookup.value else None;
      if cached.Some? {
        r := Resumed(Answered(BuildResponse(cached.value, true)));
      } else {
        var open :- CheckBreaker(pid, req);
        if open.Some? {
          r := Resumed(Refused(open.value));
        } else {
          r := Serve(pid, req);
        }
      }
      if r.Resumed? {
        site.OutcomeIsDecided(pid, req, r.value);
      }
    }
  }
}
