/** The infer path as a state machine: every request is a program counter over
    one shared world of Redis cache, Redis locks, breaker and clock. One step
    is the effect of one awaited operation, or the code up to the next one. */
module Gateway {
  import opened Prelude
  import opened Json
  import opened CacheKeys
  import opened BreakerStates

  type Pid = nat

  /* ---------- data ---------- */

  /** What the adapter returns; `usage` may be missing, and so may its members. */
  datatype AdapterResult = AdapterResult(output: Text, usage: Option<map<string, nat>>)

  datatype Usage = Usage(tokensIn: nat, tokensOut: nat)

  /** The JSON object stored in the cache. */
  datatype Payload = Payload(output: Text, model: Text, usage: Usage)

  datatype Response = Response(output: Text, model: Text, usage: Usage, cacheHit: bool)

  datatype Outcome =
    | Answered(response: Response)
    | Refused(retryAfter: int)
    | TimedOut
    | Failed

  datatype Config = Config(
    lockTtl: real,
    waitTimeout: real,
    pollInterval: real,
    cacheTtl: real,
    breaker: Settings,
    collapsing: bool,
    priceIn: real,
    priceOut: real)

  datatype Entry = Entry(payload: Payload, writtenAt: real, expireAt: real)

  /** `owner` is not stored in Redis: the value of every lock is "1". */
  datatype Lock = Lock(owner: Pid, expireAt: real)

  datatype Wait = Wait(lostAt: real, deadline: real, lastPoll: real)

  datatype Pc =
    | Lookup                                  // await cache.get
    | Admission                               // await breaker.is_open
    | Acquiring                               // await SET NX EX
    | EnterWait(lostAt: real)                 // wait_for_value computes its deadline
    | AtHead(wait: Wait)                      // while perf_counter() < deadline
    | Polling(wait: Wait)                     // await cache.get
    | Sleeping(wait: Wait, wake: real)        // await asyncio.sleep
    | Calling                                 // about to call the adapter
    | InFlight                                // await adapter.infer
    | Storing(payload: Payload)               // await SETEX
    | Releasing(payload: Payload, storedAt: real)  // await DEL
    | Finished(outcome: Outcome, at: real)

  datatype Proc = Proc(req: Request, pc: Pc, hasLock: bool, acquiredAt: real)

  datatype CallResult = Returned(result: AdapterResult) | CallTimedOut | CallFailed

  /** A finished adapter call. */
  datatype Call = Call(pid: Pid, req: Request, at: real, result: CallResult)

  /** The Prometheus counters, by model label. */
  datatype Meters = Meters(tokensIn: map<Text, nat>, tokensOut: map<Text, nat>, cost: map<Text, real>)

  datatype World = World(
    now: real,
    cache: map<string, Entry>,
    locks: map<string, Lock>,
    breaker: Snapshot,
    procs: map<Pid, Proc>,
    calls: seq<Call>,
    meters: Meters)

  const START := World(0.0, map[], map[], FRESH, map[], [], Meters(map[], map[], map[]))

  /* ---------- the pieces of infer ---------- */

  function Member(usage: map<string, nat>, name: string): nat {
    if name in usage then usage[name] else 0
  }

  function MapUsage(raw: Option<map<string, nat>>): Usage {
    var usage := if raw.Some? then raw.value else map[];
    Usage(Member(usage, "prompt_tokens"), Member(usage, "completion_tokens"))
  }

  function PayloadOf(req: Request, r: AdapterResult): Payload {
    Payload(r.output, req.model, MapUsage(r.usage))
  }

  function BuildResponse(p: Payload, cacheHit: bool): Response {
    Response(p.output, p.model, p.usage, cacheHit)
  }

  function EstimateCost(cfg: Config, u: Usage): real {
    u.tokensIn as real / 1000.0 * cfg.priceIn + u.tokensOut as real / 1000.0 * cfg.priceOut
  }

  function Count(counter: map<Text, nat>, model: Text): nat {
    if model in counter then counter[model] else 0
  }

  function Amount(counter: map<Text, real>, model: Text): real {
    if model in counter then counter[model] else 0.0
  }

  /** `record_usage_metrics` */
  function RecordUsage(cfg: Config, m: Meters, model: Text, u: Usage): Meters {
    m.(tokensIn := m.tokensIn[model := Count(m.tokensIn, model) + u.tokensIn],
       tokensOut := m.tokensOut[model := Count(m.tokensOut, model) + u.tokensOut],
       cost := m.cost[model := Amount(m.cost, model) + EstimateCost(cfg, u)])
  }

  /* ---------- Redis ---------- */

  /** GET: an expired entry is gone. */
  function CacheGet(s: World, key: string): Option<Payload> {
    if key in s.cache && s.now < s.cache[key].expireAt then Some(s.cache[key].payload) else None
  }

  function CacheSet(cfg: Config, s: World, key: string, p: Payload): World {
    s.(cache := s.cache[key := Entry(p, s.now, s.now + cfg.cacheTtl)])
  }

  predicate Locked(s: World, key: string) {
    key in s.locks && s.now < s.locks[key].expireAt
  }

  function Acquire(cfg: Config, s: World, key: string, pid: Pid): World {
    s.(locks := s.locks[key := Lock(pid, s.now + cfg.lockTtl)])
  }

  function Release(s: World, key: string): World {
    s.(locks := s.locks - {key})
  }

  /* ---------- one step of one request ---------- */

  /** How the awaited operation ended. A Redis command may be lost on its way
      there, or its reply on the way back: both raise ConnectionError. */
  datatype Choice =
    | Proceed
    | RequestLost
    | ReplyLost
    | Returns(result: AdapterResult)
    | TimesOut
    | Fails

  function Goto(s: World, pid: Pid, pc: Pc): World
    requires pid in s.procs
  {
    s.(procs := s.procs[pid := s.procs[pid].(pc := pc)])
  }

  predicate RedisChoice(c: Choice) {
    c == Proceed || c == RequestLost || c == ReplyLost
  }

  predicate CanStep(s: World, pid: Pid, c: Choice) {
    && pid in s.procs
    && match s.procs[pid].pc
       case Lookup => RedisChoice(c)
       case Acquiring => RedisChoice(c)
       case Polling(_) => RedisChoice(c)
       case Storing(_) => RedisChoice(c)
       case Releasing(_, _) => RedisChoice(c)
       case InFlight => c.Returns? || c.TimesOut? || c.Fails?
       case Sleeping(_, wake) => c == Proceed && wake <= s.now
       case Finished(_, _) => false
       case _ => c == Proceed
  }

  function StepLookup(s: World, pid: Pid, c: Choice): World
    requires pid in s.procs
  {
    var cached := if c == Proceed then CacheGet(s, MakeKey(s.procs[pid].req)) else None;
    match cached
    case Some(p) => Goto(s, pid, Finished(Answered(BuildResponse(p, true)), s.now))
    case None => Goto(s, pid, Admission)
  }

  function StepAdmission(cfg: Config, s: World, pid: Pid): World
    requires pid in s.procs
  {
    var s' := s.(breaker := AfterProbe(cfg.breaker, s.breaker, s.now));
    if Blocks(cfg.breaker, s.breaker, s.now)
    then Goto(s', pid, Finished(Refused(RetryAfter(cfg.breaker, s.breaker, s.now).Floor), s.now))
    else Goto(s', pid, if cfg.collapsing then Acquiring else Calling)
  }

  function StepAcquiring(cfg: Config, s: World, pid: Pid, c: Choice): World
    requires pid in s.procs
  {
    var p := s.procs[pid];
    var key := MakeKey(p.req);
    var free := c != RequestLost && !Locked(s, key);
    var s' := if free then Acquire(cfg, s, key, pid) else s;
    if free && c == Proceed
    then s'.(procs := s'.procs[pid := p.(pc := Calling, hasLock := true, acquiredAt := s.now)])
    else Goto(s', pid, EnterWait(s.now))
  }

  function StepPolling(cfg: Config, s: World, pid: Pid, w: Wait, c: Choice): World
    requires pid in s.procs
  {
    if c != Proceed then Goto(s, pid, Calling)
    else
      match CacheGet(s, MakeKey(s.procs[pid].req))
      case Some(p) => Goto(s, pid, Finished(Answered(BuildResponse(p, true)), s.now))
      case None => Goto(s, pid, Sleeping(w.(lastPoll := s.now), s.now + cfg.pollInterval))
  }

  /** The adapter call ends: breaker record, usage counters, payload. */
  function StepInFlight(cfg: Config, s: World, pid: Pid, c: Choice): World
    requires pid in s.procs
  {
    var req := s.procs[pid].req;
    match c
    case Returns(r) =>
      var p := PayloadOf(req, r);
      Goto(s.(breaker := AfterSuccess(s.breaker),
              calls := s.calls + [Call(pid, req, s.now, Returned(r))],
              meters := RecordUsage(cfg, s.meters, req.model, p.usage)),
           pid, Storing(p))
    case _ =>
      Goto(s.(breaker := AfterFailure(cfg.breaker, s.breaker, s.now),
              calls := s.calls + [Call(pid, req, s.now, if c.TimesOut? then CallTimedOut else CallFailed)]),
           pid, Finished(if c.TimesOut? then TimedOut else Failed, s.now))
  }

  function StepStoring(cfg: Config, s: World, pid: Pid, p: Payload, c: Choice): World
    requires pid in s.procs
  {
    var s' := if c == RequestLost then s else CacheSet(cfg, s, MakeKey(s.procs[pid].req), p);
    if s.procs[pid].hasLock
    then Goto(s', pid, Releasing(p, s.now))
    else Goto(s', pid, Finished(Answered(BuildResponse(p, false)), s.now))
  }

  function StepReleasing(s: World, pid: Pid, p: Payload, c: Choice): World
    requires pid in s.procs
  {
    var s' := if c == RequestLost then s else Release(s, MakeKey(s.procs[pid].req));
    Goto(s', pid, Finished(Answered(BuildResponse(p, false)), s.now))
  }

  function Step(cfg: Config, s: World, pid: Pid, c: Choice): World
    requires CanStep(s, pid, c)
  {
    match s.procs[pid].pc
    case Lookup => StepLookup(s, pid, c)
    case Admission => StepAdmission(cfg, s, pid)
    case Acquiring => StepAcquiring(cfg, s, pid, c)
    case EnterWait(lostAt) => Goto(s, pid, AtHead(Wait(lostAt, s.now + cfg.waitTimeout, lostAt)))
    case AtHead(w) => Goto(s, pid, if s.now < w.deadline then Polling(w) else Calling)
    case Polling(w) => StepPolling(cfg, s, pid, w, c)
    case Sleeping(w, _) => Goto(s, pid, AtHead(w))
    case Calling => Goto(s, pid, InFlight)
    case InFlight => StepInFlight(cfg, s, pid, c)
    case Storing(p) => StepStoring(cfg, s, pid, p, c)
    case Releasing(p, _) => StepReleasing(s, pid, p, c)
  }

  /* ---------- runs ---------- */

  /** Streams and health checks share the breaker. */
  datatype BreakerUse = OtherProbe | OtherFailure | OtherSuccess

  datatype Event =
    | Advance(to: real)
    | Arrive(pid: Pid, req: Request)
    | Elsewhere(use: BreakerUse)
    | Run(pid: Pid, choice: Choice)

  predicate Enabled(s: World, e: Event) {
    match e
    case Advance(to) => s.now <= to
    case Arrive(pid, req) => pid !in s.procs && Received(req)
    case Elsewhere(_) => true
    case Run(pid, c) => CanStep(s, pid, c)
  }

  function Admit(s: World, pid: Pid, req: Request): World {
    s.(procs := s.procs[pid := Proc(req, Lookup, false, 0.0)])
  }

  function UseBreaker(cfg: Config, s: World, use: BreakerUse): World {
    s.(breaker :=
         match use
         case OtherProbe => AfterProbe(cfg.breaker, s.breaker, s.now)
         case OtherFailure => AfterFailure(cfg.breaker, s.breaker, s.now)
         case OtherSuccess => AfterSuccess(s.breaker))
  }

  function Next(cfg: Config, s: World, e: Event): World
    requires Enabled(s, e)
  {
    match e
    case Advance(to) => s.(now := to)
    case Arrive(pid, req) => Admit(s, pid, req)
    case Elsewhere(use) => UseBreaker(cfg, s, use)
    case Run(pid, c) => Step(cfg, s, pid, c)
  }

  /** The event at `i` is possible and takes the state at `i` to the next one. */
  ghost predicate Follows(cfg: Config, ss: seq<World>, es: seq<Event>, i: nat)
    requires i < |es| < |ss|
  {
    Enabled(ss[i], es[i]) && ss[i + 1] == Next(cfg, ss[i], es[i])
  }

  /** The states a sequence of events passes through, one per event, after START. */
  ghost predicate Behaviour(cfg: Config, ss: seq<World>, es: seq<Event>) {
    && |ss| == |es| + 1
    && ss[0] == START
    && forall i | 0 <= i < |es| :: Follows(cfg, ss, es, i)
  }

  lemma Extended(cfg: Config, ss: seq<World>, es: seq<Event>, e: Event)
    requires Behaviour(cfg, ss, es) && Enabled(ss[|ss| - 1], e)
    ensures Behaviour(cfg, ss + [Next(cfg, ss[|ss| - 1], e)], es + [e])
  {
    var ss', es' := ss + [Next(cfg, ss[|ss| - 1], e)], es + [e];
    forall i | 0 <= i < |es'| ensures Follows(cfg, ss', es', i) {
      if i < |es| {
        assert Follows(cfg, ss, es, i);
      }
    }
  }

  /** An event of somebody else leaves a request where it is. */
  lemma OthersStay(cfg: Config, s: World, e: Event, pid: Pid)
    requires Enabled(s, e) && pid in s.procs && !(e.Run? && e.pid == pid)
    ensures pid in Next(cfg, s, e).procs && Next(cfg, s, e).procs[pid] == s.procs[pid]
  {
    if e.Run? {
      match s.procs[e.pid].pc
      case Lookup =>
      case Admission =>
      case Acquiring =>
      case Polling(_) =>
      case InFlight =>
      case Storing(_) =>
      case Releasing(_, _) =>
      case _ =>
    }
  }

  lemma TimeAdvances(cfg: Config, s: World, e: Event)
    requires Enabled(s, e)
    ensures s.now <= Next(cfg, s, e).now
  {
    if e.Run? {
      match s.procs[e.pid].pc
      case Lookup =>
      case Admission =>
      case Acquiring =>
      case Polling(_) =>
      case InFlight =>
      case Storing(_) =>
      case Releasing(_, _) =>
      case _ =>
    }
  }

  lemma StepMovesOne(cfg: Config, s: World, pid: Pid, c: Choice)
    requires CanStep(s, pid, c)
    ensures var s' := Step(cfg, s, pid, c);
            s'.now == s.now && pid in s'.procs && s'.procs == s.procs[pid := s'.procs[pid]]
  {
    match s.procs[pid].pc
    case Lookup =>
    case Admission =>
    case Acquiring =>
    case Polling(_) =>
    case InFlight =>
    case Storing(_) =>
    case Releasing(_, _) =>
    case _ =>
  }

  lemma RequestStays(cfg: Config, s: World, e: Event, pid: Pid)
    requires Enabled(s, e) && pid in s.procs
    ensures pid in Next(cfg, s, e).procs && Next(cfg, s, e).procs[pid].req == s.procs[pid].req
  {
    if !(e.Run? && e.pid == pid) {
      OthersStay(cfg, s, e, pid);
    } else {
      match s.procs[pid].pc
      case Lookup =>
      case Admission =>
      case Acquiring =>
      case Polling(_) =>
      case InFlight =>
      case Storing(_) =>
      case Releasing(_, _) =>
      case _ =>
    }
  }

  lemma {:induction false} RequestStaysUntil(cfg: Config, ss: seq<World>, es: seq<Event>, m: nat, n: nat, pid: Pid)
    requires Behaviour(cfg, ss, es) && m <= n < |ss| && pid in ss[m].procs
    ensures pid in ss[n].procs && ss[n].procs[pid].req == ss[m].procs[pid].req
  {
    if m < n {
      RequestStaysUntil(cfg, ss, es, m, n - 1, pid);
      assert Follows(cfg, ss, es, n - 1);
      RequestStays(cfg, ss[n - 1], es[n - 1], pid);
    }
  }
}
