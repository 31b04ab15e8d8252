/** Conservation laws over every behaviour of the infer path. */
module Conservation {
  import opened Prelude
  import opened Json
  import opened BreakerStates
  import opened Gateway
  import Runs = BreakerRuns

  /* ---------- what the finished calls add up to ---------- */

  /** What the provider reported at the end of a call. */
  function CallUsage(c: Call): Usage {
    match c.result
    case Returned(r) => Usage(Reported(r.usage, "prompt_tokens"), Reported(r.usage, "completion_tokens"))
    case _ => Usage(0, 0)
  }

  function Add(a: Usage, b: Usage): Usage {
    Usage(a.tokensIn + b.tokensIn, a.tokensOut + b.tokensOut)
  }

  /** The usage of all successful calls for one model. */
  function Totals(calls: seq<Call>, model: Text): Usage {
    if calls == [] then Usage(0, 0)
    else
      var last := calls[|calls| - 1];
      var before := Totals(calls[..|calls| - 1], model);
      if last.req.model == model then Add(before, CallUsage(last)) else before
  }

  function CallsBy(calls: seq<Call>, pid: Pid): nat {
    if calls == [] then 0
    else CallsBy(calls[..|calls| - 1], pid) + (if calls[|calls| - 1].pid == pid then 1 else 0)
  }

  lemma OneMoreCall(calls: seq<Call>, c: Call, model: Text, pid: Pid)
    ensures Totals(calls + [c], model) ==
            if c.req.model == model then Add(Totals(calls, model), CallUsage(c)) else Totals(calls, model)
    ensures CallsBy(calls + [c], pid) == CallsBy(calls, pid) + (if c.pid == pid then 1 else 0)
  {
    assert (calls + [c])[..|calls|] == calls;
  }

  /* ---------- what the breaker hears ---------- */

  /** What one event makes the breaker do. */
  function BreakerEvents(s: World, e: Event): seq<Runs.Event> {
    match e
    case Elsewhere(OtherProbe) => [Runs.Probe(s.now)]
    case Elsewhere(OtherFailure) => [Runs.Failure(s.now)]
    case Elsewhere(OtherSuccess) => [Runs.Success(s.now)]
    case Run(pid, c) =>
      if pid in s.procs && s.procs[pid].pc.Admission? then [Runs.Probe(s.now)]
      else if pid in s.procs && s.procs[pid].pc.InFlight? && c.Returns? then [Runs.Success(s.now)]
      else if pid in s.procs && s.procs[pid].pc.InFlight? then [Runs.Failure(s.now)]
      else []
    case _ => []
  }

  /** The record that the end of an adapter call makes in the breaker. */
  function Report(c: Call): Runs.Event {
    if c.result.Returned? then Runs.Success(c.at) else Runs.Failure(c.at)
  }

  /* ---------- what the counters show ---------- */

  /** Counters that show the usage `u`: its tokens, and its price, which is per
      1000 tokens of input and of output. */
  predicate Shows(cfg: Config, tokensIn: nat, tokensOut: nat, cost: real, u: Usage) {
    && tokensIn == u.tokensIn && tokensOut == u.tokensOut
    && cost == u.tokensIn as real / 1000.0 * cfg.priceIn + u.tokensOut as real / 1000.0 * cfg.priceOut
  }

  ghost predicate ModelAgrees(cfg: Config, m: Meters, calls: seq<Call>, model: Text) {
    Shows(cfg, Count(m.tokensIn, model), Count(m.tokensOut, model), Amount(m.cost, model), Totals(calls, model))
  }

  /** The counters of every model agree with the finished calls. */
  ghost predicate MetersAgree(cfg: Config, m: Meters, calls: seq<Call>) {
    forall model :: ModelAgrees(cfg, m, calls, model)
  }

  /** The requests that have had an adapter call end: exactly those past it. */
  predicate PastCall(pc: Pc) {
    match pc
    case Storing(_) => true
    case Releasing(_, _) => true
    case Finished(Answered(r), _) => !r.cacheHit
    case Finished(Refused(_), _) => false
    case Finished(_, _) => true
    case _ => false
  }

  predicate IsPast(s: World, pid: Pid) {
    pid in s.procs && PastCall(s.procs[pid].pc)
  }

  ghost predicate OneCallEach(s: World) {
    forall pid :: CallsBy(s.calls, pid) == if IsPast(s, pid) then 1 else 0
  }

  lemma Distribute(x: real, y: real, p: real)
    ensures (x + y) * p == x * p + y * p
  {
  }

  /** The estimated cost of two batches of tokens is that of their sum. */
  lemma CostIsLinear(cfg: Config, a: Usage, b: Usage)
    ensures EstimateCost(cfg, Add(a, b)) == EstimateCost(cfg, a) + EstimateCost(cfg, b)
  {
    Distribute(a.tokensIn as real / 1000.0, b.tokensIn as real / 1000.0, cfg.priceIn);
    Distribute(a.tokensOut as real / 1000.0, b.tokensOut as real / 1000.0, cfg.priceOut);
  }

  lemma ShowsSum(cfg: Config, tokensIn: nat, tokensOut: nat, cost: real, u: Usage, more: Usage)
    requires Shows(cfg, tokensIn, tokensOut, cost, u)
    ensures Shows(cfg, tokensIn + more.tokensIn, tokensOut + more.tokensOut, cost + EstimateCost(cfg, more),
                  Add(u, more))
  {
    CostIsLinear(cfg, u, more);
  }

  /** What recording one usage does to each labelled counter. */
  lemma RecordedMeters(cfg: Config, m: Meters, model: Text, u: Usage, other: Text)
    ensures var m' := RecordUsage(cfg, m, model, u);
            if other == model
            then
              && Count(m'.tokensIn, other) == Count(m.tokensIn, other) + u.tokensIn
              && Count(m'.tokensOut, other) == Count(m.tokensOut, other) + u.tokensOut
              && Amount(m'.cost, other) == Amount(m.cost, other)
                 + (u.tokensIn as real / 1000.0 * cfg.priceIn + u.tokensOut as real / 1000.0 * cfg.priceOut)
            else
              && Count(m'.tokensIn, other) == Count(m.tokensIn, other)
              && Count(m'.tokensOut, other) == Count(m.tokensOut, other)
              && Amount(m'.cost, other) == Amount(m.cost, other)
  {
  }

  lemma SuccessKeepsModel(cfg: Config, m: Meters, calls: seq<Call>, c: Call, model: Text)
    requires ModelAgrees(cfg, m, calls, model)
    requires Totals(calls + [c], model) ==
             if c.req.model == model then Add(Totals(calls, model), CallUsage(c)) else Totals(calls, model)
    ensures ModelAgrees(cfg, RecordUsage(cfg, m, c.req.model, CallUsage(c)), calls + [c], model)
  {
    RecordedMeters(cfg, m, c.req.model, CallUsage(c), model);
    if c.req.model == model {
      ShowsSum(cfg, Count(m.tokensIn, model), Count(m.tokensOut, model), Amount(m.cost, model),
               Totals(calls, model), CallUsage(c));
    }
  }

  lemma SuccessKeepsMeters(cfg: Config, m: Meters, calls: seq<Call>, c: Call)
    requires MetersAgree(cfg, m, calls)
    ensures MetersAgree(cfg, RecordUsage(cfg, m, c.req.model, CallUsage(c)), calls + [c])
  {
    forall model ensures ModelAgrees(cfg, RecordUsage(cfg, m, c.req.model, CallUsage(c)), calls + [c], model) {
      assert ModelAgrees(cfg, m, calls, model);
      OneMoreCall(calls, c, model, 0);
      SuccessKeepsModel(cfg, m, calls, c, model);
    }
  }

  lemma FailureAddsNoTokens(calls: seq<Call>, c: Call, model: Text)
    requires !c.result.Returned?
    ensures Totals(calls + [c], model) == Totals(calls, model)
  {
    OneMoreCall(calls, c, model, 0);
  }

  /** Agreement depends on the calls only through the totals of the model. */
  lemma SameTotalsAgree(cfg: Config, m: Meters, calls: seq<Call>, more: seq<Call>, model: Text)
    requires ModelAgrees(cfg, m, calls, model) && Totals(more, model) == Totals(calls, model)
    ensures ModelAgrees(cfg, m, more, model)
  {
  }

  lemma FailureKeepsMeters(cfg: Config, m: Meters, calls: seq<Call>, c: Call)
    requires MetersAgree(cfg, m, calls) && !c.result.Returned?
    ensures MetersAgree(cfg, m, calls + [c])
  {
    forall model ensures ModelAgrees(cfg, m, calls + [c], model) {
      FailureAddsNoTokens(calls, c, model);
      SameTotalsAgree(cfg, m, calls, calls + [c], model);
    }
  }

  /* ---------- every step conserves ---------- */

  lemma OtherStepsKeepPast(cfg: Config, s: World, e: Event, pid: Pid)
    requires Enabled(s, e) && !(e.Run? && s.procs[e.pid].pc.InFlight?)
    ensures IsPast(Next(cfg, s, e), pid) == IsPast(s, pid)
  {
    if pid in s.procs && !(e.Run? && e.pid == pid) {
      OthersStay(cfg, s, e, pid);
    } else if e.Run? {
      match s.procs[e.pid].pc
      case Lookup =>
      case Admission =>
      case Acquiring =>
      case Polling(w) =>
      case Storing(p) =>
      case Releasing(p, _) =>
      case _ =>
    }
  }

  /** Only the end of an adapter call touches the call log and the meters, and
      only the request it belongs to becomes one past its call. */
  lemma OtherStepsKeepCalls(cfg: Config, s: World, e: Event)
    requires Enabled(s, e) && !(e.Run? && s.procs[e.pid].pc.InFlight?)
    ensures var s' := Next(cfg, s, e);
            s'.calls == s.calls && s'.meters == s.meters && forall pid :: IsPast(s', pid) == IsPast(s, pid)
  {
    forall pid ensures IsPast(Next(cfg, s, e), pid) == IsPast(s, pid) {
      OtherStepsKeepPast(cfg, s, e, pid);
    }
    if e.Run? {
      match s.procs[e.pid].pc
      case Lookup =>
      case Admission =>
      case Acquiring =>
      case Polling(w) =>
      case Storing(p) =>
      case Releasing(p, _) =>
      case _ =>
    }
  }

  lemma CallEndKeepsCalls(cfg: Config, s: World, pid: Pid, c: Choice) returns (call: Call)
    requires CanStep(s, pid, c) && s.procs[pid].pc.InFlight?
    ensures var s' := Step(cfg, s, pid, c);
            && s'.calls == s.calls + [call] && call.pid == pid && call.req == s.procs[pid].req
            && s'.meters == (if call.result.Returned? then RecordUsage(cfg, s.meters, call.req.model, CallUsage(call))
                             else s.meters)
            && s'.procs.Keys == s.procs.Keys && PastCall(s'.procs[pid].pc)
            && forall other | other in s.procs && other != pid :: s'.procs[other] == s.procs[other]
    ensures BreakerEvents(s, Run(pid, c)) == [Report(call)]
  {
    call := Step(cfg, s, pid, c).calls[|s.calls|];
  }

  lemma StepConserves(cfg: Config, s: World, e: Event)
    requires Enabled(s, e) && MetersAgree(cfg, s.meters, s.calls) && OneCallEach(s)
    ensures MetersAgree(cfg, Next(cfg, s, e).meters, Next(cfg, s, e).calls) && OneCallEach(Next(cfg, s, e))
  {
    if e.Run? && s.procs[e.pid].pc.InFlight? {
      var c := CallEndKeepsCalls(cfg, s, e.pid, e.choice);
      if c.result.Returned? {
        SuccessKeepsMeters(cfg, s.meters, s.calls, c);
      } else {
        FailureKeepsMeters(cfg, s.meters, s.calls, c);
      }
      CallEndKeepsOne(s, Next(cfg, s, e), c);
    } else {
      OtherStepsKeepCalls(cfg, s, e);
    }
  }

  lemma CallEndKeepsOne(s: World, s': World, c: Call)
    requires OneCallEach(s) && c.pid in s.procs && s.procs[c.pid].pc.InFlight? && s'.calls == s.calls + [c]
    requires s'.procs.Keys == s.procs.Keys && PastCall(s'.procs[c.pid].pc)
    requires forall other | other in s.procs && other != c.pid :: s'.procs[other] == s.procs[other]
    ensures OneCallEach(s')
  {
    forall pid ensures CallsBy(s'.calls, pid) == if IsPast(s', pid) then 1 else 0 {
      OneMoreCall(s.calls, c, [], pid);
      assert CallsBy(s.calls, pid) == if IsPast(s, pid) then 1 else 0;
    }
  }

  /** In every reachable state each request accounts for at most one adapter
      call (hits, collapsed and refused requests for none), and the token and
      cost counters of every model equal the price-weighted usage of its
      successful calls. */
  lemma {:induction false} Conserved(cfg: Config, ss: seq<World>, es: seq<Event>, n: nat)
    requires Behaviour(cfg, ss, es) && n < |ss|
    ensures MetersAgree(cfg, ss[n].meters, ss[n].calls) && OneCallEach(ss[n])
  {
    if n > 0 {
      Conserved(cfg, ss, es, n - 1);
      assert Follows(cfg, ss, es, n - 1);
      StepConserves(cfg, ss[n - 1], es[n - 1]);
    }
  }

  /* ---------- the breaker inside the gateway ---------- */

  /** The uses of the breaker by all requests, streams and health checks. */
  ghost function BreakerTrace(ss: seq<World>, es: seq<Event>, n: nat): seq<Runs.Event>
    requires n <= |es| < |ss|
  {
    if n == 0 then []
    else BreakerTrace(ss, es, n - 1) + BreakerEvents(ss[n - 1], es[n - 1])
  }

  lemma RunAppend(cfg: Settings, bes: seq<Runs.Event>, more: seq<Runs.Event>)
    requires |more| <= 1
    ensures Runs.Run(cfg, bes + more) ==
            if more == [] then Runs.Run(cfg, bes) else Runs.Step(cfg, Runs.Run(cfg, bes), more[0])
  {
    if more == [] {
      assert bes + more == bes;
    } else {
      assert Runs.Front(bes + more) == bes;
    }
  }

  lemma ChronologicalAppend(bes: seq<Runs.Event>, more: seq<Runs.Event>, now: real, later: real)
    requires Runs.Chronological(bes) && Runs.NotAfter(bes, now) && now <= later
    requires |more| <= 1 && (more != [] ==> more[0].at == now)
    ensures Runs.Chronological(bes + more) && Runs.NotAfter(bes + more, later)
  {
  }

  lemma StepFollowsTrace(cfg: Config, s: World, e: Event)
    requires Enabled(s, e)
    ensures var more := BreakerEvents(s, e);
            && |more| <= 1 && (more != [] ==> more[0].at == s.now) && s.now <= Next(cfg, s, e).now
            && Next(cfg, s, e).breaker == if more == [] then s.breaker else Runs.Step(cfg.breaker, s.breaker, more[0])
  {
    if e.Run? {
      match s.procs[e.pid].pc
      case Lookup =>
      case Admission =>
      case Acquiring =>
      case Polling(w) =>
      case InFlight =>
      case Storing(p) =>
      case Releasing(p, _) =>
      case _ =>
    }
  }

  lemma FollowsTrace(cfg: Config, ss: seq<World>, es: seq<Event>, i: nat)
    requires Behaviour(cfg, ss, es) && i < |es|
    ensures var more := BreakerEvents(ss[i], es[i]);
            && |more| <= 1 && (more != [] ==> more[0].at == ss[i].now) && ss[i].now <= ss[i + 1].now
            && ss[i + 1].breaker == if more == [] then ss[i].breaker else Runs.Step(cfg.breaker, ss[i].breaker, more[0])
  {
    assert Follows(cfg, ss, es, i);
    StepFollowsTrace(cfg, ss[i], es[i]);
  }

  /** The breaker changed by at most one use. */
  ghost predicate Heard(cfg: Settings, b: Snapshot, b': Snapshot, more: seq<Runs.Event>) {
    |more| <= 1 && b' == if more == [] then b else Runs.Step(cfg, b, more[0])
  }

  lemma HeardRuns(cfg: Settings, b: Snapshot, b': Snapshot, bes: seq<Runs.Event>, more: seq<Runs.Event>)
    requires b == Runs.Run(cfg, bes) && Heard(cfg, b, b', more)
    ensures b' == Runs.Run(cfg, bes + more)
  {
    RunAppend(cfg, bes, more);
  }

  lemma StepIsHeard(cfg: Config, ss: seq<World>, es: seq<Event>, i: nat)
    requires Behaviour(cfg, ss, es) && i < |es|
    ensures Heard(cfg.breaker, ss[i].breaker, ss[i + 1].breaker, BreakerEvents(ss[i], es[i]))
  {
    FollowsTrace(cfg, ss, es, i);
  }

  lemma RunGrows(cfg: Config, ss: seq<World>, es: seq<Event>, n: nat, bes: seq<Runs.Event>)
    requires Behaviour(cfg, ss, es) && 0 < n < |ss| && ss[n - 1].breaker == Runs.Run(cfg.breaker, bes)
    ensures ss[n].breaker == Runs.Run(cfg.breaker, bes + BreakerEvents(ss[n - 1], es[n - 1]))
  {
    StepIsHeard(cfg, ss, es, n - 1);
    HeardRuns(cfg.breaker, ss[n - 1].breaker, ss[n].breaker, bes, BreakerEvents(ss[n - 1], es[n - 1]));
  }

  lemma TraceGrows(ss: seq<World>, es: seq<Event>, n: nat)
    requires 0 < n <= |es| < |ss|
    ensures BreakerTrace(ss, es, n) == BreakerTrace(ss, es, n - 1) + BreakerEvents(ss[n - 1], es[n - 1])
  {
  }

  lemma TraceStarts(cfg: Config, ss: seq<World>, es: seq<Event>)
    requires Behaviour(cfg, ss, es)
    ensures ss[0].breaker == Runs.Run(cfg.breaker, BreakerTrace(ss, es, 0))
  {
  }

  lemma {:induction false} TraceRuns(cfg: Config, ss: seq<World>, es: seq<Event>, n: nat)
    requires Behaviour(cfg, ss, es) && n < |ss|
    ensures ss[n].breaker == Runs.Run(cfg.breaker, BreakerTrace(ss, es, n))
    decreases n
  {
    if n == 0 {
      TraceStarts(cfg, ss, es);
    } else {
      TraceRuns(cfg, ss, es, n - 1);
      RunGrows(cfg, ss, es, n, BreakerTrace(ss, es, n - 1));
      TraceGrows(ss, es, n);
    }
  }

  lemma {:induction false} TraceIsChronological(cfg: Config, ss: seq<World>, es: seq<Event>, n: nat)
    requires Behaviour(cfg, ss, es) && n < |ss|
    ensures Runs.Chronological(BreakerTrace(ss, es, n)) && Runs.NotAfter(BreakerTrace(ss, es, n), ss[n].now)
  {
    if n > 0 {
      TraceIsChronological(cfg, ss, es, n - 1);
      FollowsTrace(cfg, ss, es, n - 1);
      ChronologicalAppend(BreakerTrace(ss, es, n - 1), BreakerEvents(ss[n - 1], es[n - 1]), ss[n - 1].now, ss[n].now);
    }
  }

  /** The shared breaker is always in a state of a chronological breaker run,
      so every property of such runs holds inside the gateway. */
  lemma BreakerFollowsItsTrace(cfg: Config, ss: seq<World>, es: seq<Event>, n: nat)
    requires Behaviour(cfg, ss, es) && n < |ss|
    ensures var bes := BreakerTrace(ss, es, n);
            && ss[n].breaker == Runs.Run(cfg.breaker, bes)
            && Runs.Chronological(bes) && Runs.NotAfter(bes, ss[n].now)
  {
    TraceRuns(cfg, ss, es, n);
    TraceIsChronological(cfg, ss, es, n);
  }

  /** A request that meets the breaker within the recovery timeout after a trip
      is refused, whatever other requests, streams and health checks do. */
  lemma RefusedWhileTripped(cfg: Config, ss: seq<World>, es: seq<Event>, n: nat, i: nat)
    requires Behaviour(cfg, ss, es) && n < |es|
    requires es[n].Run? && es[n].pid in ss[n].procs && ss[n].procs[es[n].pid].pc == Admission
    requires var bes := BreakerTrace(ss, es, n);
             i < |bes| && Runs.Trips(cfg.breaker, bes, i) && ss[n].now < bes[i].at + cfg.breaker.recoveryTimeout
    ensures es[n].pid in ss[n + 1].procs
    ensures ss[n + 1].procs[es[n].pid].pc.Finished? && ss[n + 1].procs[es[n].pid].pc.outcome.Refused?
    ensures ss[n + 1].calls == ss[n].calls
  {
    assert Follows(cfg, ss, es, n);
    BreakerFollowsItsTrace(cfg, ss, es, n);
    Runs.OpenPeriodSafety(cfg.breaker, BreakerTrace(ss, es, n), i, ss[n].now);
  }

  /* ---------- calls and records ---------- */

  /** The part of the breaker's trace that `infer` itself recorded, its probes
      left out: the successes and failures of `Run` events. */
  ghost function InferRecords(ss: seq<World>, es: seq<Event>, n: nat): seq<Runs.Event>
    requires n <= |es| < |ss|
  {
    if n == 0 then [] else InferRecords(ss, es, n - 1) + RecordsOf(ss[n - 1], es[n - 1])
  }

  ghost function RecordsOf(s: World, e: Event): seq<Runs.Event> {
    var heard := BreakerEvents(s, e);
    if e.Run? && heard != [] && !heard[0].Probe? then heard else []
  }

  /** The record of each finished call, in order. */
  function Reports(calls: seq<Call>): seq<Runs.Event> {
    seq(|calls|, i requires 0 <= i < |calls| => Report(calls[i]))
  }

  lemma OneMoreReport(calls: seq<Call>, c: Call)
    ensures Reports(calls + [c]) == Reports(calls) + [Report(c)]
  {
  }

  lemma StepRecords(cfg: Config, s: World, e: Event)
    requires Enabled(s, e)
    ensures Reports(Next(cfg, s, e).calls) == Reports(s.calls) + RecordsOf(s, e)
  {
    if e.Run? && s.procs[e.pid].pc.InFlight? {
      var c := CallEndKeepsCalls(cfg, s, e.pid, e.choice);
      OneMoreReport(s.calls, c);
    } else {
      OtherStepsKeepCalls(cfg, s, e);
    }
  }

  lemma FollowsRecords(cfg: Config, ss: seq<World>, es: seq<Event>, i: nat)
    requires Behaviour(cfg, ss, es) && i < |es|
    ensures Reports(ss[i + 1].calls) == Reports(ss[i].calls) + RecordsOf(ss[i], es[i])
  {
    assert Follows(cfg, ss, es, i);
    StepRecords(cfg, ss[i], es[i]);
  }

  /** What `infer` recorded in the breaker is, one for one and in order, a
      success for each adapter call that returned and a failure for each that
      did not: so finished calls equal successes plus failures. */
  lemma {:induction false} RecordsAreCalls(cfg: Config, ss: seq<World>, es: seq<Event>, n: nat)
    requires Behaviour(cfg, ss, es) && n < |ss|
    ensures InferRecords(ss, es, n) == Reports(ss[n].calls)
  {
    if n > 0 {
      RecordsAreCalls(cfg, ss, es, n - 1);
      FollowsRecords(cfg, ss, es, n - 1);
    }
  }
}
