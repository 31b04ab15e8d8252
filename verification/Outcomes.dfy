/** How each request of the infer path ends, and that no Redis fault ends one:
    every outcome against the one step that decides it. */
module Outcomes {
  import opened Prelude
  import opened CacheKeys
  import opened BreakerStates
  import opened Gateway

  /* ---------- the step that decides ---------- */

  ghost predicate StepOf(ss: seq<World>, es: seq<Event>, i: nat, pid: Pid) {
    i < |es| < |ss| && es[i].Run? && es[i].pid == pid && pid in ss[i].procs
  }

  /** The breaker check meets a circuit that blocks, `retry` whole seconds to go. */
  predicate RefusesNow(cfg: Config, s: World, pid: Pid, retry: int)
    requires pid in s.procs
  {
    && s.procs[pid].pc == Admission && Blocks(cfg.breaker, s.breaker, s.now)
    && retry == RetryAfter(cfg.breaker, s.breaker, s.now).Floor
  }

  /** A cache read, the first or one of the polls, whose reply arrives with the
      live value of the request's key. */
  predicate HitsNow(s: World, pid: Pid, c: Choice, r: Response)
    requires pid in s.procs
  {
    var key := MakeKey(s.procs[pid].req);
    && (s.procs[pid].pc == Lookup || s.procs[pid].pc.Polling?) && c == Proceed
    && key in s.cache && s.now < s.cache[key].expireAt
    && r == Response(s.cache[key].payload.output, s.cache[key].payload.model, s.cache[key].payload.usage, true)
  }

  /** The adapter call returns what the response shows. */
  predicate ReturnsNow(s: World, pid: Pid, c: Choice, r: Response)
    requires pid in s.procs
  {
    && s.procs[pid].pc == InFlight && c.Returns?
    && r.output == c.result.output && r.model == s.procs[pid].req.model && !r.cacheHit
    && r.usage.tokensIn == Reported(c.result.usage, "prompt_tokens")
    && r.usage.tokensOut == Reported(c.result.usage, "completion_tokens")
  }

  /** The step decides that the request ends, or will end, with this outcome. */
  predicate Decides(cfg: Config, s: World, pid: Pid, c: Choice, o: Outcome)
    requires pid in s.procs
  {
    match o
    case Refused(retry) => RefusesNow(cfg, s, pid, retry)
    case TimedOut => s.procs[pid].pc == InFlight && c == TimesOut
    case Failed => s.procs[pid].pc == InFlight && c == Fails
    case Answered(r) => HitsNow(s, pid, c, r) || ReturnsNow(s, pid, c, r)
  }

  ghost predicate DecidedAt(cfg: Config, ss: seq<World>, es: seq<Event>, i: nat, pid: Pid, o: Outcome) {
    StepOf(ss, es, i, pid) && Decides(cfg, ss[i], pid, es[i].choice, o)
  }

  /** The outcome is settled: reached, or an answer still to be stored and its
      lock released. */
  predicate Settled(pc: Pc, o: Outcome) {
    match pc
    case Finished(outcome, _) => outcome == o
    case Storing(p) => o == Answered(Response(p.output, p.model, p.usage, false))
    case Releasing(p, _) => o == Answered(Response(p.output, p.model, p.usage, false))
    case _ => false
  }

  predicate Undecided(pc: Pc) {
    !pc.Finished? && !pc.Storing? && !pc.Releasing?
  }

  /* ---------- one step ---------- */

  lemma LookupDecides(cfg: Config, s: World, pid: Pid, c: Choice, o: Outcome)
    requires CanStep(s, pid, c) && (s.procs[pid].pc.Lookup? || s.procs[pid].pc.Polling?)
    ensures var pc := Step(cfg, s, pid, c).procs[pid].pc;
            if Decides(cfg, s, pid, c, o) then Settled(pc, o) && pc.Finished? else !Settled(pc, o)
  {
  }

  lemma AdmissionDecides(cfg: Config, s: World, pid: Pid, c: Choice, o: Outcome)
    requires CanStep(s, pid, c) && s.procs[pid].pc.Admission?
    ensures var pc := Step(cfg, s, pid, c).procs[pid].pc;
            if Decides(cfg, s, pid, c, o) then Settled(pc, o) && pc.Finished? else !Settled(pc, o)
  {
  }

  lemma CallDecides(cfg: Config, s: World, pid: Pid, c: Choice, o: Outcome)
    requires CanStep(s, pid, c) && s.procs[pid].pc.InFlight?
    ensures Decides(cfg, s, pid, c, o) <==> Settled(Step(cfg, s, pid, c).procs[pid].pc, o)
  {
  }

  /** A step settles exactly what it decides. */
  lemma StepDecides(cfg: Config, s: World, pid: Pid, c: Choice, o: Outcome)
    requires CanStep(s, pid, c) && Undecided(s.procs[pid].pc)
    ensures pid in Step(cfg, s, pid, c).procs
    ensures Decides(cfg, s, pid, c, o) <==> Settled(Step(cfg, s, pid, c).procs[pid].pc, o)
  {
    StepMovesOne(cfg, s, pid, c);
    match s.procs[pid].pc
    case Lookup => LookupDecides(cfg, s, pid, c, o);
    case Polling(_) => LookupDecides(cfg, s, pid, c, o);
    case Admission => AdmissionDecides(cfg, s, pid, c, o);
    case InFlight => CallDecides(cfg, s, pid, c, o);
    case Acquiring =>
    case _ =>
  }

  lemma StoringStep(cfg: Config, s: World, pid: Pid, c: Choice)
    requires CanStep(s, pid, c) && s.procs[pid].pc.Storing?
    ensures pid in Step(cfg, s, pid, c).procs
    ensures var p, q := s.procs[pid], Step(cfg, s, pid, c).procs[pid];
            q.pc == Releasing(p.pc.payload, s.now) ||
            q.pc == Finished(Answered(BuildResponse(p.pc.payload, false)), s.now)
  {
  }

  lemma ReleasingStep(cfg: Config, s: World, pid: Pid, c: Choice)
    requires CanStep(s, pid, c) && s.procs[pid].pc.Releasing?
    ensures pid in Step(cfg, s, pid, c).procs
    ensures Step(cfg, s, pid, c).procs[pid].pc ==
            Finished(Answered(BuildResponse(s.procs[pid].pc.payload, false)), s.now)
  {
  }

  lemma NothingToDecide(cfg: Config, s: World, pid: Pid, c: Choice, o: Outcome)
    requires pid in s.procs && !Undecided(s.procs[pid].pc)
    ensures !Decides(cfg, s, pid, c, o)
  {
  }

  lemma SameAnswerSettled(p: Payload, storedAt: real, at: real, o: Outcome)
    ensures Settled(Storing(p), o) <==> Settled(Releasing(p, storedAt), o)
    ensures Settled(Releasing(p, storedAt), o) <==> Settled(Finished(Answered(BuildResponse(p, false)), at), o)
  {
  }

  /** Storing and releasing change nothing about an answer, whatever Redis does. */
  lemma StepKeepsSettled(cfg: Config, s: World, pid: Pid, c: Choice, o: Outcome)
    requires CanStep(s, pid, c) && !Undecided(s.procs[pid].pc)
    ensures pid in Step(cfg, s, pid, c).procs
    ensures Settled(s.procs[pid].pc, o) <==> Settled(Step(cfg, s, pid, c).procs[pid].pc, o)
  {
    match s.procs[pid].pc
    case Storing(p) =>
      StoringStep(cfg, s, pid, c);
      SameAnswerSettled(p, s.now, s.now, o);
    case Releasing(p, storedAt) =>
      ReleasingStep(cfg, s, pid, c);
      SameAnswerSettled(p, storedAt, s.now, o);
  }

  lemma NewIsUndecided(cfg: Config, s: World, e: Event, pid: Pid)
    requires Enabled(s, e) && pid !in s.procs && pid in Next(cfg, s, e).procs
    ensures Next(cfg, s, e).procs[pid].pc == Lookup
  {
    if e.Run? {
      StepMovesOne(cfg, s, e.pid, e.choice);
    }
  }

  /** The state before and after one event. */
  lemma EventDecides(cfg: Config, s: World, e: Event, pid: Pid, o: Outcome)
    requires Enabled(s, e) && pid in s.procs
    ensures pid in Next(cfg, s, e).procs
    ensures Settled(Next(cfg, s, e).procs[pid].pc, o) <==>
            Settled(s.procs[pid].pc, o) || (e.Run? && e.pid == pid && Decides(cfg, s, pid, e.choice, o))
  {
    if !(e.Run? && e.pid == pid) {
      OthersStay(cfg, s, e, pid);
    } else if Undecided(s.procs[pid].pc) {
      StepDecides(cfg, s, pid, e.choice, o);
    } else {
      StepKeepsSettled(cfg, s, pid, e.choice, o);
      NothingToDecide(cfg, s, pid, e.choice, o);
    }
  }

  /* ---------- all behaviours ---------- */

  lemma {:induction false} SettledExactly(cfg: Config, ss: seq<World>, es: seq<Event>, n: nat, pid: Pid, o: Outcome)
    requires Behaviour(cfg, ss, es) && n < |ss| && pid in ss[n].procs
    ensures Settled(ss[n].procs[pid].pc, o) <==> exists i: nat | i < n :: DecidedAt(cfg, ss, es, i, pid, o)
  {
    if n > 0 {
      var s, e := ss[n - 1], es[n - 1];
      assert Follows(cfg, ss, es, n - 1);
      if pid in s.procs {
        SettledExactly(cfg, ss, es, n - 1, pid, o);
        EventDecides(cfg, s, e, pid, o);
        if Settled(ss[n].procs[pid].pc, o) && !Settled(s.procs[pid].pc, o) {
          assert DecidedAt(cfg, ss, es, n - 1, pid, o);
        }
      } else {
        NewIsUndecided(cfg, s, e, pid);
        forall i: nat | i < n ensures !DecidedAt(cfg, ss, es, i, pid, o) {
          NotThereBefore(cfg, ss, es, i, n - 1, pid);
        }
      }
    }
  }

  lemma NotThereBefore(cfg: Config, ss: seq<World>, es: seq<Event>, i: nat, n: nat, pid: Pid)
    requires Behaviour(cfg, ss, es) && i <= n < |ss| && pid !in ss[n].procs
    ensures pid !in ss[i].procs
  {
    if pid in ss[i].procs {
      RequestStaysUntil(cfg, ss, es, i, n, pid);
    }
  }

  /** The outcome of every finished request, in every interleaving and with
      Redis faults at any step, is decided by exactly one kind of step of its
      own: it is refused exactly if it met the breaker while the circuit
      blocked, with the whole seconds of the retry time; it is timed out or
      failed exactly if its adapter call was; it is a hit exactly if a read got
      through to a live value, which is its answer; and it is an answer of its
      own exactly if its call returned that. */
  lemma OutcomeExactly(cfg: Config, ss: seq<World>, es: seq<Event>, n: nat, pid: Pid, o: Outcome)
    requires Behaviour(cfg, ss, es) && n < |ss| && pid in ss[n].procs && ss[n].procs[pid].pc.Finished?
    ensures ss[n].procs[pid].pc.outcome == o <==> exists i: nat | i < n :: DecidedAt(cfg, ss, es, i, pid, o)
  {
    SettledExactly(cfg, ss, es, n, pid, o);
  }

  /** A request is refused exactly if it stood at the breaker check while the
      circuit blocked, and is told the floor of the retry time at that moment. */
  lemma RefusedExactly(cfg: Config, ss: seq<World>, es: seq<Event>, n: nat, pid: Pid, retry: int)
    requires Behaviour(cfg, ss, es) && n < |ss| && pid in ss[n].procs
    ensures (ss[n].procs[pid].pc.Finished? && ss[n].procs[pid].pc.outcome == Refused(retry)) <==>
            exists i: nat | i < n && StepOf(ss, es, i, pid) :: RefusesNow(cfg, ss[i], pid, retry)
  {
    SettledExactly(cfg, ss, es, n, pid, Refused(retry));
    if i: nat :| i < n && DecidedAt(cfg, ss, es, i, pid, Refused(retry)) {
      assert RefusesNow(cfg, ss[i], pid, retry);
    }
    if i: nat :| i < n && StepOf(ss, es, i, pid) && RefusesNow(cfg, ss[i], pid, retry) {
      assert DecidedAt(cfg, ss, es, i, pid, Refused(retry));
    }
  }

  /* ---------- Redis faults ---------- */

  predicate RedisFault(c: Choice) {
    c == RequestLost || c == ReplyLost
  }

  /** The request goes on to the breaker check, to the wait without the lock, to
      the adapter call, to the release of its lock, or to its own answer. */
  predicate GoesOn(p: Proc, pc: Pc, now: real) {
    match p.pc
    case Lookup => pc == Admission
    case Acquiring => pc == EnterWait(now)
    case Polling(_) => pc == Calling
    case Storing(v) =>
      if p.hasLock then pc == Releasing(v, now)
      else pc == Finished(Answered(Response(v.output, v.model, v.usage, false)), now)
    case Releasing(v, _) => pc == Finished(Answered(Response(v.output, v.model, v.usage, false)), now)
    case _ => false
  }

  lemma FaultStep(cfg: Config, s: World, pid: Pid, c: Choice)
    requires CanStep(s, pid, c) && RedisFault(c)
    ensures var s' := Step(cfg, s, pid, c);
            && pid in s'.procs && GoesOn(s.procs[pid], s'.procs[pid].pc, s.now)
            && s'.procs[pid].hasLock == s.procs[pid].hasLock
            && s'.breaker == s.breaker && s'.calls == s.calls && s'.meters == s.meters
  {
    match s.procs[pid].pc
    case Lookup =>
    case Acquiring =>
    case Polling(_) =>
    case Storing(_) =>
    case Releasing(_, _) =>
  }

  /** A lost Redis request or reply never ends a request without an answer: at
      the lookup it leads to the breaker check and at a poll to the adapter
      call, and nowhere does it count for the breaker. */
  lemma FaultGoesOn(cfg: Config, ss: seq<World>, es: seq<Event>, i: nat, pid: Pid)
    requires Behaviour(cfg, ss, es) && StepOf(ss, es, i, pid) && RedisFault(es[i].choice)
    ensures pid in ss[i + 1].procs && GoesOn(ss[i].procs[pid], ss[i + 1].procs[pid].pc, ss[i].now)
    ensures ss[i + 1].procs[pid].hasLock == ss[i].procs[pid].hasLock
    ensures ss[i + 1].breaker == ss[i].breaker && ss[i + 1].calls == ss[i].calls && ss[i + 1].meters == ss[i].meters
  {
    assert Follows(cfg, ss, es, i);
    FaultStep(cfg, ss[i], pid, es[i].choice);
  }

  /** None of the request's cache reads gets through. */
  ghost predicate ReadsFail(ss: seq<World>, es: seq<Event>, n: nat, pid: Pid) {
    forall k: nat | k < n && StepOf(ss, es, k, pid) && (ss[k].procs[pid].pc.Lookup? || ss[k].procs[pid].pc.Polling?) ::
      RedisFault(es[k].choice)
  }

  /** Failures of Redis are misses: a request whose reads all fail still ends at
      its own adapter call, or at a circuit that blocks. */
  lemma RedisFailureIsAMiss(cfg: Config, ss: seq<World>, es: seq<Event>, n: nat, pid: Pid) returns (i: nat)
    requires Behaviour(cfg, ss, es) && n < |ss| && pid in ss[n].procs && ss[n].procs[pid].pc.Finished?
    requires ReadsFail(ss, es, n, pid)
    ensures i < n && DecidedAt(cfg, ss, es, i, pid, ss[n].procs[pid].pc.outcome)
    ensures ss[i].procs[pid].pc == InFlight || Blocks(cfg.breaker, ss[i].breaker, ss[i].now)
  {
    var o := ss[n].procs[pid].pc.outcome;
    OutcomeExactly(cfg, ss, es, n, pid, o);
    i :| i < n && DecidedAt(cfg, ss, es, i, pid, o);
  }
}
