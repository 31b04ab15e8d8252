/** The timing assumptions of request collapsing without a bound of its own on
    the release: lock holders finish inside the lock TTL, followers keep
    polling, Redis answers and the lock holders' adapter calls succeed. */
module PromptRuns {
  import opened Gateway
  import opened SingleFlight

  predicate OnTime(cfg: Config, poll: real, p: Proc, now: real) {
    && (p.hasLock && Leading(p.pc) ==> now < p.acquiredAt + cfg.lockTtl)
    && (Waiting(p.pc) ==> now <= LastPoll(p.pc) + poll)
  }

  ghost predicate Prompt(cfg: Config, poll: real, s: World) {
    forall pid | pid in s.procs :: OnTime(cfg, poll, s.procs[pid], s.now)
  }

  ghost predicate PromptRun(cfg: Config, poll: real, ss: seq<World>, es: seq<Event>) {
    && Behaviour(cfg, ss, es)
    && (forall i | 0 <= i < |ss| :: Prompt(cfg, poll, ss[i]))
    && (forall i | 0 <= i < |es| :: Smooth(ss[i], es[i]))
  }

  ghost predicate Reached(cfg: Config, poll: real, s: World) {
    exists ss, es :: PromptRun(cfg, poll, ss, es) && ss[|ss| - 1] == s
  }

  /* ---------- prompt runs are calm ---------- */

  predicate InOrder(p: Proc, now: real) {
    && (p.hasLock ==> p.acquiredAt <= now)
    && (p.pc.Releasing? ==> p.hasLock && p.acquiredAt <= p.pc.storedAt)
  }

  ghost predicate StoredAfterAcquired(s: World) {
    forall pid | pid in s.procs :: InOrder(s.procs[pid], s.now)
  }

  lemma OwnStepInOrder(cfg: Config, s: World, pid: Pid, c: Choice)
    requires CanStep(s, pid, c) && InOrder(s.procs[pid], s.now)
    ensures var s' := Step(cfg, s, pid, c); pid in s'.procs && InOrder(s'.procs[pid], s'.now)
  {
    match s.procs[pid].pc
    case Lookup =>
    case Admission =>
    case Acquiring =>
    case Polling(_) =>
    case InFlight =>
    case Storing(_) =>
    case Releasing(_, _) =>
    case _ =>
  }

  lemma NextInOrder(cfg: Config, s: World, e: Event, pid: Pid)
    requires pid in s.procs && InOrder(s.procs[pid], s.now) && Enabled(s, e)
    ensures pid in Next(cfg, s, e).procs && InOrder(Next(cfg, s, e).procs[pid], Next(cfg, s, e).now)
  {
    if e.Run? && e.pid == pid {
      OwnStepInOrder(cfg, s, pid, e.choice);
    } else {
      OthersStay(cfg, s, e, pid);
      TimeAdvances(cfg, s, e);
    }
  }

  lemma NewcomerInOrder(cfg: Config, s: World, e: Event, pid: Pid)
    requires Enabled(s, e) && pid !in s.procs && pid in Next(cfg, s, e).procs
    ensures InOrder(Next(cfg, s, e).procs[pid], Next(cfg, s, e).now)
  {
    if e.Run? {
      StepMovesOne(cfg, s, e.pid, e.choice);
    }
  }

  lemma NextStoredAfterAcquired(cfg: Config, s: World, e: Event)
    requires StoredAfterAcquired(s) && Enabled(s, e)
    ensures StoredAfterAcquired(Next(cfg, s, e))
  {
    var s' := Next(cfg, s, e);
    forall pid | pid in s'.procs ensures InOrder(s'.procs[pid], s'.now) {
      if pid in s.procs {
        assert InOrder(s.procs[pid], s.now);
        NextInOrder(cfg, s, e, pid);
      } else {
        NewcomerInOrder(cfg, s, e, pid);
      }
    }
  }

  /** Finishing inside the lock TTL bounds the release by that TTL. */
  lemma {:induction false} PromptIsTimely(cfg: Config, poll: real, ss: seq<World>, es: seq<Event>, n: nat)
    requires PromptRun(cfg, poll, ss, es) && n < |ss|
    ensures StoredAfterAcquired(ss[n]) && Timely(cfg, Timing(poll, cfg.lockTtl), ss[n])
  {
    if n > 0 {
      PromptIsTimely(cfg, poll, ss, es, n - 1);
      assert Follows(cfg, ss, es, n - 1);
      NextStoredAfterAcquired(cfg, ss[n - 1], es[n - 1]);
    }
    assert Prompt(cfg, poll, ss[n]);
    assert forall pid | pid in ss[n].procs :: OnTime(cfg, poll, ss[n].procs[pid], ss[n].now);
  }

  lemma PromptIsCalm(cfg: Config, poll: real, ss: seq<World>, es: seq<Event>)
    requires PromptRun(cfg, poll, ss, es)
    ensures Calm(cfg, Timing(poll, cfg.lockTtl), ss, es)
  {
    forall i | 0 <= i < |ss| ensures Timely(cfg, Timing(poll, cfg.lockTtl), ss[i]) {
      PromptIsTimely(cfg, poll, ss, es, i);
    }
  }

  /** The invariant of collapsing holds in every state a prompt run reaches, if
      lock TTL plus poll period exceed neither the wait timeout nor the cache
      TTL; as with the defaults 10, 0.05, 15 and 300. */
  lemma ReachedIsCollapsed(cfg: Config, poll: real, s: World)
    requires Suitable(cfg, Timing(poll, cfg.lockTtl)) && Reached(cfg, poll, s)
    ensures Collapsed(cfg, Timing(poll, cfg.lockTtl), s)
  {
    var ss, es :| PromptRun(cfg, poll, ss, es) && ss[|ss| - 1] == s;
    PromptIsCalm(cfg, poll, ss, es);
    AlwaysCollapsed(cfg, Timing(poll, cfg.lockTtl), ss, es, |ss| - 1);
  }

  /* ---------- building prompt runs ---------- */

  lemma StartIsReached(cfg: Config, poll: real)
    ensures Reached(cfg, poll, START)
  {
    assert PromptRun(cfg, poll, [START], []);
    assert [START][|[START]| - 1] == START;
  }

  lemma ReachedIsPrompt(cfg: Config, poll: real, s: World)
    requires Reached(cfg, poll, s)
    ensures Prompt(cfg, poll, s)
  {
  }

  lemma Extend(cfg: Config, poll: real, s: World, e: Event) returns (s': World)
    requires Reached(cfg, poll, s) && Enabled(s, e) && Smooth(s, e) && Prompt(cfg, poll, Next(cfg, s, e))
    ensures s' == Next(cfg, s, e) && Reached(cfg, poll, s')
  {
    s' := Next(cfg, s, e);
    var ss, es :| PromptRun(cfg, poll, ss, es) && ss[|ss| - 1] == s;
    var ss', es' := ss + [s'], es + [e];
    Extended(cfg, ss, es, e);
    assert PromptRun(cfg, poll, ss', es');
    assert ss'[|ss'| - 1] == s';
  }

  /** One step of one request; only that request can become late by it. */
  lemma Move(cfg: Config, poll: real, s: World, pid: Pid, c: Choice) returns (s': World)
    requires Reached(cfg, poll, s) && CanStep(s, pid, c) && Smooth(s, Run(pid, c))
    requires var t := Step(cfg, s, pid, c); pid in t.procs && OnTime(cfg, poll, t.procs[pid], s.now)
    ensures s' == Step(cfg, s, pid, c) && Reached(cfg, poll, s')
  {
    StepMovesOne(cfg, s, pid, c);
    ReachedIsPrompt(cfg, poll, s);
    s' := Extend(cfg, poll, s, Run(pid, c));
  }

  /** Time passes; nobody may be late at its end. */
  lemma Pass(cfg: Config, poll: real, s: World, to: real) returns (s': World)
    requires Reached(cfg, poll, s) && s.now <= to
    requires forall pid | pid in s.procs :: OnTime(cfg, poll, s.procs[pid], to)
    ensures s' == s.(now := to) && Reached(cfg, poll, s')
  {
    s' := Extend(cfg, poll, s, Advance(to));
  }
}
