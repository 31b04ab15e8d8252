/** Exactly which deterministic adapters the cache is transparent for. */
module TransparencyBounds {
  import opened Prelude
  import opened CacheKeys
  import opened BreakerStates
  import opened Gateway
  import opened Races
  import opened Transparency

  /** Every answer has output and usage of a direct call, in every reachable
      state whose calls `adapter` answered. */
  ghost predicate Transparent(cfg: Config, adapter: Request -> AdapterResult) {
    forall s, pid | Reachable(cfg, s) && Gives(adapter, s.calls) && Answers(s, pid) ::
      ShowsDirect(s.procs[pid].pc.outcome.response, adapter, s.procs[pid].req)
  }

  predicate Answers(s: World, pid: Pid) {
    pid in s.procs && s.procs[pid].pc.Finished? && s.procs[pid].pc.outcome.Answered?
  }

  predicate ShowsDirect(r: Response, adapter: Request -> AdapterResult, req: Request) {
    var direct := Direct(adapter, req, r.cacheHit);
    r.output == direct.output && r.usage == direct.usage
  }

  /* ---------- one request, then another with the same text ---------- */

  lemma Admitting(cfg: Config, r: Request) returns (s: World)
    requires Received(r)
    ensures Reachable(cfg, s)
    ensures s == START.(procs := map[0 := Fresh(r).(pc := if cfg.collapsing then Acquiring else Calling)])
  {
    StartIsReachable(cfg);
    s := START;
    NextIsReachable(cfg, s, Arrive(0, r));
    s := Next(cfg, s, Arrive(0, r));
    NextIsReachable(cfg, s, Run(0, Proceed));
    s := Next(cfg, s, Run(0, Proceed));
    assert s.procs == map[0 := Fresh(r).(pc := Admission)];
    NextIsReachable(cfg, s, Run(0, Proceed));
    s := Next(cfg, s, Run(0, Proceed));
    assert s.procs == map[0 := Fresh(r).(pc := if cfg.collapsing then Acquiring else Calling)];
  }

  /** The first request is in its adapter call. */
  ghost predicate FirstIsCalling(s: World, r: Request, pc: Pc) {
    && s.now == 0.0 && s.cache == map[] && s.breaker == FRESH && s.calls == []
    && s.procs.Keys == {0} && s.procs[0].req == r && s.procs[0].pc == pc
  }

  lemma FirstCalls(cfg: Config, r: Request) returns (s: World)
    requires Received(r)
    ensures Reachable(cfg, s) && FirstIsCalling(s, r, InFlight)
  {
    s := Admitting(cfg, r);
    if cfg.collapsing {
      NextIsReachable(cfg, s, Run(0, Proceed));
      s := Next(cfg, s, Run(0, Proceed));
    }
    assert FirstIsCalling(s, r, Calling);
    NextIsReachable(cfg, s, Run(0, Proceed));
    s := Next(cfg, s, Run(0, Proceed));
  }

  lemma FirstStores(cfg: Config, r: Request, a: AdapterResult) returns (s: World)
    requires Received(r)
    ensures Reachable(cfg, s) && s.now == 0.0 && s.procs.Keys == {0}
    ensures s.cache == map[MakeKey(r) := Entry(PayloadOf(r, a), 0.0, cfg.cacheTtl)]
    ensures s.calls == [Call(0, r, 0.0, Returned(a))]
  {
    s := FirstCalls(cfg, r);
    NextIsReachable(cfg, s, Run(0, Returns(a)));
    s := Next(cfg, s, Run(0, Returns(a)));
    assert s.procs[0].pc == Storing(PayloadOf(r, a)) && s.procs.Keys == {0};
    NextIsReachable(cfg, s, Run(0, Proceed));
    s := Next(cfg, s, Run(0, Proceed));
  }

  /** A second request with the same key is answered from the cache. */
  lemma SecondHits(cfg: Config, r: Request, t: Request, a: AdapterResult) returns (s: World)
    requires Received(r) && Received(t) && MakeKey(r) == MakeKey(t) && 0.0 < cfg.cacheTtl
    ensures Reachable(cfg, s) && s.calls == [Call(0, r, 0.0, Returned(a))]
    ensures Answers(s, 1) && s.procs[1].req == t
    ensures s.procs[1].pc.outcome.response == BuildResponse(PayloadOf(r, a), true)
  {
    s := FirstStores(cfg, r, a);
    NextIsReachable(cfg, s, Arrive(1, t));
    s := Next(cfg, s, Arrive(1, t));
    NextIsReachable(cfg, s, Run(1, Proceed));
    s := Next(cfg, s, Run(1, Proceed));
  }

  lemma DisagreementShows(cfg: Config, adapter: Request -> AdapterResult, r: Request, t: Request)
    requires 0.0 < cfg.cacheTtl && Transparent(cfg, adapter)
    requires Received(r) && Received(t) && SameText(r, t)
    ensures SameAnswer(adapter(r), adapter(t))
  {
    KeyDecides(r, t);
    var s := SecondHits(cfg, r, t, adapter(r));
    assert ShowsDirect(s.procs[1].pc.outcome.response, adapter, t);
  }

  lemma AgreementSuffices(cfg: Config, adapter: Request -> AdapterResult, s: World, pid: Pid)
    requires AgreesOnText(adapter) && Reachable(cfg, s) && Gives(adapter, s.calls) && Answers(s, pid)
    ensures ShowsDirect(s.procs[pid].pc.outcome.response, adapter, s.procs[pid].req)
  {
    var ss, es :| Behaviour(cfg, ss, es) && ss[|ss| - 1] == s;
    ResponsesAreTransparent(cfg, ss, es, |ss| - 1, pid, adapter);
  }

  /** With a positive cache TTL, every answer is that of a direct call in output
      and usage exactly for the adapters that agree, in output and mapped usage,
      on requests with the same text. */
  lemma TransparentExactly(cfg: Config, adapter: Request -> AdapterResult)
    requires 0.0 < cfg.cacheTtl
    ensures Transparent(cfg, adapter) <==> AgreesOnText(adapter)
  {
    if Transparent(cfg, adapter) {
      forall r, t | Received(r) && Received(t) && SameText(r, t) ensures SameAnswer(adapter(r), adapter(t)) {
        DisagreementShows(cfg, adapter, r, t);
      }
    }
    if AgreesOnText(adapter) {
      forall s, pid | Reachable(cfg, s) && Gives(adapter, s.calls) && Answers(s, pid)
        ensures ShowsDirect(s.procs[pid].pc.outcome.response, adapter, s.procs[pid].req)
      {
        AgreementSuffices(cfg, adapter, s, pid);
      }
    }
  }
}
