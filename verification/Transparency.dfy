/** Transparency: whatever faults and interleavings occur, every successful
    response carries what an adapter call for an equal request returned. */
module Transparency {
  import opened Prelude
  import opened Json
  import opened CacheKeys
  import opened Gateway

  /* ---------- provenance of payloads ---------- */

  /** The payload has the output of an adapter's result, the model of its
      request, and the token counts the provider reported. */
  predicate ShowsResult(req: Request, r: AdapterResult, p: Payload) {
    && p.output == r.output && p.model == req.model
    && p.usage.tokensIn == Reported(r.usage, "prompt_tokens")
    && p.usage.tokensOut == Reported(r.usage, "completion_tokens")
  }

  lemma PayloadShowsResult(req: Request, r: AdapterResult)
    ensures ShowsResult(req, r, PayloadOf(req, r))
  {
  }

  /** The finished call `c` succeeded, for a request with this key, and
      produced this payload. */
  predicate Produced(c: Call, key: string, p: Payload) {
    c.result.Returned? && MakeKey(c.req) == key && ShowsResult(c.req, c.result.result, p)
  }

  /** Some call of the log produced `p` no later than `deadline`. */
  ghost predicate Backed(calls: seq<Call>, key: string, p: Payload, deadline: real) {
    exists i :: 0 <= i < |calls| && Produced(calls[i], key, p) && calls[i].at <= deadline
  }

  /** An entry was written by a successful call for its key, and lives for the
      cache TTL from that write. */
  ghost predicate EntrySound(cfg: Config, s: World, key: string) {
    key in s.cache ==>
      var e := s.cache[key];
      Backed(s.calls, key, e.payload, e.writtenAt) && e.writtenAt <= s.now && e.expireAt == e.writtenAt + cfg.cacheTtl
  }

  /** A response's payload was produced for an equal request; one served from
      the cache was written less than the cache TTL before it was read. */
  ghost predicate ResponseSound(cfg: Config, calls: seq<Call>, req: Request, r: Response, at: real) {
    var p := Payload(r.output, r.model, r.usage);
    if r.cacheHit
    then exists w: real :: w <= at < w + cfg.cacheTtl && Backed(calls, MakeKey(req), p, w)
    else Backed(calls, MakeKey(req), p, at)
  }

  ghost predicate ProcSound(cfg: Config, s: World, p: Proc) {
    && Received(p.req)
    && match p.pc
       case Storing(payload) => Backed(s.calls, MakeKey(p.req), payload, s.now)
       case Releasing(payload, _) => Backed(s.calls, MakeKey(p.req), payload, s.now)
       case Finished(Answered(r), at) => ResponseSound(cfg, s.calls, p.req, r, at)
       case _ => true
  }

  ghost predicate Sound(cfg: Config, s: World) {
    && (forall key :: EntrySound(cfg, s, key))
    && (forall pid | pid in s.procs :: ProcSound(cfg, s, s.procs[pid]))
    && (forall c | c in s.calls :: Received(c.req))
  }

  /* ---------- every step keeps it ---------- */

  lemma BackedPersists(calls: seq<Call>, more: seq<Call>, key: string, p: Payload, deadline: real, later: real)
    requires Backed(calls, key, p, deadline) && deadline <= later
    ensures Backed(calls + more, key, p, later)
  {
    var i :| 0 <= i < |calls| && Produced(calls[i], key, p) && calls[i].at <= deadline;
    assert (calls + more)[i] == calls[i];
  }

  lemma ResponsePersists(cfg: Config, calls: seq<Call>, more: seq<Call>, req: Request, r: Response, at: real)
    requires ResponseSound(cfg, calls, req, r, at)
    ensures ResponseSound(cfg, calls + more, req, r, at)
  {
    var key, p := MakeKey(req), Payload(r.output, r.model, r.usage);
    if r.cacheHit {
      var w: real :| w <= at < w + cfg.cacheTtl && Backed(calls, key, p, w);
      BackedPersists(calls, more, key, p, w, w);
    } else {
      BackedPersists(calls, more, key, p, at, at);
    }
  }

  /** More calls and more time leave entries and requests sound. */
  lemma SoundGrows(cfg: Config, s: World, s': World, more: seq<Call>)
    requires Sound(cfg, s) && s'.calls == s.calls + more && s.now <= s'.now
    ensures forall key | s'.cache == s.cache :: EntrySound(cfg, s', key)
    ensures forall pid | pid in s.procs :: ProcSound(cfg, s', s.procs[pid])
  {
    forall key | s'.cache == s.cache ensures EntrySound(cfg, s', key) {
      assert EntrySound(cfg, s, key);
      if key in s.cache {
        var e := s.cache[key];
        BackedPersists(s.calls, more, key, e.payload, e.writtenAt, e.writtenAt);
      }
    }
    forall pid | pid in s.procs ensures ProcSound(cfg, s', s.procs[pid]) {
      var p := s.procs[pid];
      match p.pc
      case Storing(payload) => BackedPersists(s.calls, more, MakeKey(p.req), payload, s.now, s'.now);
      case Releasing(payload, _) => BackedPersists(s.calls, more, MakeKey(p.req), payload, s.now, s'.now);
      case Finished(Answered(r), at) => ResponsePersists(cfg, s.calls, more, p.req, r, at);
      case _ =>
    }
  }

  lemma HitIsSound(cfg: Config, s: World, req: Request, p: Payload)
    requires Sound(cfg, s) && CacheGet(s, MakeKey(req)) == Some(p)
    ensures ResponseSound(cfg, s.calls, req, BuildResponse(p, true), s.now)
  {
    var e := s.cache[MakeKey(req)];
    assert EntrySound(cfg, s, MakeKey(req));
    assert e.writtenAt <= s.now < e.writtenAt + cfg.cacheTtl;
  }

  /** What `s'` must provide when only request `pid` moved. */
  lemma SoundMove(cfg: Config, s: World, s': World, pid: Pid, more: seq<Call>)
    requires Sound(cfg, s) && s'.calls == s.calls + more && s.now <= s'.now
    requires forall c | c in more :: Received(c.req)
    requires forall other | other in s'.procs && other != pid :: other in s.procs && s'.procs[other] == s.procs[other]
    requires pid in s'.procs ==> ProcSound(cfg, s', s'.procs[pid])
    requires forall key :: key in s'.cache ==>
               (key in s.cache && s'.cache[key] == s.cache[key]) || EntrySound(cfg, s', key)
    ensures Sound(cfg, s')
  {
    SoundGrows(cfg, s, s', more);
    forall key ensures EntrySound(cfg, s', key) {
      if key in s'.cache && key in s.cache && s'.cache[key] == s.cache[key] {
        assert EntrySound(cfg, s, key);
        var e := s.cache[key];
        BackedPersists(s.calls, more, key, e.payload, e.writtenAt, e.writtenAt);
      }
    }
  }

  /** A cache read ends in a hit, or moves to a state that carries no payload. */
  lemma ReadSound(cfg: Config, s: World, pid: Pid, c: Choice)
    requires Sound(cfg, s) && CanStep(s, pid, c) && (s.procs[pid].pc.Lookup? || s.procs[pid].pc.Polling?)
    ensures Sound(cfg, Step(cfg, s, pid, c))
  {
    var p := s.procs[pid];
    assert ProcSound(cfg, s, p);
    if CacheGet(s, MakeKey(p.req)).Some? {
      HitIsSound(cfg, s, p.req, CacheGet(s, MakeKey(p.req)).value);
    }
    assert s.calls + [] == s.calls;
    SoundMove(cfg, s, Step(cfg, s, pid, c), pid, []);
  }

  lemma StoreSound(cfg: Config, s: World, pid: Pid, c: Choice)
    requires Sound(cfg, s) && CanStep(s, pid, c) && s.procs[pid].pc.Storing?
    ensures Sound(cfg, Step(cfg, s, pid, c))
  {
    var p := s.procs[pid];
    assert ProcSound(cfg, s, p);
    assert s.calls + [] == s.calls;
    SoundMove(cfg, s, Step(cfg, s, pid, c), pid, []);
  }

  predicate Quiet(pc: Pc) {
    !pc.Lookup? && !pc.Polling? && !pc.InFlight? && !pc.Storing? && !pc.Releasing?
  }

  /** The remaining steps neither read nor write a payload. */
  lemma QuietStep(cfg: Config, s: World, pid: Pid, c: Choice)
    requires CanStep(s, pid, c) && Quiet(s.procs[pid].pc)
    ensures var s' := Step(cfg, s, pid, c);
            && s'.now == s.now && s'.calls == s.calls && s'.cache == s.cache
            && s'.procs == s.procs[pid := s'.procs[pid]] && s'.procs[pid].req == s.procs[pid].req
            && match s'.procs[pid].pc
               case Storing(_) => false
               case Releasing(_, _) => false
               case Finished(Answered(_), _) => false
               case _ => true
  {
    match s.procs[pid].pc
    case Admission =>
    case Acquiring =>
    case _ =>
  }

  lemma StepSound(cfg: Config, s: World, pid: Pid, c: Choice)
    requires Sound(cfg, s) && CanStep(s, pid, c)
    ensures Sound(cfg, Step(cfg, s, pid, c))
  {
    var pc := s.procs[pid].pc;
    if pc.Lookup? || pc.Polling? {
      ReadSound(cfg, s, pid, c);
    } else if pc.InFlight? {
      CallEndSound(cfg, s, pid, c);
    } else if pc.Storing? {
      StoreSound(cfg, s, pid, c);
    } else {
      assert ProcSound(cfg, s, s.procs[pid]);
      assert s.calls + [] == s.calls;
      if !pc.Releasing? {
        QuietStep(cfg, s, pid, c);
      }
      SoundMove(cfg, s, Step(cfg, s, pid, c), pid, []);
    }
  }

  lemma CallEndSound(cfg: Config, s: World, pid: Pid, c: Choice)
    requires Sound(cfg, s) && CanStep(s, pid, c) && s.procs[pid].pc.InFlight?
    ensures Sound(cfg, Step(cfg, s, pid, c))
  {
    var s' := Step(cfg, s, pid, c);
    var p := s.procs[pid];
    var call := s'.calls[|s.calls|];
    assert ProcSound(cfg, s, p);
    assert s'.calls == s.calls + [call] && call.req == p.req;
    if call.result.Returned? {
      PayloadShowsResult(p.req, call.result.result);
      assert Produced(s'.calls[|s.calls|], MakeKey(p.req), PayloadOf(p.req, call.result.result));
      assert Backed(s'.calls, MakeKey(p.req), PayloadOf(p.req, call.result.result), s'.now);
    }
    SoundMove(cfg, s, s', pid, [call]);
  }

  lemma NextSound(cfg: Config, s: World, e: Event)
    requires Sound(cfg, s) && Enabled(s, e)
    ensures Sound(cfg, Next(cfg, s, e))
  {
    assert s.calls + [] == s.calls;
    match e
    case Run(pid, c) => StepSound(cfg, s, pid, c);
    case Arrive(pid, req) => SoundMove(cfg, s, Next(cfg, s, e), pid, []);
    case _ => SoundGrows(cfg, s, Next(cfg, s, e), []);
  }

  /** Every reachable state is sound: each live cache entry was written by a
      successful adapter call for an equal request at most TTL ago, and each
      response comes from such an entry or from the request's own call. */
  lemma {:induction false} AlwaysSound(cfg: Config, ss: seq<World>, es: seq<Event>, n: nat)
    requires Behaviour(cfg, ss, es) && n < |ss|
    ensures Sound(cfg, ss[n])
  {
    if n > 0 {
      AlwaysSound(cfg, ss, es, n - 1);
      assert Follows(cfg, ss, es, n - 1);
      NextSound(cfg, ss[n - 1], es[n - 1]);
    }
  }

  /* ---------- deterministic adapters ---------- */

  /** `adapter` gives the result of every successful call of the log. */
  ghost predicate Gives(adapter: Request -> AdapterResult, calls: seq<Call>) {
    forall c | c in calls && c.result.Returned? :: c.result.result == adapter(c.req)
  }

  /** As far as responses show: the same output and the same token counts. */
  predicate SameAnswer(a: AdapterResult, b: AdapterResult) {
    && a.output == b.output
    && Reported(a.usage, "prompt_tokens") == Reported(b.usage, "prompt_tokens")
    && Reported(a.usage, "completion_tokens") == Reported(b.usage, "completion_tokens")
  }

  /** `adapter` gives the same answer to requests that differ only in key order
      and in how surrogate pairs are split. */
  ghost predicate AgreesOnText(adapter: Request -> AdapterResult) {
    forall r, t | Received(r) && Received(t) && SameText(r, t) :: SameAnswer(adapter(r), adapter(t))
  }

  /** `adapter` gives the same answer to equal requests. */
  ghost predicate AgreesOnValues(adapter: Request -> AdapterResult) {
    forall r, t | SameRequest(r, t) :: SameAnswer(adapter(r), adapter(t))
  }

  /** The response of a direct adapter call. */
  function Direct(adapter: Request -> AdapterResult, req: Request, cacheHit: bool): Response {
    var r := adapter(req);
    var usage := Usage(Reported(r.usage, "prompt_tokens"), Reported(r.usage, "completion_tokens"));
    Response(r.output, req.model, usage, cacheHit)
  }

  /** A response has the output of a successful call of a request with the same
      cache key, that request's model, and as its token counts the numbers which
      that call reported as "prompt_tokens" and "completion_tokens". */
  lemma ResponseHasCall(cfg: Config, ss: seq<World>, es: seq<Event>, n: nat, pid: Pid) returns (c: Call)
    requires Behaviour(cfg, ss, es) && n < |ss|
    requires pid in ss[n].procs && ss[n].procs[pid].pc.Finished? && ss[n].procs[pid].pc.outcome.Answered?
    ensures c in ss[n].calls && c.result.Returned? && Received(c.req) && Received(ss[n].procs[pid].req)
    ensures MakeKey(c.req) == MakeKey(ss[n].procs[pid].req)
    ensures var r := ss[n].procs[pid].pc.outcome.response;
            ShowsResult(c.req, c.result.result, Payload(r.output, r.model, r.usage))
  {
    AlwaysSound(cfg, ss, es, n);
    var s, p := ss[n], ss[n].procs[pid];
    var r, at := p.pc.outcome.response, p.pc.at;
    var payload := Payload(r.output, r.model, r.usage);
    assert ProcSound(cfg, s, p);
    var deadline := at;
    if r.cacheHit {
      var w: real :| w <= at < w + cfg.cacheTtl && Backed(s.calls, MakeKey(p.req), payload, w);
      deadline := w;
    }
    var i :| 0 <= i < |s.calls| && Produced(s.calls[i], MakeKey(p.req), payload) && s.calls[i].at <= deadline;
    c := s.calls[i];
  }

  /** With a deterministic adapter that agrees on requests with the same text,
      every successful response, hit, collapsed or miss, in every interleaving
      with Redis faults at any step, has output and usage of a direct adapter
      call, and the model of its request up to split surrogate pairs. */
  lemma ResponsesAreTransparent(cfg: Config, ss: seq<World>, es: seq<Event>, n: nat, pid: Pid,
                                adapter: Request -> AdapterResult)
    requires Behaviour(cfg, ss, es) && n < |ss| && Gives(adapter, ss[n].calls) && AgreesOnText(adapter)
    requires pid in ss[n].procs && ss[n].procs[pid].pc.Finished? && ss[n].procs[pid].pc.outcome.Answered?
    ensures var r, req := ss[n].procs[pid].pc.outcome.response, ss[n].procs[pid].req;
            var direct := Direct(adapter, req, r.cacheHit);
            r.output == direct.output && r.usage == direct.usage && Fuse(r.model) == Fuse(direct.model)
  {
    var req := ss[n].procs[pid].req;
    var c := ResponseHasCall(cfg, ss, es, n, pid);
    KeyDecides(c.req, req);
    assert SameAnswer(adapter(c.req), adapter(req));
    SameTextSameModel(c.req, req);
  }

  /** On valid Unicode the response is that of a direct call, up to the hit
      flag, for every deterministic adapter that agrees on equal requests. */
  lemma ResponsesAreExactInUnicode(cfg: Config, ss: seq<World>, es: seq<Event>, n: nat, pid: Pid,
                                   adapter: Request -> AdapterResult)
    requires Behaviour(cfg, ss, es) && n < |ss| && Gives(adapter, ss[n].calls) && AgreesOnValues(adapter)
    requires pid in ss[n].procs && ss[n].procs[pid].pc.Finished? && ss[n].procs[pid].pc.outcome.Answered?
    requires Unicode(ss[n].procs[pid].req) && forall c | c in ss[n].calls :: Unicode(c.req)
    ensures var r := ss[n].procs[pid].pc.outcome.response;
            r == Direct(adapter, ss[n].procs[pid].req, r.cacheHit)
  {
    var req := ss[n].procs[pid].req;
    var c := ResponseHasCall(cfg, ss, es, n, pid);
    KeyIsExactInUnicode(c.req, req);
    assert SameAnswer(adapter(c.req), adapter(req));
  }
}
