/** The SSE event generator: token frames, one terminal frame, the breaker's
    record and the audit, for every way a run can be cut short. */
module StreamingServices {
  import opened Prelude
  import opened Json
  import opened BreakerStates
  import opened CircuitBreakers
  import opened HttpAdapters
  import Runs = BreakerRuns

  datatype Frame =
    | CircuitOpenFrame(retryAfter: int)
    | TokenFrame(token: Text, index: nat)
    | DoneFrame
    | TimeoutFrame
    | UpstreamErrorFrame

  datatype Status = Cancelled | Success | TimeoutStatus | UpstreamErrorStatus | ErrorStatus

  datatype Audit = Audit(tokens: seq<Text>, status: Status)

  /** What the generator meets at a suspension point. `Interrupt` is a
      CancelledError at an `await` and a GeneratorExit at a `yield`. In the
      meantime other requests and health checks use the breaker. */
  datatype Signal = Signal(others: seq<Runs.Event>, resume: Resumption)

  datatype Resumption = Resume(now: real, disconnected: bool) | Interrupt

  /** How a run ended: returned, cancelled, abandoned at a `yield`, with an
      exception of its own, or not at all because it is still suspended. */
  datatype Exit = Returned | Interrupted | Abandoned | Raised | Parked

  datatype StreamRun = StreamRun(
    frames: seq<Frame>,
    emitted: seq<Text>,
    records: seq<Runs.Event>,
    audit: Option<Audit>,
    disconnected: bool,
    exit: Exit)

  function TokenFrames(tokens: seq<Text>): (fs: seq<Frame>)
    ensures |fs| == |tokens| && forall i | 0 <= i < |tokens| :: fs[i] == TokenFrame(tokens[i], i)
  {
    seq(|tokens|, i requires 0 <= i < |tokens| => TokenFrame(tokens[i], i))
  }

  /** The uses by others during some suspensions. */
  function Others(signals: seq<Signal>): seq<Runs.Event> {
    if signals == [] then [] else Others(signals[..|signals| - 1]) + signals[|signals| - 1].others
  }

  lemma OneMoreSignal(signals: seq<Signal>, from: nat, to: nat)
    requires from <= to < |signals|
    ensures Others(signals[from..to + 1]) == Others(signals[from..to]) + signals[to].others
  {
    assert signals[from..to + 1][..to - from] == signals[from..to];
  }

  /** Where the signal stands at which the upstream ended, after three per token. */
  function LastChunk(run: StreamRun): nat {
    1 + 3 * |run.emitted|
  }

  /** Every use of the breaker during a run that passed its probe: the probe
      after the first signal, and the record, if any, after the last chunk. */
  function BreakerUses(signals: seq<Signal>, used: nat, run: StreamRun): seq<Runs.Event>
    requires 1 <= used <= |signals| && signals[0].resume.Resume?
    requires run.records != [] ==> LastChunk(run) < used
  {
    signals[0].others + [Runs.Probe(signals[0].resume.now)] + UsesAfterProbe(signals, used, run)
  }

  function UsesAfterProbe(signals: seq<Signal>, used: nat, run: StreamRun): seq<Runs.Event>
    requires 1 <= used <= |signals|
    requires run.records != [] ==> LastChunk(run) < used
  {
    if run.records == [] then Others(signals[1..used])
    else Others(signals[1..LastChunk(run) + 1]) + (run.records + Others(signals[LastChunk(run) + 1..used]))
  }

  /** The frames after the token frames. */
  function Terminal(run: StreamRun): seq<Frame>
    requires TokenFrames(run.emitted) <= run.frames
  {
    run.frames[|run.emitted|..]
  }

  /** Either one circuit-open frame and nothing else, or consecutively numbered
      token frames followed by at most one terminal frame. */
  ghost predicate WellShaped(run: StreamRun) {
    if run.frames != [] && run.frames[0].CircuitOpenFrame?
    then |run.frames| == 1 && run.emitted == [] && run.records == [] && run.audit == None
    else
      && TokenFrames(run.emitted) <= run.frames
      && |run.records| <= 1 && (run.records != [] ==> !run.records[0].Probe?)
      && (Terminal(run) == [] || Terminal(run) == [DoneFrame] || Terminal(run) == [TimeoutFrame]
          || Terminal(run) == [UpstreamErrorFrame])
      // [DONE] exactly when one success is recorded, whatever interrupts the run
      && (Terminal(run) == [DoneFrame] <==> run.records != [] && run.records[0].Success?)
      // one failure is recorded exactly for an error frame or an exception
      && ((run.records != [] && run.records[0].Failure?) <==>
          (Terminal(run) == [TimeoutFrame] || Terminal(run) == [UpstreamErrorFrame] || run.exit == Raised))
      && (run.audit.Some? ==> AuditFits(run, run.audit.value))
  }

  /** The audited tokens are the emitted ones, but for the last when the
      consumer closes the generator at its frame; the status names the end. */
  ghost predicate AuditFits(run: StreamRun, audit: Audit)
    requires TokenFrames(run.emitted) <= run.frames
  {
    && audit.tokens <= run.emitted
    && |run.emitted| - |audit.tokens| <= (if run.exit == Abandoned && Terminal(run) == [] then 1 else 0)
    && (audit.status == Success <==> Terminal(run) == [DoneFrame])
    && (audit.status == TimeoutStatus <==> Terminal(run) == [TimeoutFrame])
    && (audit.status == UpstreamErrorStatus <==> Terminal(run) == [UpstreamErrorFrame])
    && (audit.status == ErrorStatus <==> run.exit == Raised)
  }

  /** What the run shows of the upstream: a prefix of its tokens; all of them
      and the matching end when nothing interrupts it. */
  ghost predicate Relays(run: StreamRun, upstream: Outlook) {
    && run.emitted <= upstream.tokens
    && ((run.exit == Returned || run.exit == Raised) && !run.disconnected ==>
          && run.emitted == upstream.tokens
          && match upstream.last
             case Raise(OtherError) => run.exit == Raised && run.frames == TokenFrames(run.emitted)
             case Raise(ProviderTimeout) =>
               run.exit == Returned && run.frames == TokenFrames(run.emitted) + [TimeoutFrame]
             case Raise(UpstreamError(_)) =>
               run.exit == Returned && run.frames == TokenFrames(run.emitted) + [UpstreamErrorFrame]
             case _ => run.exit == Returned && run.frames == TokenFrames(run.emitted) + [DoneFrame])
  }

  /** Lossless relay: when the upstream lines parse and complete and nothing
      interrupts the run, the consumer sees exactly the non-empty contents of
      the data lines before [DONE], numbered consecutively, and then [DONE]. */
  lemma RelayIsLossless(run: StreamRun, decode: Decoder, lines: seq<string>, ending: Ending)
    requires Relays(run, Foresee(decode, lines, ending)) && run.exit == Returned && !run.disconnected
    requires Parses(decode, DataBeforeDone(lines)) && (Terminated(lines) || ending == Eof)
    ensures var contents := Contents(decode, DataBeforeDone(lines));
            && |run.frames| == |contents| + 1 && run.frames[|contents|] == DoneFrame
            && forall i | 0 <= i < |contents| :: run.frames[i] == TokenFrame(contents[i], i)
  {
    ParserIsLossless(decode, lines, ending);
  }

  /** Nothing cut the run short: it returned or raised with its client there. */
  predicate Uninterrupted(run: StreamRun) {
    (run.exit == Returned || run.exit == Raised) && !run.disconnected
  }

  function TerminalFor(last: Chunk): seq<Frame> {
    match last
    case Raise(OtherError) => []
    case Raise(ProviderTimeout) => [TimeoutFrame]
    case Raise(UpstreamError(_)) => [UpstreamErrorFrame]
    case _ => [DoneFrame]
  }

  lemma TerminalIs(run: StreamRun, upstream: Outlook)
    requires WellShaped(run) && (run.frames == [] || !run.frames[0].CircuitOpenFrame?)
    requires Relays(run, upstream) && Uninterrupted(run)
    ensures Terminal(run) == TerminalFor(upstream.last)
    ensures run.exit == Raised <==> upstream.last == Raise(OtherError)
  {
  }

  /** The four ways to end the frames differ. */
  lemma TerminalsDiffer()
    ensures [DoneFrame] != [TimeoutFrame] && [DoneFrame] != [UpstreamErrorFrame] && [DoneFrame] != []
    ensures [TimeoutFrame] != [UpstreamErrorFrame] && [TimeoutFrame] != [] && [UpstreamErrorFrame] != []
  {
    assert [DoneFrame][0] != [TimeoutFrame][0] && [DoneFrame][0] != [UpstreamErrorFrame][0];
    assert [TimeoutFrame][0] != [UpstreamErrorFrame][0];
  }

  lemma RecordIs(run: StreamRun, last: Chunk)
    requires TokenFrames(run.emitted) <= run.frames
    requires |run.records| <= 1 && (run.records != [] ==> !run.records[0].Probe?)
    requires Terminal(run) == [DoneFrame] <==> run.records != [] && run.records[0].Success?
    requires (run.records != [] && run.records[0].Failure?) <==>
             (Terminal(run) == [TimeoutFrame] || Terminal(run) == [UpstreamErrorFrame] || run.exit == Raised)
    requires Terminal(run) == TerminalFor(last) && (run.exit == Raised <==> last == Raise(OtherError))
    ensures |run.records| == 1 && if last.Raise? then run.records[0].Failure? else run.records[0].Success?
  {
    TerminalsDiffer();
  }

  lemma TerminalTells(last: Chunk)
    ensures TerminalFor(last) == [DoneFrame] <==> !last.Raise?
    ensures TerminalFor(last) == [TimeoutFrame] <==> last == Raise(ProviderTimeout)
    ensures TerminalFor(last) == [UpstreamErrorFrame] <==> last.Raise? && last.error.UpstreamError?
    ensures TerminalFor(last) == [] <==> last == Raise(OtherError)
  {
    TerminalsDiffer();
  }

  /** The terminal frame, the record and the exit of a run tell how the response
      of the provider ended. */
  ghost predicate TellsTheEnd(run: StreamRun, decode: Decoder, lines: seq<string>, ending: Ending)
    requires TokenFrames(run.emitted) <= run.frames
  {
    var parses, open := Parses(decode, DataBeforeDone(lines)), !Terminated(lines);
    && (Terminal(run) == [DoneFrame] <==> parses && (!open || ending == Eof))
    && (Terminal(run) == [TimeoutFrame] <==> parses && open && ending == ReadTimeout)
    && (Terminal(run) == [UpstreamErrorFrame] <==> parses && open && (ending == TransportError || ending.BadStatus?))
    && (Terminal(run) == [] <==> !parses)
    && (run.exit == Raised <==> !parses)
    && |run.records| == 1
    && (if parses && (!open || ending == Eof) then run.records[0].Success? else run.records[0].Failure?)
  }

  /** The last word of the adapter's generator, for all responses. */
  lemma LastIs(decode: Decoder, lines: seq<string>, ending: Ending)
    ensures var last := Foresee(decode, lines, ending).last;
            var parses, open := Parses(decode, DataBeforeDone(lines)), !Terminated(lines);
            && (!last.Raise? <==> parses && (!open || ending == Eof))
            && (last == Raise(ProviderTimeout) <==> parses && open && ending == ReadTimeout)
            && (last.Raise? && last.error.UpstreamError? <==>
                  parses && open && (ending == TransportError || ending.BadStatus?))
            && (last == Raise(OtherError) <==> !parses)
  {
    if Parses(decode, DataBeforeDone(lines)) {
      LastWord(decode, lines, ending);
    } else {
      ParserFailsOnMalformed(decode, lines, ending);
    }
  }

  /** Whatever the response, an uninterrupted run sends [DONE] and records a
      success exactly for a complete one; it sends the timeout frame exactly for
      a read timeout and the upstream-error frame exactly for the other errors
      before [DONE], and raises exactly for a line that does not parse, with one
      recorded failure each. */
  lemma EndIsTold(run: StreamRun, decode: Decoder, lines: seq<string>, ending: Ending)
    requires WellShaped(run) && (run.frames == [] || !run.frames[0].CircuitOpenFrame?)
    requires Relays(run, Foresee(decode, lines, ending)) && Uninterrupted(run)
    ensures TellsTheEnd(run, decode, lines, ending)
  {
    var last := Foresee(decode, lines, ending).last;
    TerminalIs(run, Foresee(decode, lines, ending));
    RecordIs(run, last);
    TerminalTells(last);
    LastIs(decode, lines, ending);
  }

  /** The record comes after the last chunk, with the clock reading made there. */
  ghost predicate RecordedInTime(signals: seq<Signal>, used: nat, run: StreamRun)
    requires used <= |signals|
  {
    run.records != [] ==>
      && LastChunk(run) < used && signals[LastChunk(run)].resume.Resume?
      && run.records[0].at == signals[LastChunk(run)].resume.now
  }

  /** What a run does once its first await has returned, `log` being all uses
      of the breaker before: it is the circuit-open frame with the truncated
      retry time exactly when the circuit blocks; the breaker sees the run's
      probe and record among the uses of others; and the record carries the
      clock reading at the end of the upstream. */
  ghost predicate Probed(cfg: Settings, log: seq<Runs.Event>, after: seq<Runs.Event>, signals: seq<Signal>, used: nat,
                         run: StreamRun)
    requires signals != [] && signals[0].resume.Resume?
  {
    var b, now := Runs.Run(cfg, log + signals[0].others), signals[0].resume.now;
    && 1 <= used <= |signals|
    && (run.frames != [] && run.frames[0].CircuitOpenFrame? <==> Blocks(cfg, b, now))
    && (Blocks(cfg, b, now) ==> run.frames == [CircuitOpenFrame(RetryAfter(cfg, b, now).Floor)])
    && (run.audit.Some? <==> !Blocks(cfg, b, now) && run.exit != Parked)
    && RecordedInTime(signals, used, run)
    && after == log + BreakerUses(signals, used, run)
  }

  lemma {:induction false} OthersSplit(signals: seq<Signal>, middle: nat)
    requires middle <= |signals|
    ensures Others(signals) == Others(signals[..middle]) + Others(signals[middle..])
  {
    var n := |signals|;
    if middle == n {
      assert signals[..middle] == signals && signals[middle..] == [];
    } else {
      OthersSplit(signals[..n - 1], middle);
      assert signals[..n - 1][..middle] == signals[..middle] && signals[..n - 1][middle..] == signals[middle..n - 1];
      assert signals[middle..][..n - 1 - middle] == signals[middle..n - 1];
    }
  }

  lemma SliceOfSlice<T>(s: seq<T>, a: nat, b: nat, c: nat)
    requires a <= b <= c <= |s|
    ensures s[a..c][..b - a] == s[a..b] && s[a..c][b - a..] == s[b..c]
  {
  }

  lemma UsesAdd(signals: seq<Signal>, relayed: nat, used: nat, run: StreamRun)
    requires 1 <= relayed <= used <= |signals|
    requires run.records != [] ==> relayed == LastChunk(run) + 1
    ensures Others(signals[1..relayed]) + (run.records + Others(signals[relayed..used])) ==
            UsesAfterProbe(signals, used, run)
  {
    if run.records == [] {
      OthersSplit(signals[1..used], relayed - 1);
      SliceOfSlice(signals, 1, relayed, used);
      assert [] + Others(signals[relayed..used]) == Others(signals[relayed..used]);
    }
  }

  lemma LogAdds(log: seq<Runs.Event>, signals: seq<Signal>, relayed: nat, used: nat, run: StreamRun)
    requires 1 <= relayed <= used <= |signals|
    requires run.records != [] ==> relayed == LastChunk(run) + 1
    ensures (log + Others(signals[1..relayed])) + (run.records + Others(signals[relayed..used])) ==
            log + UsesAfterProbe(signals, used, run)
  {
    var heard, rest := Others(signals[1..relayed]), run.records + Others(signals[relayed..used]);
    UsesAdd(signals, relayed, used, run);
    assert (log + heard) + rest == log + (heard + rest);
  }

  lemma OneMoreFrame(frames: seq<Frame>, emitted: seq<Text>, token: Text)
    requires frames == TokenFrames(emitted)
    ensures frames + [TokenFrame(token, |emitted|)] == TokenFrames(emitted + [token])
  {
  }

  lemma OneMoreToken(all: Outlook, emitted: seq<Text>, token: Text, rest: Outlook)
    requires all == Outlook(emitted + ([token] + rest.tokens), rest.last)
    ensures all == Outlook((emitted + [token]) + rest.tokens, rest.last)
    ensures emitted + [token] <= all.tokens
  {
    assert emitted + ([token] + rest.tokens) == (emitted + [token]) + rest.tokens;
  }

  function StatusFor(last: Chunk): Status {
    match last
    case Raise(OtherError) => ErrorStatus
    case Raise(ProviderTimeout) => TimeoutStatus
    case Raise(UpstreamError(_)) => UpstreamErrorStatus
    case _ => Success
  }

  /** A run that met the end of the upstream. */
  predicate FinishedAs(run: StreamRun, last: Chunk, at: real) {
    && run.frames == TokenFrames(run.emitted) + TerminalFor(last) && !run.disconnected
    && run.records == [if last.End? then Runs.Success(at) else Runs.Failure(at)]
    && run.audit == (if run.exit == Parked then None else Some(Audit(run.emitted, StatusFor(last))))
    && run.exit != Interrupted && (run.exit == Raised <==> last == Raise(OtherError))
  }

  lemma TerminalAfter(run: StreamRun, rest: seq<Frame>)
    requires run.frames == TokenFrames(run.emitted) + rest
    ensures TokenFrames(run.emitted) <= run.frames && Terminal(run) == rest
    ensures run.emitted != [] ==> run.frames != [] && run.frames[0].TokenFrame?
    ensures run.emitted == [] ==> run.frames == rest
  {
  }

  lemma ShapedByTerminal(run: StreamRun, last: Chunk, at: real)
    requires FinishedAs(run, last, at) && TokenFrames(run.emitted) <= run.frames
    requires Terminal(run) == TerminalFor(last) && !last.Token?
    requires run.frames == [] || !run.frames[0].CircuitOpenFrame?
    ensures WellShaped(run)
  {
    TerminalTells(last);
    TerminalsDiffer();
  }

  lemma FinishedIsShaped(run: StreamRun, last: Chunk, at: real)
    requires FinishedAs(run, last, at) && !last.Token?
    ensures WellShaped(run) && Relays(run, Outlook(run.emitted, last))
    ensures run.frames == [] || !run.frames[0].CircuitOpenFrame?
  {
    TerminalAfter(run, TerminalFor(last));
    ShapedByTerminal(run, last, at);
  }

  /** A run that did not meet the end of the upstream. */
  predicate UnfinishedAs(run: StreamRun) {
    && run.frames == TokenFrames(run.emitted) && run.records == []
    && (run.exit == Returned || run.exit == Interrupted || run.exit == Abandoned || run.exit == Parked)
    && match run.audit
       case None => true
       case Some(audit) =>
         && audit.status == Cancelled && audit.tokens <= run.emitted
         && |run.emitted| - |audit.tokens| <= if run.exit == Abandoned then 1 else 0
  }

  lemma UnfinishedIsShaped(run: StreamRun)
    requires UnfinishedAs(run)
    ensures WellShaped(run) && (run.frames == [] || !run.frames[0].CircuitOpenFrame?)
  {
    assert run.frames == TokenFrames(run.emitted) + [];
    TerminalAfter(run, []);
    TerminalsDiffer();
  }

  /** The schedule of one run: the signals at its suspension points, in order. */
  class Schedule {
    const signals: seq<Signal>
    var next: nat

    constructor (signals: seq<Signal>)
      ensures this.signals == signals && next == 0
    {
      this.signals := signals;
      next := 0;
    }

    /** The signal that ends this suspension, if any does; other tasks have
        used the breaker by then. */
    method Suspend(cb: CircuitBreaker) returns (s: Option<Resumption>)
      requires cb.Valid() && next <= |signals|
      modifies this, cb
      ensures cb.Valid() && next == old(next) + (if s.Some? then 1 else 0) && next <= |signals|
      ensures s.Some? <==> old(next) < |signals|
      ensures s.Some? ==> s.value == signals[old(next)].resume
      ensures cb.log == old(cb.log) + if s.Some? then signals[old(next)].others else []
    {
      if next == |signals| {
        return None;
      }
      var others := signals[next].others;
      for i := 0 to |others|
        invariant cb.Valid() && cb.log == old(cb.log) + others[..i]
        invariant next == old(next)
      {
        match others[i] {
          case Probe(at) =>
            var _ := cb.IsOpen(at);
          case Failure(at) =>
            cb.RecordFailure(at);
          case Success(at) =>
            cb.RecordSuccess(at);
        }
        assert others[..i] + [others[i]] == others[..i + 1];
      }
      s := Some(signals[next].resume);
      next := next + 1;
    }
  }

  /** How the `try` body leaves its loop. */
  datatype LoopEnd = Finished(last: Chunk) | Disconnected | Cut(exit: Exit)

  /** One iteration of the loop: a token relayed and audited, a token whose frame
      is the last the consumer takes, or the end of the loop. */
  datatype Turn = Relayed(text: Text) | LastFrame(text: Text, exit: Exit) | Left(end: LoopEnd)

  predicate ResumedAt(signals: seq<Signal>, i: nat) {
    i < |signals| && signals[i].resume.Resume?
  }

  /** At position `i` the run was told whether the client is gone. */
  predicate Told(signals: seq<Signal>, i: nat, gone: bool) {
    ResumedAt(signals, i) && signals[i].resume.disconnected == gone
  }

  /** The signals from position `from` on, as one iteration met them: the next
      chunk, whether the client is gone, and the consumer's return from `yield`. */
  predicate Met(signals: seq<Signal>, from: nat, turn: Turn) {
    match turn
    case Relayed(_) => Told(signals, from + 1, false) && ResumedAt(signals, from + 2)
    case LastFrame(_, _) => Told(signals, from + 1, false) && !ResumedAt(signals, from + 2)
    case Left(Disconnected) => Told(signals, from + 1, true)
    case Left(_) => true
  }

  /** Each of the first `n` iterations was told that the client is still there,
      and was resumed from its `yield`. */
  predicate ClientStayed(signals: seq<Signal>, n: nat) {
    n == 0 || (Told(signals, 3 * n - 1, false) && ResumedAt(signals, 3 * n) && ClientStayed(signals, n - 1))
  }

  /** The loop emitted `n` tokens, each after asking; it went on after the last
      only if the consumer came back, and stopped for a client that is gone only
      when told so. */
  predicate LoopHeeds(signals: seq<Signal>, n: nat, end: LoopEnd) {
    && (n > 0 ==> Told(signals, 3 * n - 1, false) && ClientStayed(signals, n - 1))
    && (n > 0 && !ResumedAt(signals, 3 * n) ==> end == Cut(Abandoned) || end == Cut(Parked))
    && (end.Disconnected? ==> Told(signals, 3 * n + 2, true))
  }

  /** The same of a whole run: no token is emitted to a client known to be gone,
      and nothing is emitted or recorded any more once it is, or once the
      consumer has left at a `yield` of the loop. */
  ghost predicate HeedsClient(signals: seq<Signal>, run: StreamRun) {
    var n := |run.emitted|;
    && (n > 0 ==> Told(signals, 3 * n - 1, false) && ClientStayed(signals, n - 1))
    && (n > 0 && !ResumedAt(signals, 3 * n) ==>
          (run.exit == Abandoned || run.exit == Parked) && run.records == [] && run.frames == TokenFrames(run.emitted))
    && (run.disconnected ==>
          && Told(signals, 3 * n + 2, true)
          && run.exit == Returned && run.records == [] && run.frames == TokenFrames(run.emitted))
  }

  /** What one more iteration adds. */
  lemma OneMoreTurn(signals: seq<Signal>, n: nat, turn: Turn)
    requires ClientStayed(signals, n) && Met(signals, 3 * n + 1, turn)
    ensures match turn
            case Relayed(_) => ClientStayed(signals, n + 1)
            case LastFrame(_, exit) => exit == Abandoned || exit == Parked ==> LoopHeeds(signals, n + 1, Cut(exit))
            case Left(end) => LoopHeeds(signals, n, end)
  {
  }

  lemma RunHeedsClient(signals: seq<Signal>, run: StreamRun, end: LoopEnd)
    requires LoopHeeds(signals, |run.emitted|, end)
    requires run.disconnected == end.Disconnected?
    requires end.Disconnected? ==> run.exit == Returned
    requires end.Cut? ==> run.exit == end.exit
    requires !end.Finished? ==> run.records == [] && run.frames == TokenFrames(run.emitted)
    ensures HeedsClient(signals, run)
  {
  }

  /** A run that emitted nothing and did not stop for its client. */
  lemma NothingToHeed(signals: seq<Signal>, run: StreamRun)
    requires run.emitted == [] && !run.disconnected
    ensures HeedsClient(signals, run)
  {
  }

  class StreamingService {
    const cb: CircuitBreaker

    constructor (cb: CircuitBreaker)
      ensures this.cb == cb
    {
      this.cb := cb;
    }

    /** A suspension, with the uses of the breaker since position `start`. */
    method Suspend(schedule: Schedule, ghost start: nat, ghost log: seq<Runs.Event>) returns (s: Option<Resumption>)
      requires cb.Valid() && start <= schedule.next <= |schedule.signals|
      requires cb.log == log + Others(schedule.signals[start..schedule.next])
      modifies cb, schedule
      ensures cb.Valid() && schedule.next == old(schedule.next) + (if s.Some? then 1 else 0)
      ensures schedule.next <= |schedule.signals|
      ensures s.Some? <==> old(schedule.next) < |schedule.signals|
      ensures s.Some? ==> s.value == schedule.signals[old(schedule.next)].resume
      ensures cb.log == log + Others(schedule.signals[start..schedule.next])
    {
      s := schedule.Suspend(cb);
      if s.Some? {
        OneMoreSignal(schedule.signals, start, old(schedule.next));
      }
    }

    /** One iteration of the `async for` loop, up to the end of its `yield`. */
    method RelayOne(upstream: HttpStream, schedule: Schedule, ghost start: nat, ghost log: seq<Runs.Event>)
      returns (turn: Turn, at: real)
      requires cb.Valid() && upstream.Valid() && !upstream.finished && start <= schedule.next <= |schedule.signals|
      requires cb.log == log + Others(schedule.signals[start..schedule.next])
      modifies cb, upstream, schedule
      ensures cb.Valid() && old(schedule.next) <= schedule.next <= |schedule.signals|
      ensures cb.log == log + Others(schedule.signals[start..schedule.next])
      ensures Met(schedule.signals, old(schedule.next), turn)
      ensures match turn
              case Relayed(text) =>
                && upstream.Valid() && !upstream.finished && old(upstream.pos) < upstream.pos
                && schedule.next == old(schedule.next) + 3
                && old(upstream.Ahead()) == Outlook([text] + upstream.Ahead().tokens, upstream.Ahead().last)
              case LastFrame(text, exit) =>
                && (exit == Abandoned || exit == Parked)
                && upstream.Valid()
                && old(upstream.Ahead()) == Outlook([text] + upstream.Ahead().tokens, upstream.Ahead().last)
              case Left(Finished(last)) =>
                && old(upstream.Ahead()) == Outlook([], last) && !last.Token?
                && schedule.next == old(schedule.next) + 1 && ResumedAt(schedule.signals, old(schedule.next))
                && at == schedule.signals[old(schedule.next)].resume.now
              case Left(Disconnected) => true
              case Left(Cut(exit)) => exit == Interrupted || exit == Parked
    {
      at := 0.0;
      var waiting := Suspend(schedule, start, log);
      if waiting == None {
        return Left(Cut(Parked)), at;
      }
      if waiting.value == Interrupt {
        return Left(Cut(Interrupted)), at;
      }
      at := waiting.value.now;
      var chunk := upstream.Next();
      if !chunk.Token? {
        return Left(Finished(chunk)), at;
      }

      var asked := Suspend(schedule, start, log);
      if asked == None {
        return Left(Cut(Parked)), at;
      }
      if asked.value == Interrupt {
        return Left(Cut(Interrupted)), at;
      }
      if asked.value.disconnected {
        return Left(Disconnected), at;
      }

      var yielded := Suspend(schedule, start, log);
      if yielded == None {
        return LastFrame(chunk.text, Parked), at;
      }
      if yielded.value == Interrupt {
        return LastFrame(chunk.text, Abandoned), at;
      }
      return Relayed(chunk.text), at;
    }

    /** The `async for` loop: one numbered frame per chunk, until the chunks
        end, the client is gone or the run is cut short. */
    method RelayTokens(upstream: HttpStream, schedule: Schedule)
      returns (frames: seq<Frame>, emitted: seq<Text>, tokens: seq<Text>, at: real, end: LoopEnd)
      requires cb.Valid() && upstream.Valid() && !upstream.finished && schedule.next == 1 <= |schedule.signals|
      modifies cb, upstream, schedule
      ensures cb.Valid()
      ensures frames == TokenFrames(emitted)
      ensures emitted <= old(upstream.Ahead()).tokens
      ensures 1 <= schedule.next <= |schedule.signals|
      ensures cb.log == old(cb.log) + Others(schedule.signals[1..schedule.next])
      ensures LoopHeeds(schedule.signals, |emitted|, end)
      ensures match end
              case Finished(last) =>
                && tokens == emitted == old(upstream.Ahead()).tokens
                && last == old(upstream.Ahead()).last && !last.Token?
                && schedule.next == 3 * |emitted| + 2
                && schedule.signals[schedule.next - 1].resume.Resume?
                && at == schedule.signals[schedule.next - 1].resume.now
              case Disconnected => tokens == emitted
              case Cut(exit) =>
                && (exit == Interrupted || exit == Abandoned || exit == Parked)
                && tokens <= emitted && |emitted| - |tokens| <= (if exit == Interrupted then 0 else 1)
    {
      frames, emitted, tokens, at := [], [], [], 0.0;
      var index := 0;
      ghost var all := upstream.Ahead();
      ghost var log := cb.log;
      while true
        invariant upstream.Valid() && !upstream.finished
        invariant tokens == emitted && index == |tokens| && frames == TokenFrames(emitted)
        invariant all == Outlook(emitted + upstream.Ahead().tokens, upstream.Ahead().last)
        invariant schedule.next == 1 + 3 * |emitted| <= |schedule.signals|
        invariant cb.Valid() && cb.log == log + Others(schedule.signals[1..schedule.next])
        invariant ClientStayed(schedule.signals, |emitted|)
        decreases |upstream.lines| - upstream.pos
      {
        var turn;
        turn, at := RelayOne(upstream, schedule, 1, log);
        OneMoreTurn(schedule.signals, |emitted|, turn);
        if turn.Left? {
          return frames, emitted, tokens, at, turn.end;
        }
        OneMoreFrame(frames, emitted, turn.text);
        OneMoreToken(all, emitted, turn.text, upstream.Ahead());
        frames := frames + [TokenFrame(turn.text, index)];
        emitted := emitted + [turn.text];
        if turn.LastFrame? {
          return frames, emitted, tokens, at, Cut(turn.exit);
        }
        tokens := tokens + [turn.text];
        index := index + 1;
      }
    }

    /** How the consumer leaves the generator at its last `yield`. */
    method LastYield(schedule: Schedule) returns (exit: Exit)
      requires cb.Valid() && schedule.next <= |schedule.signals|
      modifies cb, schedule
      ensures cb.Valid()
      ensures exit == Returned || exit == Abandoned || exit == Parked
      ensures old(schedule.next) <= schedule.next <= |schedule.signals|
      ensures cb.log == old(cb.log) + Others(schedule.signals[old(schedule.next)..schedule.next])
    {
      var s := Suspend(schedule, schedule.next, cb.log);
      exit := if s == None then Parked else if s.value == Interrupt then Abandoned else Returned;
    }

    /** The breaker record of an end of the upstream. */
    method Record(last: Chunk, at: real) returns (record: Runs.Event)
      requires cb.Valid() && !last.Token?
      modifies cb
      ensures cb.Valid() && cb.log == old(cb.log) + [record]
      ensures record == if last.End? then Runs.Success(at) else Runs.Failure(at)
    {
      if last.End? {
        cb.RecordSuccess(at);
        record := Runs.Success(at);
      } else {
        cb.RecordFailure(at);
        record := Runs.Failure(at);
      }
    }

    /** The terminal frame, with the consumer's return from it, and the status. */
    method Terminate(schedule: Schedule, last: Chunk) returns (terminal: seq<Frame>, status: Status, exit: Exit)
      requires cb.Valid() && schedule.next <= |schedule.signals| && !last.Token?
      modifies cb, schedule
      ensures cb.Valid() && old(schedule.next) <= schedule.next <= |schedule.signals|
      ensures cb.log == old(cb.log) + Others(schedule.signals[old(schedule.next)..schedule.next])
      ensures terminal == TerminalFor(last) && status == StatusFor(last)
      ensures exit != Interrupted && (exit == Raised <==> last == Raise(OtherError))
    {
      match last {
        case Raise(OtherError) =>
          assert cb.log == cb.log + [];
          return [], ErrorStatus, Raised;
        case Raise(ProviderTimeout) =>
          terminal, status := [TimeoutFrame], TimeoutStatus;
        case Raise(UpstreamError(_)) =>
          terminal, status := [UpstreamErrorFrame], UpstreamErrorStatus;
        case End =>
          terminal, status := [DoneFrame], Success;
      }
      exit := LastYield(schedule);
    }

    /** What follows the last chunk: the record, the terminal frame and the status. */
    method Finish(schedule: Schedule, frames: seq<Frame>, emitted: seq<Text>, at: real, last: Chunk)
      returns (run: StreamRun)
      requires cb.Valid() && schedule.next <= |schedule.signals|
      requires frames == TokenFrames(emitted) && !last.Token?
      modifies cb, schedule
      ensures cb.Valid() && run.emitted == emitted && FinishedAs(run, last, at)
      ensures WellShaped(run) && Relays(run, Outlook(emitted, last))
      ensures run.frames == [] || !run.frames[0].CircuitOpenFrame?
      ensures old(schedule.next) <= schedule.next <= |schedule.signals|
      ensures cb.log == old(cb.log) + (run.records + Others(schedule.signals[old(schedule.next)..schedule.next]))
    {
      var record := Record(last, at);
      var terminal, status, exit := Terminate(schedule, last);
      var audit := if exit == Parked then None else Some(Audit(emitted, status));
      run := StreamRun(frames + terminal, emitted, [record], audit, false, exit);
      FinishedIsShaped(run, last, at);
    }

    /** The `try` block after its loop, with the `except` branches. */
    method Conclude(schedule: Schedule, frames: seq<Frame>, emitted: seq<Text>, tokens: seq<Text>, at: real,
                    end: LoopEnd)
      returns (run: StreamRun)
      requires cb.Valid() && schedule.next <= |schedule.signals|
      requires frames == TokenFrames(emitted) && tokens <= emitted
      requires match end
               case Finished(last) => tokens == emitted && !last.Token?
               case Disconnected => tokens == emitted
               case Cut(exit) =>
                 && (exit == Interrupted || exit == Abandoned || exit == Parked)
                 && |emitted| - |tokens| <= (if exit == Interrupted then 0 else 1)
      modifies cb, schedule
      ensures cb.Valid() && run.emitted == emitted && WellShaped(run)
      ensures match end
              case Finished(last) =>
                && Relays(run, Outlook(emitted, last)) && !run.disconnected
                && run.records == [if last.End? then Runs.Success(at) else Runs.Failure(at)]
              case Disconnected => run.disconnected && run.exit == Returned && run.frames == frames && run.records == []
              case Cut(exit) => run.exit == exit && !run.disconnected && run.frames == frames && run.records == []
      ensures old(schedule.next) <= schedule.next <= |schedule.signals|
      ensures cb.log == old(cb.log) + (run.records + Others(schedule.signals[old(schedule.next)..schedule.next]))
      ensures run.frames == [] || !run.frames[0].CircuitOpenFrame?
      ensures run.exit != Parked <==> run.audit.Some?
    {
      match end {
        case Finished(last) =>
          run := Finish(schedule, frames, emitted, at, last);
        case Disconnected =>
          run := StreamRun(frames, emitted, [], Some(Audit(tokens, Cancelled)), true, Returned);
          UnfinishedIsShaped(run);
        case Cut(exit) =>
          var audit := if exit == Parked then None else Some(Audit(tokens, Cancelled));
          run := StreamRun(frames, emitted, [], audit, false, exit);
          UnfinishedIsShaped(run);
      }
    }

    /** The run of a generator that passed its probe. */
    method Generate(upstream: HttpStream, schedule: Schedule) returns (run: StreamRun)
      requires cb.Valid() && upstream.Valid() && !upstream.finished && schedule.next == 1 <= |schedule.signals|
      modifies cb, upstream, schedule
      ensures cb.Valid() && WellShaped(run) && Relays(run, old(upstream.Ahead()))
      ensures HeedsClient(schedule.signals, run)
      ensures run.frames == [] || !run.frames[0].CircuitOpenFrame?
      ensures run.exit != Parked <==> run.audit.Some?
      ensures 1 <= schedule.next <= |schedule.signals| && RecordedInTime(schedule.signals, schedule.next, run)
      ensures cb.log == old(cb.log) + UsesAfterProbe(schedule.signals, schedule.next, run)
    {
      var frames, emitted, tokens, at, end := RelayTokens(upstream, schedule);
      ghost var relayed := schedule.next;
      run := Conclude(schedule, frames, emitted, tokens, at, end);
      LogAdds(old(cb.log), schedule.signals, relayed, schedule.next, run);
      RunHeedsClient(schedule.signals, run, end);
    }

    /** The answer of a circuit that is open. */
    method Refuse(schedule: Schedule, now: real) returns (run: StreamRun)
      requires cb.Valid() && schedule.next == 1 <= |schedule.signals|
      modifies cb, schedule
      ensures cb.Valid() && run.frames == [CircuitOpenFrame(RetryAfter(cb.settings, old(cb.View()), now).Floor)]
      ensures run.emitted == [] && run.records == [] && run.audit == None && !run.disconnected
      ensures 1 <= schedule.next <= |schedule.signals|
      ensures cb.log == old(cb.log) + UsesAfterProbe(schedule.signals, schedule.next, run)
    {
      var retryAfter := Truncate(cb.GetRetryAfter(now));
      var exit := LastYield(schedule);
      run := StreamRun([CircuitOpenFrame(retryAfter)], [], [], None, false, exit);
    }

    /** The breaker check and what follows it, the first await having returned. */
    method Respond(upstream: HttpStream, schedule: Schedule, ghost log: seq<Runs.Event>) returns (run: StreamRun)
      requires cb.Valid() && upstream.Valid() && !upstream.finished
      requires schedule.next == 1 && ResumedAt(schedule.signals, 0) && cb.log == log + schedule.signals[0].others
      modifies cb, upstream, schedule
      ensures cb.Valid() && WellShaped(run)
      ensures run.frames == [] || !run.frames[0].CircuitOpenFrame? ==> Relays(run, old(upstream.Ahead()))
      ensures Probed(cb.settings, log, cb.log, schedule.signals, schedule.next, run)
      ensures HeedsClient(schedule.signals, run)
    {
      var now := schedule.signals[0].resume.now;
      var isOpen := cb.IsOpen(now);
      if isOpen {
        run := Refuse(schedule, now);
        NothingToHeed(schedule.signals, run);
      } else {
        run := Generate(upstream, schedule);
      }
    }

    /** One run of the event generator, from its first suspension on. */
    method Stream(upstream: HttpStream, schedule: Schedule) returns (run: StreamRun)
      requires cb.Valid() && upstream.Valid() && !upstream.finished && schedule.next == 0
      modifies cb, upstream, schedule
      ensures cb.Valid() && WellShaped(run)
      ensures run.frames == [] || !run.frames[0].CircuitOpenFrame? ==> Relays(run, old(upstream.Ahead()))
      ensures if schedule.signals != [] && schedule.signals[0].resume.Resume?
              then Probed(cb.settings, old(cb.log), cb.log, schedule.signals, schedule.next, run)
              else run.frames == [] && run.records == [] && run.audit == None
      ensures HeedsClient(schedule.signals, run)
    {
      var first := schedule.Suspend(cb);
      if first == None || first.value == Interrupt {
        run := StreamRun([], [], [], None, false, if first == None then Parked else Interrupted);
        NothingToHeed(schedule.signals, run);
      } else {
        run := Respond(upstream, schedule, old(cb.log));
      }
    }
  }
}
