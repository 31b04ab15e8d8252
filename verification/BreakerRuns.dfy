/** Properties of the breaker over whole runs: any interleaving of probes,
    failures and successes, stamped by a clock that never runs backwards. */
module BreakerRuns {
  import opened Prelude
  import opened BreakerStates

  datatype Event = Probe(at: real) | Failure(at: real) | Success(at: real)

  function Step(cfg: Settings, b: Snapshot, e: Event): Snapshot {
    match e
    case Probe(at) => AfterProbe(cfg, b, at)
    case Failure(at) => AfterFailure(cfg, b, at)
    case Success(_) => AfterSuccess(b)
  }

  function Run(cfg: Settings, es: seq<Event>): Snapshot {
    if es == [] then FRESH else Step(cfg, Run(cfg, Front(es)), Last(es))
  }

  function Front(es: seq<Event>): seq<Event>
    requires es != []
  {
    es[..|es| - 1]
  }

  function Last(es: seq<Event>): Event
    requires es != []
  {
    es[|es| - 1]
  }

  ghost predicate Chronological(es: seq<Event>) {
    forall i, j | 0 <= i < j < |es| :: es[i].at <= es[j].at
  }

  ghost predicate NotAfter(es: seq<Event>, now: real) {
    forall i | 0 <= i < |es| :: es[i].at <= now
  }

  /* ---------- the failure history that pruning must not lose ---------- */

  /** How many events precede the part of the history that still counts:
      everything up to and including the last success that closed the circuit. */
  function Since(cfg: Settings, es: seq<Event>): (n: nat)
    ensures n <= |es|
  {
    if es == [] then 0
    else if Last(es).Success? && Run(cfg, Front(es)).state == HalfOpen then |es|
    else Since(cfg, Front(es))
  }

  /** The recorded failures, as positions in the run, that lie in
      [now - window, now] and come after the last close. Nothing is pruned here. */
  ghost function Evidence(cfg: Settings, es: seq<Event>, now: real): set<nat> {
    set k: nat | k < |es| && Since(cfg, es) <= k && es[k].Failure? && now - cfg.window <= es[k].at <= now
  }

  lemma RecentAppend(ts: seq<real>, t: real, now: real, window: real)
    ensures Recent(ts + [t], now, window) == Recent(ts, now, window) + (if now - t <= window then [t] else [])
  {
    assert (ts + [t])[..|ts|] == ts;
  }

  lemma {:induction false} RecentTwice(ts: seq<real>, earlier: real, now: real, window: real)
    requires earlier <= now
    ensures Recent(Recent(ts, earlier, window), now, window) == Recent(ts, now, window)
  {
    if ts != [] {
      var front, last := ts[..|ts| - 1], ts[|ts| - 1];
      RecentTwice(front, earlier, now, window);
      if earlier - last <= window {
        RecentAppend(Recent(front, earlier, window), last, now, window);
      } else {
        assert Recent(ts, earlier, window) == Recent(front, earlier, window);
        assert Recent(ts, now, window) == Recent(front, now, window);
      }
    }
  }

  /** What the last event does to the evidence. */
  lemma EvidenceStep(cfg: Settings, es: seq<Event>, now: real)
    requires es != [] && NotAfter(es, now)
    ensures |es| - 1 !in Evidence(cfg, Front(es), now)
    ensures Evidence(cfg, es, now) ==
            if Since(cfg, es) == |es| then {}
            else if Last(es).Failure? && now - Last(es).at <= cfg.window
            then Evidence(cfg, Front(es), now) + {|es| - 1}
            else Evidence(cfg, Front(es), now)
  {
    assert forall k: nat | k < |es| - 1 :: Front(es)[k] == es[k];
  }

  lemma FailuresStep(cfg: Settings, b: Snapshot, e: Event, now: real)
    requires e.at <= now
    ensures |Recent(Step(cfg, b, e).failures, now, cfg.window)| ==
            if e.Success? && b.state == HalfOpen then 0
            else |Recent(b.failures, now, cfg.window)| + (if e.Failure? && now - e.at <= cfg.window then 1 else 0)
  {
    if e.Failure? {
      RecentTwice(b.failures + [e.at], e.at, now, cfg.window);
      RecentAppend(b.failures, e.at, now, cfg.window);
    }
  }

  /** The pruned list still holds exactly the evidence, at every later instant. */
  lemma {:induction false} PrunedListHoldsEvidence(cfg: Settings, es: seq<Event>, now: real)
    requires NotAfter(es, now)
    ensures |Recent(Run(cfg, es).failures, now, cfg.window)| == |Evidence(cfg, es, now)|
  {
    if es == [] {
      assert Evidence(cfg, es, now) == {};
    } else {
      PrunedListHoldsEvidence(cfg, Front(es), now);
      EvidenceStep(cfg, es, now);
      FailuresStep(cfg, Run(cfg, Front(es)), Last(es), now);
    }
  }

  /** Lossless pruning: a failure opens the circuit exactly when the full
      history since the last close holds enough failures inside the window. */
  lemma OpensExactlyOnEvidence(cfg: Settings, es: seq<Event>, t: real)
    requires Chronological(es) && NotAfter(es, t)
    ensures var before, after := Run(cfg, es), Run(cfg, es + [Failure(t)]);
            if |Evidence(cfg, es + [Failure(t)], t)| >= cfg.failureThreshold
            then after.state == Open && after.openedAt == Some(t)
            else after.state == before.state && after.openedAt == before.openedAt
  {
    var longer := es + [Failure(t)];
    assert Front(longer) == es;
    PrunedListHoldsEvidence(cfg, longer, t);
    RecentTwice(Run(cfg, es).failures + [t], t, t, cfg.window);
  }

  /* ---------- the open period ---------- */

  lemma {:induction false} ClosedExactlyWhenNeverOpened(cfg: Settings, es: seq<Event>)
    ensures Run(cfg, es).state == Closed <==> Run(cfg, es).openedAt.None?
  {
    if es != [] {
      ClosedExactlyWhenNeverOpened(cfg, Front(es));
    }
  }

  /** The event at position `i` is a failure that opened, or re-opened, the circuit. */
  predicate Trips(cfg: Settings, es: seq<Event>, i: nat)
    requires i < |es|
  {
    es[i].Failure? && Run(cfg, es[..i + 1]).state == Open && Run(cfg, es[..i + 1]).openedAt == Some(es[i].at)
  }

  lemma {:induction false} StaysOpen(cfg: Settings, es: seq<Event>, i: nat)
    requires Chronological(es) && i < |es| && Trips(cfg, es, i)
    requires forall m | i < m < |es| :: es[m].at < es[i].at + cfg.recoveryTimeout
    ensures Run(cfg, es).state == Open
    ensures Run(cfg, es).openedAt.Some? && es[i].at <= Run(cfg, es).openedAt.value
  {
    if |es| == i + 1 {
      assert es[..i + 1] == es;
    } else {
      var front := Front(es);
      assert front[..i + 1] == es[..i + 1];
      StaysOpen(cfg, front, i);
    }
  }

  /** Open-period safety: after a trip at time t every query before
      t + recovery is refused, whatever else is recorded in between. */
  lemma {:induction false} OpenPeriodSafety(cfg: Settings, es: seq<Event>, i: nat, now: real)
    requires Chronological(es) && NotAfter(es, now) && i < |es| && Trips(cfg, es, i)
    requires now < es[i].at + cfg.recoveryTimeout
    ensures Run(cfg, es).state == Open && Blocks(cfg, Run(cfg, es), now)
  {
    StaysOpen(cfg, es, i);
  }

  /* ---------- the two queries agree ---------- */

  lemma {:induction false} HalfOpenOnlyAfterRecovery(cfg: Settings, es: seq<Event>, now: real)
    requires Chronological(es) && NotAfter(es, now)
    ensures var b := Run(cfg, es);
            && (b.state == Closed <==> b.openedAt.None?)
            && (b.state == HalfOpen ==> RecoveryElapsed(cfg, b, now))
            && (b.openedAt.Some? ==> b.openedAt.value <= now)
  {
    if es != [] {
      HalfOpenOnlyAfterRecovery(cfg, Front(es), Last(es).at);
    }
  }

  lemma {:induction false} QueriesAgree(cfg: Settings, es: seq<Event>, now: real)
    requires Chronological(es) && NotAfter(es, now)
    ensures var b := Run(cfg, es);
            && (Blocks(cfg, b, now) <==> RetryAfter(cfg, b, now) > 0.0)
            && 0.0 <= RetryAfter(cfg, b, now) <= Max(0.0, cfg.recoveryTimeout)
  {
    HalfOpenOnlyAfterRecovery(cfg, es, now);
  }

  ghost predicate NoFailure(es: seq<Event>) {
    forall i | 0 <= i < |es| :: !es[i].Failure?
  }

  /** Without a new failure an open circuit keeps its opening time until the
      recovery timeout has elapsed. */
  lemma {:induction false} WaitKeepsOpeningTime(cfg: Settings, es: seq<Event>, more: seq<Event>, now: real)
    requires Chronological(es + more) && NotAfter(es + more, now) && NoFailure(more)
    ensures var b, later := Run(cfg, es), Run(cfg, es + more);
            Blocks(cfg, later, now) ==> Blocks(cfg, b, now) && later == b
    ensures var b, later := Run(cfg, es), Run(cfg, es + more);
            Blocks(cfg, b, now) ==> later == b
  {
    if more == [] {
      assert es + more == es;
    } else {
      var front := Front(more);
      assert Front(es + more) == es + front;
      assert Last(es + more) == Last(more);
      forall i | 0 <= i < |es + front| ensures (es + front)[i].at <= now {
        assert (es + front)[i] == (es + more)[i];
      }
      forall i, j | 0 <= i < j < |es + front| ensures (es + front)[i].at <= (es + front)[j].at {
        assert (es + front)[i] == (es + more)[i] && (es + front)[j] == (es + more)[j];
      }
      assert (es + more)[|es + more| - 1].at <= now;
      WaitKeepsOpeningTime(cfg, es, front, now);
    }
  }

  lemma TripOfFront(cfg: Settings, es: seq<Event>, k: nat)
    requires k < |es| - 1
    ensures Trips(cfg, Front(es), k) <==> Trips(cfg, es, k)
  {
    assert Front(es)[..k + 1] == es[..k + 1];
  }

  lemma TripAtEnd(cfg: Settings, es: seq<Event>)
    requires es != []
    ensures Trips(cfg, es, |es| - 1) <==>
            Last(es).Failure? && Run(cfg, es).state == Open && Run(cfg, es).openedAt == Some(Last(es).at)
  {
    assert es[..|es|] == es;
  }

  /** A circuit that is OPEN and was not after `start` events has the opening
      time of a trip since then. */
  lemma {:induction false} LastTrip(cfg: Settings, es: seq<Event>, start: nat) returns (k: nat)
    requires start <= |es| && Run(cfg, es[..start]).state != Open && Run(cfg, es).state == Open
    ensures start <= k < |es| && Trips(cfg, es, k) && Run(cfg, es).openedAt == Some(es[k].at)
  {
    assert es[..|es|] == es;
    TripAtEnd(cfg, es);
    if Trips(cfg, es, |es| - 1) {
      k := |es| - 1;
    } else {
      assert Front(es)[..start] == es[..start];
      k := LastTrip(cfg, Front(es), start);
      TripOfFront(cfg, es, k);
    }
  }

  /** The event of `more` at `i` trips the circuit, less than the recovery timeout ago. */
  ghost predicate RecentTrip(cfg: Settings, es: seq<Event>, more: seq<Event>, now: real, i: nat) {
    i < |more| && Trips(cfg, es + more, |es| + i) && now < more[i].at + cfg.recoveryTimeout
  }

  lemma TripBehindBlock(cfg: Settings, es: seq<Event>, more: seq<Event>, now: real) returns (i: nat)
    requires Run(cfg, es).state != Open && Blocks(cfg, Run(cfg, es + more), now)
    ensures RecentTrip(cfg, es, more, now, i)
  {
    assert (es + more)[..|es|] == es;
    var k := LastTrip(cfg, es + more, |es|);
    i := k - |es|;
    assert (es + more)[k] == more[i];
  }

  lemma BlockBehindTrip(cfg: Settings, es: seq<Event>, more: seq<Event>, now: real, i: nat)
    requires Chronological(es + more) && NotAfter(es + more, now) && RecentTrip(cfg, es, more, now, i)
    ensures Blocks(cfg, Run(cfg, es + more), now)
  {
    assert (es + more)[|es| + i] == more[i];
    OpenPeriodSafety(cfg, es + more, |es| + i, now);
  }

  /** From any state but OPEN, HALF_OPEN among them, a query is refused exactly
      when a later failure tripped the circuit less than the recovery timeout
      ago. So HALF_OPEN lets every caller through, failures or not, until one
      of them trips. */
  lemma BlocksExactlyAfterTrip(cfg: Settings, es: seq<Event>, more: seq<Event>, now: real)
    requires Chronological(es + more) && NotAfter(es + more, now) && Run(cfg, es).state != Open
    ensures Blocks(cfg, Run(cfg, es + more), now) <==> exists i :: RecentTrip(cfg, es, more, now, i)
  {
    if Blocks(cfg, Run(cfg, es + more), now) {
      var i := TripBehindBlock(cfg, es, more, now);
    } else {
      forall i ensures !RecentTrip(cfg, es, more, now, i) {
        if RecentTrip(cfg, es, more, now, i) {
          BlockBehindTrip(cfg, es, more, now, i);
        }
      }
    }
  }

  /** As long as no failure is recorded in HALF_OPEN, only a success changes the state. */
  lemma {:induction false} HalfOpenAdmitsEveryCaller(cfg: Settings, es: seq<Event>, more: seq<Event>, now: real)
    requires Run(cfg, es).state == HalfOpen && NoFailure(more)
    ensures var b := Run(cfg, es + more);
            && !Blocks(cfg, b, now)
            && (b == Run(cfg, es) || b == FRESH)
            && (b == FRESH <==> exists i | 0 <= i < |more| :: more[i].Success?)
  {
    if more == [] {
      assert es + more == es;
    } else {
      assert Front(es + more) == es + Front(more) && Last(es + more) == Last(more);
      HalfOpenAdmitsEveryCaller(cfg, es, Front(more), now);
      assert more[|more| - 1] == Last(more);
    }
  }

  /** The reported retry time is exact: with no further failure the circuit
      refuses at every instant before it has passed and at none afterwards. */
  lemma RetryTimeIsExact(cfg: Settings, es: seq<Event>, asked: real, more: seq<Event>, now: real)
    requires Chronological(es + more) && NotAfter(es + more, now) && NotAfter(es, asked) && asked <= now
    requires NoFailure(more)
    ensures Blocks(cfg, Run(cfg, es + more), now) <==> now < asked + RetryAfter(cfg, Run(cfg, es), asked)
  {
    forall i, j | 0 <= i < j < |es| ensures es[i].at <= es[j].at {
      assert es[i] == (es + more)[i] && es[j] == (es + more)[j];
    }
    WaitKeepsOpeningTime(cfg, es, more, now);
    HalfOpenOnlyAfterRecovery(cfg, es, asked);
  }

  lemma BlocksUntilRetry(cfg: Settings, es: seq<Event>, asked: real, now: real)
    requires Chronological(es) && NotAfter(es, asked) && asked <= now
    ensures Blocks(cfg, Run(cfg, es), now) <==> now < asked + RetryAfter(cfg, Run(cfg, es), asked)
  {
    assert es + [] == es;
    RetryTimeIsExact(cfg, es, asked, [], now);
  }

  /** The header sent to clients is the floor of that time: waiting it out is
      enough exactly when the remaining time was a whole number of seconds. */
  lemma {:induction false} TruncatedRetrySufficesExactlyWhenWhole(cfg: Settings, es: seq<Event>, asked: real)
    requires Chronological(es) && NotAfter(es, asked)
    ensures var retry := RetryAfter(cfg, Run(cfg, es), asked);
            retry >= 0.0 &&
            var header := Truncate(retry) as real;
            !Blocks(cfg, Run(cfg, es), asked + header) <==> header == retry
  {
    var retry := RetryAfter(cfg, Run(cfg, es), asked);
    assert Truncate(retry) as real <= retry;
    BlocksUntilRetry(cfg, es, asked, asked + Truncate(retry) as real);
  }

  /* ---------- counting the evidence ---------- */

  /** The event at position `j` took the circuit into OPEN from another state. */
  predicate Entry(cfg: Settings, es: seq<Event>, j: nat)
    requires j < |es|
  {
    Run(cfg, es[..j]).state != Open && Run(cfg, es[..j + 1]).state == Open
  }

  function Entries(cfg: Settings, es: seq<Event>): nat {
    if es == [] then 0 else Entries(cfg, Front(es)) + (if Entry(cfg, es, |es| - 1) then 1 else 0)
  }

  function Failures(es: seq<Event>): nat {
    if es == [] then 0 else Failures(Front(es)) + (if Last(es).Failure? then 1 else 0)
  }

  lemma {:induction false} OpenPeriodIsRemembered(cfg: Settings, es: seq<Event>, i: nat)
    requires Chronological(es) && i < |es| && Entry(cfg, es, i) && Since(cfg, es) <= i
    ensures var b := Run(cfg, es); b.openedAt.Some? && es[i].at <= b.openedAt.value
  {
    var front := Front(es);
    if |es| == i + 1 {
      assert es[..i] == front && es[..i + 1] == es;
    } else {
      assert front[..i] == es[..i] && front[..i + 1] == es[..i + 1];
      OpenPeriodIsRemembered(cfg, front, i);
    }
  }

  /** When recovery takes longer than the window, every failure that justifies
      an entry into OPEN was recorded after all earlier entries. */
  lemma EvidenceIsFresh(cfg: Settings, es: seq<Event>, i: nat)
    requires Chronological(es) && cfg.recoveryTimeout > cfg.window
    requires i < |es| - 1 && Entry(cfg, es, i) && Entry(cfg, es, |es| - 1)
    ensures forall k | k in Evidence(cfg, es, Last(es).at) :: k > i
  {
    var front, now := Front(es), Last(es).at;
    if Since(cfg, es) <= i {
      assert front[..i] == es[..i] && front[..i + 1] == es[..i + 1];
      assert es[..|es| - 1] == front && es[..|es|] == es;
      OpenPeriodIsRemembered(cfg, front, i);
      HalfOpenOnlyAfterRecovery(cfg, front, now);
    }
  }

  /** The evidence behind all the entries of a run. */
  ghost function Used(cfg: Settings, es: seq<Event>): set<nat> {
    if es == [] then {}
    else Used(cfg, Front(es)) + (if Entry(cfg, es, |es| - 1) then Evidence(cfg, es, Last(es).at) else {})
  }

  lemma {:induction false} UsedIsEarlierEvidence(cfg: Settings, es: seq<Event>)
    ensures forall k | k in Used(cfg, es) :: k < |es| && es[k].Failure?
    ensures forall k | k in Used(cfg, es) :: exists i: nat :: k <= i < |es| && Entry(cfg, es, i)
  {
    if es != [] {
      var front := Front(es);
      UsedIsEarlierEvidence(cfg, front);
      forall k | k in Used(cfg, es)
        ensures exists i: nat :: k <= i < |es| && Entry(cfg, es, i)
      {
        if k in Used(cfg, front) {
          var i: nat :| k <= i < |front| && Entry(cfg, front, i);
          assert front[..i] == es[..i] && front[..i + 1] == es[..i + 1];
          assert Entry(cfg, es, i);
        } else {
          assert Entry(cfg, es, |es| - 1);
        }
      }
    }
  }

  lemma EntryHasEvidence(cfg: Settings, es: seq<Event>)
    requires Chronological(es) && es != [] && Entry(cfg, es, |es| - 1)
    ensures Last(es).Failure? && |Evidence(cfg, es, Last(es).at)| >= cfg.failureThreshold
  {
    assert es[..|es| - 1] == Front(es) && es[..|es|] == es == Front(es) + [Last(es)];
    if Last(es).Failure? {
      OpensExactlyOnEvidence(cfg, Front(es), Last(es).at);
    }
  }

  lemma UsedIsDisjointFromNewEvidence(cfg: Settings, es: seq<Event>)
    requires Chronological(es) && cfg.recoveryTimeout > cfg.window
    requires es != [] && Entry(cfg, es, |es| - 1)
    ensures Used(cfg, Front(es)) !! Evidence(cfg, es, Last(es).at)
  {
    UsedIsEarlierEvidence(cfg, Front(es));
    forall k | k in Used(cfg, Front(es)) ensures k !in Evidence(cfg, es, Last(es).at) {
      var i: nat :| k <= i < |es| - 1 && Entry(cfg, Front(es), i);
      EntryOfFront(cfg, es, i);
      EvidenceIsFresh(cfg, es, i);
    }
  }

  lemma EntryOfFront(cfg: Settings, es: seq<Event>, i: nat)
    requires i < |es| - 1
    ensures Entry(cfg, Front(es), i) <==> Entry(cfg, es, i)
  {
    assert Front(es)[..i] == es[..i] && Front(es)[..i + 1] == es[..i + 1];
  }

  lemma CardinalityOfUnion(a: set<nat>, b: set<nat>)
    requires a !! b
    ensures |a + b| == |a| + |b|
  {
  }

  /** `threshold` added up once for every entry. */
  function Needed(entries: nat, threshold: int): int {
    if entries == 0 then 0 else Needed(entries - 1, threshold) + threshold
  }

  lemma {:induction false} NeededIsProduct(entries: nat, threshold: int)
    ensures Needed(entries, threshold) == entries * threshold
  {
    if entries > 0 {
      NeededIsProduct(entries - 1, threshold);
      assert entries * threshold == (entries - 1) * threshold + threshold;
    }
  }

  lemma NeededStep(entries: nat, threshold: int)
    ensures Needed(entries + 1, threshold) == Needed(entries, threshold) + threshold
  {
  }

  /** An entry adds one, and at least `threshold` failures of its own. */
  lemma UsedGrows(cfg: Settings, es: seq<Event>)
    requires Chronological(es) && cfg.recoveryTimeout > cfg.window && es != []
    ensures || (Entries(cfg, es) == Entries(cfg, Front(es)) && |Used(cfg, es)| == |Used(cfg, Front(es))|)
            || (Entries(cfg, es) == Entries(cfg, Front(es)) + 1
                && |Used(cfg, es)| >= |Used(cfg, Front(es))| + cfg.failureThreshold)
  {
    if Entry(cfg, es, |es| - 1) {
      EntryHasEvidence(cfg, es);
      UsedIsDisjointFromNewEvidence(cfg, es);
      CardinalityOfUnion(Used(cfg, Front(es)), Evidence(cfg, es, Last(es).at));
    } else {
      assert Used(cfg, es) == Used(cfg, Front(es));
    }
  }

  lemma FrontIsChronological(es: seq<Event>)
    requires Chronological(es) && es != []
    ensures Chronological(Front(es))
  {
  }

  lemma {:induction false} UsedIsLarge(cfg: Settings, es: seq<Event>)
    requires Chronological(es) && cfg.recoveryTimeout > cfg.window
    ensures |Used(cfg, es)| >= Needed(Entries(cfg, es), cfg.failureThreshold)
  {
    if es != [] {
      FrontIsChronological(es);
      UsedIsLarge(cfg, Front(es));
      UsedGrows(cfg, es);
      NeededStep(Entries(cfg, Front(es)), cfg.failureThreshold);
    }
  }

  lemma {:induction false} FailuresBoundPositions(es: seq<Event>, ks: set<nat>)
    requires forall k | k in ks :: k < |es| && es[k].Failure?
    ensures |ks| <= Failures(es)
  {
    if es == [] {
      assert ks == {};
    } else {
      var n := |es| - 1;
      FailuresBoundPositions(Front(es), ks - {n});
      assert |ks| <= |ks - {n}| + 1;
    }
  }

  /** Over any run, entries into OPEN times the threshold never exceed the
      failures recorded (the defaults have recovery 60 and window 30). */
  lemma EvidenceCounting(cfg: Settings, es: seq<Event>)
    requires Chronological(es) && cfg.recoveryTimeout > cfg.window
    ensures Entries(cfg, es) * cfg.failureThreshold <= Failures(es)
  {
    UsedIsLarge(cfg, es);
    NeededIsProduct(Entries(cfg, es), cfg.failureThreshold);
    UsedIsEarlierEvidence(cfg, es);
    FailuresBoundPositions(es, Used(cfg, es));
  }

  /* ---------- exactly which settings bound the entries ---------- */

  ghost predicate BoundsEntries(cfg: Settings) {
    forall es | Chronological(es) :: Entries(cfg, es) * cfg.failureThreshold <= Failures(es)
  }

  lemma {:induction false} EntriesAreFailures(cfg: Settings, es: seq<Event>)
    requires Chronological(es)
    ensures Entries(cfg, es) <= Failures(es)
    ensures cfg.window < 0.0 && cfg.failureThreshold > 0 ==> Entries(cfg, es) == 0
  {
    if es != [] {
      EntriesAreFailures(cfg, Front(es));
      if Entry(cfg, es, |es| - 1) {
        EntryHasEvidence(cfg, es);
        if cfg.window < 0.0 {
          assert Evidence(cfg, es, Last(es).at) == {};
        }
      }
    }
  }

  /** Behind a negative window no failure counts, so no positive threshold is met. */
  lemma {:induction false} OpeningNeedsWindow(cfg: Settings, es: seq<Event>)
    requires Chronological(es) && Run(cfg, es).state != Closed
    ensures cfg.failureThreshold <= 0 || 0.0 <= cfg.window
  {
    if Run(cfg, Front(es)).state != Closed {
      OpeningNeedsWindow(cfg, Front(es));
    } else {
      assert es[..|es| - 1] == Front(es) && es[..|es|] == es;
      EntryHasEvidence(cfg, es);
      if cfg.window < 0.0 {
        assert Evidence(cfg, es, Last(es).at) == {};
      }
    }
  }

  lemma {:induction false} RecentKeepsAll(ts: seq<real>, now: real, window: real)
    requires forall i | 0 <= i < |ts| :: now - ts[i] <= window
    ensures Recent(ts, now, window) == ts
  {
    if ts != [] {
      RecentKeepsAll(ts[..|ts| - 1], now, window);
    }
  }

  function Burst(n: nat): (es: seq<Event>)
    ensures |es| == n && forall i | 0 <= i < n :: es[i] == Failure(0.0)
  {
    if n == 0 then [] else Burst(n - 1) + [Failure(0.0)]
  }

  lemma OneMoreEvent(cfg: Settings, es: seq<Event>, e: Event)
    ensures var b := Run(cfg, es);
            && Run(cfg, es + [e]) == Step(cfg, b, e)
            && Entries(cfg, es + [e]) ==
               Entries(cfg, es) + (if b.state != Open && Step(cfg, b, e).state == Open then 1 else 0)
            && Failures(es + [e]) == Failures(es) + (if e.Failure? then 1 else 0)
  {
    var longer := es + [e];
    assert Front(longer) == es;
    assert longer[..|es|] == es && longer[..|es| + 1] == longer;
  }

  /** The breaker's state after `n` failures at time 0, none of them pruned. */
  ghost predicate AfterBurst(cfg: Settings, n: nat, b: Snapshot) {
    && |b.failures| == n
    && (forall i | 0 <= i < n :: b.failures[i] == 0.0)
    && if n < cfg.failureThreshold then b.state == Closed else b.state == Open && b.openedAt == Some(0.0)
  }

  lemma FailureExtendsBurst(cfg: Settings, n: nat, b: Snapshot)
    requires n < cfg.failureThreshold && 0.0 <= cfg.window && AfterBurst(cfg, n, b)
    ensures AfterBurst(cfg, n + 1, AfterFailure(cfg, b, 0.0))
  {
    RecentKeepsAll(b.failures + [0.0], 0.0, cfg.window);
  }

  ghost predicate IsBurst(cfg: Settings, n: nat, es: seq<Event>) {
    && AfterBurst(cfg, n, Run(cfg, es))
    && Entries(cfg, es) == (if n < cfg.failureThreshold then 0 else 1)
    && Failures(es) == n
  }

  lemma LongerBurst(cfg: Settings, n: nat, es: seq<Event>)
    requires n < cfg.failureThreshold && 0.0 <= cfg.window && IsBurst(cfg, n, es)
    ensures IsBurst(cfg, n + 1, es + [Failure(0.0)])
  {
    OneMoreEvent(cfg, es, Failure(0.0));
    FailureExtendsBurst(cfg, n, Run(cfg, es));
  }

  lemma {:induction false} BurstRun(cfg: Settings, n: nat)
    requires 0 < cfg.failureThreshold && n <= cfg.failureThreshold && 0.0 <= cfg.window
    ensures IsBurst(cfg, n, Burst(n))
  {
    if n > 0 {
      BurstRun(cfg, n - 1);
      LongerBurst(cfg, n - 1, Burst(n - 1));
    }
  }

  lemma ProbeThenFailureReopens(cfg: Settings, b: Snapshot, p: real)
    requires 0.0 <= p <= cfg.window && cfg.recoveryTimeout <= p
    requires 0 < cfg.failureThreshold && AfterBurst(cfg, cfg.failureThreshold, b)
    ensures AfterProbe(cfg, b, p).state == HalfOpen
    ensures AfterFailure(cfg, AfterProbe(cfg, b, p), p).state == Open
  {
    RecentKeepsAll(b.failures + [p], p, cfg.window);
  }

  /** A burst opens the circuit; one failure in HALF_OPEN, counted together
      with the old burst, opens it again. */
  lemma ShortRecoveryReusesEvidence(cfg: Settings) returns (es: seq<Event>)
    requires 2 <= cfg.failureThreshold && 0.0 <= cfg.window && cfg.recoveryTimeout <= cfg.window
    ensures Chronological(es) && Entries(cfg, es) * cfg.failureThreshold > Failures(es)
  {
    var n := cfg.failureThreshold;
    var p := Max(0.0, cfg.recoveryTimeout);
    var burst := Burst(n);
    BurstRun(cfg, n);
    ProbeThenFailureReopens(cfg, Run(cfg, burst), p);
    OneMoreEvent(cfg, burst, Probe(p));
    OneMoreEvent(cfg, burst + [Probe(p)], Failure(p));
    es := burst + [Probe(p)] + [Failure(p)];
    assert Entries(cfg, es) == 2 && Failures(es) == n + 1;
  }

  /** The bound of `EvidenceCounting` holds of every run exactly for these settings. */
  lemma EvidenceCountingExactly(cfg: Settings)
    ensures BoundsEntries(cfg) <==>
            cfg.failureThreshold <= 1 || cfg.window < 0.0 || cfg.recoveryTimeout > cfg.window
  {
    if cfg.failureThreshold <= 1 || cfg.window < 0.0 || cfg.recoveryTimeout > cfg.window {
      forall es | Chronological(es) ensures Entries(cfg, es) * cfg.failureThreshold <= Failures(es) {
        if cfg.recoveryTimeout > cfg.window {
          EvidenceCounting(cfg, es);
        } else {
          EntriesAreFailures(cfg, es);
          SmallFactor(Entries(cfg, es), cfg.failureThreshold, Failures(es));
        }
      }
    } else {
      var es := ShortRecoveryReusesEvidence(cfg);
    }
  }

  lemma SmallFactor(n: nat, k: int, bound: nat)
    requires n <= bound && (k <= 1 || n == 0)
    ensures n * k <= bound
  {
    if k <= 0 {
      assert n * k <= 0;
    }
  }

  /* ---------- fractional retry times ---------- */

  /** Some run opens the circuit at time 0, for all settings under which it can open. */
  lemma OpensAtZero(cfg: Settings) returns (es: seq<Event>)
    requires cfg.failureThreshold <= 0 || 0.0 <= cfg.window
    ensures Chronological(es) && NotAfter(es, 0.0)
    ensures Run(cfg, es).state == Open && Run(cfg, es).openedAt == Some(0.0)
  {
    if cfg.failureThreshold <= 0 {
      es := [Failure(0.0)];
      OneMoreEvent(cfg, [], Failure(0.0));
      assert [] + [Failure(0.0)] == es;
    } else {
      es := Burst(cfg.failureThreshold);
      BurstRun(cfg, cfg.failureThreshold);
    }
  }

  /** The Retry-After header does come too early: for all settings under which
      the circuit can block, at some time it blocks with a header below the
      real retry time. */
  lemma FractionalRetryIsReached(cfg: Settings) returns (es: seq<Event>, asked: real)
    requires 0.0 < cfg.recoveryTimeout && (cfg.failureThreshold <= 0 || 0.0 <= cfg.window)
    ensures Chronological(es) && NotAfter(es, asked) && Blocks(cfg, Run(cfg, es), asked)
    ensures 0.0 < RetryAfter(cfg, Run(cfg, es), asked) < 1.0
    ensures Blocks(cfg, Run(cfg, es), asked + Truncate(RetryAfter(cfg, Run(cfg, es), asked)) as real)
  {
    es := OpensAtZero(cfg);
    asked := if cfg.recoveryTimeout < 1.0 then 0.0 else cfg.recoveryTimeout - 0.5;
  }

  /* ---------- a failure in HALF_OPEN ---------- */

  lemma NothingRecent(ts: seq<real>, now: real, window: real)
    requires forall i | 0 <= i < |ts| :: now - ts[i] > window
    ensures Recent(ts, now, window) == []
  {
    if ts != [] {
      NothingRecent(ts[..|ts| - 1], now, window);
    }
  }

  lemma LateFailureStaysHalfOpen(cfg: Settings, b: Snapshot, now: real)
    requires 2 <= cfg.failureThreshold && 0.0 <= cfg.window < now && cfg.recoveryTimeout <= now
    requires AfterBurst(cfg, cfg.failureThreshold, b)
    ensures AfterProbe(cfg, b, now).state == HalfOpen
    ensures AfterFailure(cfg, AfterProbe(cfg, b, now), now).state == HalfOpen
  {
    NothingRecent(b.failures, now, cfg.window);
    RecentAppend(b.failures, now, now, cfg.window);
  }

  /** The last event is a failure that finds the circuit HALF_OPEN and leaves it there. */
  ghost predicate FailureKeepsHalfOpen(cfg: Settings, es: seq<Event>) {
    && es != [] && Last(es).Failure?
    && Run(cfg, Front(es)).state == HalfOpen && Run(cfg, es).state == HalfOpen
  }

  /** HALF_OPEN does outlast a failure, with every caller still let through: for
      all thresholds of at least two and windows that are not negative, a run of
      failures, a late probe and a failed call. */
  lemma HalfOpenOutlastsFailure(cfg: Settings) returns (es: seq<Event>)
    requires 2 <= cfg.failureThreshold && 0.0 <= cfg.window
    ensures Chronological(es) && FailureKeepsHalfOpen(cfg, es)
    ensures forall now :: !Blocks(cfg, Run(cfg, es), now)
  {
    var burst, now := Burst(cfg.failureThreshold), Max(cfg.recoveryTimeout, cfg.window + 1.0);
    BurstRun(cfg, cfg.failureThreshold);
    OneMoreEvent(cfg, burst, Probe(now));
    OneMoreEvent(cfg, burst + [Probe(now)], Failure(now));
    LateFailureStaysHalfOpen(cfg, Run(cfg, burst), now);
    es := burst + [Probe(now)] + [Failure(now)];
    assert Front(es) == burst + [Probe(now)];
  }

  /** A failure in HALF_OPEN leaves the circuit there in some run exactly for these settings. */
  lemma HalfOpenOutlastsFailureExactly(cfg: Settings)
    ensures (exists es :: Chronological(es) && FailureKeepsHalfOpen(cfg, es)) <==>
            2 <= cfg.failureThreshold && 0.0 <= cfg.window
  {
    forall es | Chronological(es) && FailureKeepsHalfOpen(cfg, es)
      ensures 2 <= cfg.failureThreshold && 0.0 <= cfg.window
    {
      OpeningNeedsWindow(cfg, es);
      RecentAppend(Run(cfg, Front(es)).failures, Last(es).at, Last(es).at, cfg.window);
    }
    if 2 <= cfg.failureThreshold && 0.0 <= cfg.window {
      var es := HalfOpenOutlastsFailure(cfg);
    }
  }
}
