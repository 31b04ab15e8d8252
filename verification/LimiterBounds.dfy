/** How far window safety reaches: no window longer than 60 - d is safe, and
    timestamps in order give nothing at all unless the key is renewed. */
module LimiterBounds {
  import opened SortedSets
  import opened RateLimiters
  import opened LimiterInterleaving

  /** All the accepted checks at `ks` fit in a window of that length, and exceed
      the limit. */
  ghost predicate Overfull(limit: int, es: seq<Event>, ks: set<nat>, length: real) {
    && Pipelines(es, ks) && (forall k | k in ks :: Accepted(limit, es, k))
    && FitIn(es, ks, length) && |ks| > limit
  }

  /* ---------- many checks at two instants ---------- */

  /** When the checks of a crowd come: `limit` at 0 and the rest at 30. */
  function Score(limit: nat, k: nat): real {
    if k < limit then 0.0 else 30.0
  }

  function Crowd(limit: nat, n: nat): (es: seq<Event>)
    ensures |es| == n && forall k | 0 <= k < n :: es[k] == Pipeline(Score(limit, k), k, Score(limit, k), false)
  {
    seq(n, k requires 0 <= k < n => Pipeline(Score(limit, k), k, Score(limit, k), false))
  }

  function CrowdScores(limit: nat, n: nat): Scores {
    map m: nat | m < n :: Score(limit, m)
  }

  lemma {:induction false} CrowdSize(limit: nat, n: nat)
    ensures |CrowdScores(limit, n)| == n
  {
    if n == 0 {
      assert CrowdScores(limit, n) == map[];
    } else {
      CrowdSize(limit, n - 1);
      assert CrowdScores(limit, n) == CrowdScores(limit, n - 1)[n - 1 := Score(limit, n - 1)];
    }
  }

  /** Nothing is pruned yet. */
  lemma {:induction false} CrowdRun(limit: nat, n: nat)
    ensures Run(Crowd(limit, n)).scores == CrowdScores(limit, n)
    ensures n > 0 ==> Run(Crowd(limit, n)).expireAt == Score(limit, n - 1) + WINDOW
  {
    if n == 0 {
      assert Crowd(limit, n) == [];
      assert CrowdScores(limit, n) == map[];
    } else {
      var es := Crowd(limit, n);
      assert es[..n - 1] == Crowd(limit, n - 1);
      CrowdRun(limit, n - 1);
      CrowdStep(limit, n);
    }
  }

  lemma CrowdStep(limit: nat, n: nat)
    requires n > 0
    ensures AfterPipeline(CrowdScores(limit, n - 1), n - 1, Score(limit, n - 1)) == CrowdScores(limit, n)
    ensures n == 1 ==> CrowdScores(limit, n - 1) == map[]
  {
  }

  /** The count of each pipeline of a run that starts with a crowd. */
  lemma CrowdCount(limit: nat, n: nat, es: seq<Event>, j: nat)
    requires Crowd(limit, n) <= es && j < n
    ensures Count(es, j) == j + 1
  {
    assert es[..j + 1] == Crowd(limit, j + 1);
    CrowdRun(limit, j + 1);
    CrowdSize(limit, j + 1);
  }

  function Below(n: nat): (r: set<nat>)
    ensures |r| == n && forall k: nat :: k in r <==> k < n
  {
    if n == 0 then {} else Below(n - 1) + {n - 1}
  }

  /* ---------- a clock that stands still ---------- */

  /** `limit` checks at timestamp 0, and one more 60 seconds of Redis time later. */
  function FrozenRun(limit: nat): (es: seq<Event>)
    ensures |es| == limit + 1
  {
    Crowd(limit, limit) + [Pipeline(WINDOW, limit, 0.0, false)]
  }

  lemma FrozenAccepts(limit: nat, k: nat)
    requires 1 <= limit && k <= limit
    ensures IsPipeline(FrozenRun(limit), k) && FrozenRun(limit)[k].member == k && FrozenRun(limit)[k].score == 0.0
    ensures Accepted(limit, FrozenRun(limit), k)
  {
    if k < limit {
      CrowdCount(limit, limit, FrozenRun(limit), k);
    } else {
      CountsAlone(limit, FrozenRun(limit));
    }
  }

  lemma FrozenRunIsPlausible(limit: nat)
    requires 1 <= limit
    ensures Plausible(limit, FrozenRun(limit)) && Ordered(0.0, FrozenRun(limit))
  {
    var es := FrozenRun(limit);
    forall k | 0 <= k < |es| ensures es[k].Pipeline? && es[k].member == k && es[k].score == 0.0 {
      FrozenAccepts(limit, k);
    }
  }

  /** Timestamps in order are not enough, for any limit and any window: EXPIRE
      follows the Redis clock, so a caller whose clock stands still for 60
      seconds finds an empty key. */
  lemma OrderAloneNeverSuffices(limit: int, length: real) returns (es: seq<Event>, ks: set<nat>)
    requires 1 <= limit && 0.0 < length
    ensures Plausible(limit, es) && Ordered(0.0, es) && Overfull(limit, es, ks, length)
  {
    es, ks := FrozenRun(limit), Below(limit + 1);
    FrozenRunIsPlausible(limit);
    forall k | k in ks ensures IsPipeline(es, k) && es[k].score == 0.0 && Accepted(limit, es, k) {
      FrozenAccepts(limit, k);
    }
  }

  lemma CountsAlone(limit: nat, es: seq<Event>)
    requires 1 <= limit && es == Crowd(limit, limit) + [Pipeline(WINDOW, limit, 0.0, false)]
    ensures Count(es, limit) == 1
  {
    assert es[..limit + 1] == es && es[..limit] == Crowd(limit, limit);
    CrowdRun(limit, limit);
    assert Run(es).scores == map[limit := 0.0];
  }

  /* ---------- a timestamp that comes early ---------- */

  /** `limit` accepted checks at 0, as many rejected ones at 30, one at 60 that
      prunes the first and is rejected; two removals at 60; and a check that gets
      to Redis at 60 with an earlier timestamp. All other timestamps are the
      times of the Redis clock. */
  function EarlyRun(limit: nat, score: real): (es: seq<Event>)
    requires 1 <= limit
    ensures |es| == 2 * limit + 4
  {
    EarlyStart(limit) + [Pipeline(WINDOW, 2 * limit + 1, score, false)]
  }

  function EarlyStart(limit: nat): (es: seq<Event>)
    requires 1 <= limit
    ensures |es| == 2 * limit + 3
  {
    Crowd(limit, 2 * limit)
    + [Pipeline(WINDOW, 2 * limit, WINDOW, false), Zrem(WINDOW, 2 * limit), Zrem(WINDOW, 2 * limit - 1)]
  }

  /** The rejected entries at 30, up to member `n`. */
  function Leftover(limit: nat, n: nat): Scores {
    map m: nat | limit <= m < n :: Score(limit, m)
  }

  lemma {:induction false} LeftoverSize(limit: nat, n: nat)
    requires limit <= n
    ensures |Leftover(limit, n)| == n - limit
  {
    if n == limit {
      assert Leftover(limit, n) == map[];
    } else {
      LeftoverSize(limit, n - 1);
      assert Leftover(limit, n) == Leftover(limit, n - 1)[n - 1 := 30.0];
    }
  }

  lemma AfterPrune(limit: nat, es: seq<Event>)
    requires 1 <= limit && es == Crowd(limit, 2 * limit) + [Pipeline(WINDOW, 2 * limit, WINDOW, false)]
    ensures Run(es) == Key(Leftover(limit, 2 * limit)[2 * limit := WINDOW], WINDOW + WINDOW)
  {
    var n := 2 * limit;
    assert es[..n] == Crowd(limit, n);
    CrowdRun(limit, n);
    assert ZRemRange(ZAdd(CrowdScores(limit, n), n, WINDOW), 0.0) == Leftover(limit, n)[n := WINDOW];
  }

  lemma RunAppend(es: seq<Event>, e: Event)
    ensures Run(es + [e]) == Step(Run(es), e)
  {
    assert (es + [e])[..|es|] == es;
  }

  /** The two removals. */
  lemma AfterRemovals(limit: nat, es: seq<Event>)
    requires 1 <= limit && Run(es) == Key(Leftover(limit, 2 * limit)[2 * limit := WINDOW], WINDOW + WINDOW)
    ensures Run(es + [Zrem(WINDOW, 2 * limit)] + [Zrem(WINDOW, 2 * limit - 1)]) ==
            Key(Leftover(limit, 2 * limit - 1), WINDOW + WINDOW)
  {
    var n := 2 * limit;
    RunAppend(es, Zrem(WINDOW, n));
    assert ZRem(Leftover(limit, n)[n := WINDOW], n) == Leftover(limit, n);
    RunAppend(es + [Zrem(WINDOW, n)], Zrem(WINDOW, n - 1));
    assert ZRem(Leftover(limit, n), n - 1) == Leftover(limit, n - 1);
  }

  lemma PruningIsRejected(limit: nat, score: real)
    requires 1 <= limit
    ensures Count(EarlyRun(limit, score), 2 * limit) == limit + 1
  {
    var n, es := 2 * limit, EarlyRun(limit, score);
    assert es[..n + 1] == Crowd(limit, n) + [Pipeline(WINDOW, n, WINDOW, false)];
    AfterPrune(limit, es[..n + 1]);
    LeftoverSize(limit, n);
  }

  lemma StartRun(limit: nat)
    requires 1 <= limit
    ensures Run(EarlyStart(limit)) == Key(Leftover(limit, 2 * limit - 1), WINDOW + WINDOW)
  {
    var n := 2 * limit;
    var pruned := Crowd(limit, n) + [Pipeline(WINDOW, n, WINDOW, false)];
    assert EarlyStart(limit) == pruned + [Zrem(WINDOW, n)] + [Zrem(WINDOW, n - 1)];
    AfterPrune(limit, pruned);
    AfterRemovals(limit, pruned);
  }

  lemma EarlyPipeline(limit: nat, score: real)
    requires 1 <= limit && 0.0 <= score <= WINDOW
    ensures AfterPipeline(Leftover(limit, 2 * limit - 1), 2 * limit + 1, score) ==
            Leftover(limit, 2 * limit - 1)[2 * limit + 1 := score]
    ensures |Leftover(limit, 2 * limit - 1)[2 * limit + 1 := score]| == limit
  {
    LeftoverSize(limit, 2 * limit - 1);
  }

  lemma LastStep(limit: nat, score: real, k: Key)
    requires 1 <= limit && 0.0 <= score <= WINDOW && k == Key(Leftover(limit, 2 * limit - 1), WINDOW + WINDOW)
    ensures |Step(k, Pipeline(WINDOW, 2 * limit + 1, score, false)).scores| == limit
  {
    EarlyPipeline(limit, score);
  }

  lemma EarlyIsAccepted(limit: nat, score: real)
    requires 1 <= limit && 0.0 <= score <= WINDOW
    ensures Count(EarlyRun(limit, score), 2 * limit + 3) == limit
  {
    var es, last := EarlyRun(limit, score), Pipeline(WINDOW, 2 * limit + 1, score, false);
    assert es[..2 * limit + 4] == EarlyStart(limit) + [last];
    StartRun(limit);
    RunAppend(EarlyStart(limit), last);
    LastStep(limit, score, Run(EarlyStart(limit)));
  }

  /** The event at each position. */
  lemma EarlyAt(limit: nat, score: real, k: nat)
    requires 1 <= limit && k < 2 * limit + 4
    ensures var es, n := EarlyRun(limit, score), 2 * limit;
            es[k] == (if k < n then Pipeline(Score(limit, k), k, Score(limit, k), false)
                      else if k == n then Pipeline(WINDOW, n, WINDOW, false)
                      else if k == n + 1 then Zrem(WINDOW, n)
                      else if k == n + 2 then Zrem(WINDOW, n - 1)
                      else Pipeline(WINDOW, n + 1, score, false))
  {
  }

  lemma EarlyAccepts(limit: nat, score: real, k: nat)
    requires 1 <= limit && 0.0 <= score <= WINDOW && k < 2 * limit + 4
    ensures Accepted(limit, EarlyRun(limit, score), k) <==> k < limit || k == 2 * limit + 3
  {
    EarlyAt(limit, score, k);
    if k < 2 * limit {
      CrowdCount(limit, 2 * limit, EarlyRun(limit, score), k);
    } else if k == 2 * limit {
      PruningIsRejected(limit, score);
    } else if k == 2 * limit + 3 {
      EarlyIsAccepted(limit, score);
    }
  }

  lemma EarlyRemoves(limit: nat, score: real, k: nat)
    requires 1 <= limit && k < 2 * limit + 4
    ensures k < limit || k == 2 * limit + 3 ==> !Removed(EarlyRun(limit, score), k, 2 * limit + 4)
    ensures k <= 2 * limit ==> !Removed(EarlyRun(limit, score), k, k)
  {
    var es := EarlyRun(limit, score);
    EarlyAt(limit, score, k);
    forall r | 0 <= r < 2 * limit + 4 && es[r].Zrem?
      ensures es[r].member == 2 * limit || es[r].member == 2 * limit - 1
    {
      EarlyAt(limit, score, r);
    }
    if k <= 2 * limit {
      forall r | 0 <= r < k ensures es[r].Pipeline? {
        EarlyAt(limit, score, r);
      }
    }
  }

  lemma EarlyRunIsPlausible(limit: nat, score: real)
    requires 1 <= limit && 0.0 <= score <= WINDOW
    ensures Plausible(limit, EarlyRun(limit, score))
  {
    var es := EarlyRun(limit, score);
    forall j | 0 <= j < |es| && Accepted(limit, es, j) ensures !Removed(es, j, |es|) {
      EarlyAccepts(limit, score, j);
      EarlyRemoves(limit, score, j);
    }
    forall j | 0 <= j < |es| && es[j].Pipeline? ensures !Removed(es, j, j) && 0.0 <= es[j].score {
      EarlyAt(limit, score, j);
      EarlyRemoves(limit, score, j);
    }
    forall i, j | 0 <= i < j < |es|
      ensures es[i].at <= es[j].at && (es[i].Pipeline? && es[j].Pipeline? ==> es[i].member != es[j].member)
    {
      EarlyAt(limit, score, i);
      EarlyAt(limit, score, j);
    }
  }

  lemma EarlyRunIsOrdered(limit: nat, score: real, d: real)
    requires 1 <= limit && 0.0 <= score <= WINDOW && WINDOW - d <= score && 0.0 <= d
    ensures Ordered(d, EarlyRun(limit, score)) && Renewed(d, EarlyRun(limit, score))
  {
    var es := EarlyRun(limit, score);
    forall i, n, j | 0 <= i < n <= j < |es| && InReach(d, es, i, j) ensures RenewedSince(es, i, n) {
      assert IsPipeline(es, i) && es[n].at < es[i].at + WINDOW;
    }
  }

  lemma EarlyFits(limit: nat, score: real, length: real)
    requires 1 <= limit && 0.0 <= score < length
    ensures var ks := Below(limit) + {2 * limit + 3};
            Pipelines(EarlyRun(limit, score), ks) && FitIn(EarlyRun(limit, score), ks, length) && |ks| == limit + 1
  {
    var ks, es := Below(limit) + {2 * limit + 3}, EarlyRun(limit, score);
    forall k | k in ks ensures IsPipeline(es, k) && 0.0 <= es[k].score <= score {
      EarlyAt(limit, score, k);
    }
  }

  /** For every limit and every longer window there is a run, in order up to
      `d` and with the key renewed throughout, that overfills it. */
  lemma LongerWindowOverfills(limit: int, d: real, length: real) returns (es: seq<Event>, ks: set<nat>)
    requires 1 <= limit && 0.0 <= d && WINDOW - d < length && 0.0 < length
    ensures Plausible(limit, es) && Ordered(d, es) && Renewed(d, es) && Overfull(limit, es, ks, length)
    ensures es == EarlyRun(limit, if d <= WINDOW then WINDOW - d else 0.0)
  {
    var score := if d <= WINDOW then WINDOW - d else 0.0;
    es, ks := EarlyRun(limit, score), Below(limit) + {2 * limit + 3};
    EarlyRunIsPlausible(limit, score);
    EarlyRunIsOrdered(limit, score, d);
    EarlyFits(limit, score, length);
    forall k | k in ks ensures Accepted(limit, es, k) {
      EarlyAccepts(limit, score, k);
    }
  }

  /* ---------- the exact bound ---------- */

  ghost predicate WindowIsSafe(limit: int, d: real, length: real) {
    forall es, ks | Plausible(limit, es) && Ordered(d, es) && Renewed(d, es) :: !Overfull(limit, es, ks, length)
  }

  /** With timestamps at most `d` out of order and the key renewed, exactly the
      windows of length up to 60 - d are safe (and the empty ones). */
  lemma WindowIsSafeExactly(limit: int, d: real, length: real)
    requires 1 <= limit && 0.0 <= d
    ensures WindowIsSafe(limit, d, length) <==> length <= WINDOW - d || length <= 0.0
  {
    if length <= WINDOW - d || length <= 0.0 {
      forall es, ks | Plausible(limit, es) && Ordered(d, es) && Renewed(d, es)
        ensures !Overfull(limit, es, ks, length)
      {
        if Overfull(limit, es, ks, length) {
          ShorterWindowIsSafe(limit, es, d, ks, length);
        }
      }
    } else {
      var es, ks := LongerWindowOverfills(limit, d, length);
    }
  }

  lemma ShorterWindowIsSafe(limit: int, es: seq<Event>, d: real, ks: set<nat>, length: real)
    requires Plausible(limit, es) && Ordered(d, es) && Renewed(d, es) && 0.0 <= d && 0 <= limit
    requires Pipelines(es, ks) && (forall k | k in ks :: Accepted(limit, es, k)) && FitIn(es, ks, length)
    requires length <= WINDOW - d || length <= 0.0
    ensures |ks| <= limit
  {
    if k :| k in ks {
      assert es[k].score - es[k].score < length;
      WindowSafety(limit, es, d, ks);
    }
  }

  /* ---------- where order and renewal come from ---------- */

  /** How far a timestamp lags behind the execution of its pipeline on the Redis
      clock varies by at most `d` over the run. */
  ghost predicate SteadyLag(d: real, es: seq<Event>) {
    forall i, j | 0 <= i < j < |es| && es[i].Pipeline? && es[j].Pipeline? ::
      -d <= (es[j].score - es[i].score) - (es[j].at - es[i].at) <= d
  }

  /** One sufficient condition: synchronised clocks and requests that reach
      Redis within `d`. */
  lemma SteadyLagSuffices(limit: int, es: seq<Event>, d: real)
    requires Plausible(limit, es) && SteadyLag(d, es)
    ensures Ordered(d, es) && Renewed(d, es)
  {
    forall i, n, j | 0 <= i < n <= j < |es| && InReach(d, es, i, j) ensures RenewedSince(es, i, n) {
      assert es[j].score - es[i].score >= es[j].at - es[i].at - d;
      assert IsPipeline(es, i) && es[n].at <= es[j].at;
    }
  }

  lemma EarlyRunIsSteady(limit: nat, score: real, d: real)
    requires 1 <= limit && 0.0 <= score <= WINDOW && WINDOW - d <= score && 0.0 <= d
    ensures SteadyLag(d, EarlyRun(limit, score))
  {
  }

  /** With the lag of timestamps varying by at most `d` either way, a condition
      on clocks and latencies alone, the safe windows are the same: exactly those
      of length up to 60 - d (and the empty ones). */
  lemma SteadyWindowIsSafeExactly(limit: int, d: real, length: real)
    requires 1 <= limit && 0.0 <= d
    ensures (forall es, ks | Plausible(limit, es) && SteadyLag(d, es) :: !Overfull(limit, es, ks, length)) <==>
            length <= WINDOW - d || length <= 0.0
  {
    if length <= WINDOW - d || length <= 0.0 {
      forall es, ks | Plausible(limit, es) && SteadyLag(d, es) ensures !Overfull(limit, es, ks, length) {
        SteadyLagSuffices(limit, es, d);
        if Overfull(limit, es, ks, length) {
          ShorterWindowIsSafe(limit, es, d, ks, length);
        }
      }
    } else {
      var score := if d <= WINDOW then WINDOW - d else 0.0;
      var es, ks := LongerWindowOverfills(limit, d, length);
      EarlyRunIsSteady(limit, score, d);
      assert SteadyLag(d, es);
    }
  }
}
