/** The retry time under concurrency: exact for every genuine rejection, whatever
    removals are outstanding, and for no other. */
module LimiterRetry {
  import opened SortedSets
  import opened RateLimiters
  import opened LimiterInterleaving
  import opened LimiterBounds

  /** Accepted checks alone fill the window at the pipeline at `j`, so that it
      is rejected with or without what is pending. */
  ghost predicate Genuine(limit: int, es: seq<Event>, j: nat)
    requires IsPipeline(es, j)
  {
    |LiveAccepted(limit, es, j)| >= limit
  }

  /* ---------- the oldest entry ---------- */

  lemma StoredBefore(limit: int, es: seq<Event>, i: nat, a: nat, j: nat)
    requires Plausible(limit, es) && Ordered(0.0, es) && Renewed(0.0, es) && IsPipeline(es, j)
    requires i in LivePending(limit, es, j) && a in LiveAccepted(limit, es, j) && es[i].score < es[a].score
    ensures es[i].member in Run(es[..a + 1]).scores
  {
    assert es[a].score <= es[j].score - 0.0;
    RemovedLater(es, i, a + 1, j);
    Survives(limit, es, 0.0, i, a, a + 1);
  }

  lemma LiveBefore(limit: int, es: seq<Event>, i: nat, last: nat, j: nat)
    requires Plausible(limit, es) && Ordered(0.0, es) && Renewed(0.0, es) && IsPipeline(es, j)
    requires i in LiveAccepted(limit, es, j) && last in LiveAccepted(limit, es, j) && i <= last
    ensures es[i].member in Run(es[..last + 1]).scores
  {
    assert es[last].score <= es[j].score - 0.0;
    AcceptedSurvives(limit, es, 0.0, i, last);
  }

  /** An accepted pipeline left at most `limit` entries. */
  lemma StoredFit(limit: int, es: seq<Event>, ks: set<nat>, last: nat)
    requires Plausible(limit, es) && Pipelines(es, ks) && Accepted(limit, es, last)
    requires Members(es, ks) <= Run(es[..last + 1]).scores.Keys
    ensures |ks| <= limit
  {
    DistinctMembers(limit, es, ks);
    KeysSize(Members(es, ks), Run(es[..last + 1]).scores.Keys);
    assert |Run(es[..last + 1]).scores| == |Run(es[..last + 1]).scores.Keys|;
  }

  /** If every live accepted check is younger than a pending one, the latest of
      them was counted together with it and all the others. */
  lemma YoungerThanPending(limit: int, es: seq<Event>, i: nat, j: nat)
    requires 1 <= limit && Plausible(limit, es) && Ordered(0.0, es) && Renewed(0.0, es) && IsPipeline(es, j)
    requires i in LivePending(limit, es, j)
    requires forall a | a in LiveAccepted(limit, es, j) :: es[i].score < es[a].score
    ensures !Genuine(limit, es, j)
  {
    var live := LiveAccepted(limit, es, j);
    if live != {} {
      var last := Latest(live);
      StoredBefore(limit, es, i, last, j);
      forall a | a in live ensures es[a].member in Run(es[..last + 1]).scores {
        LiveBefore(limit, es, a, last, j);
      }
      StoredFit(limit, es, live + {i}, last);
      assert |live + {i}| == |live| + 1;
    }
  }

  /** When the rejection is genuine, no pending entry is older than all the live accepted ones. */
  lemma OlderThanPending(limit: int, es: seq<Event>, i: nat, j: nat) returns (a: nat)
    requires 1 <= limit && Plausible(limit, es) && Ordered(0.0, es) && Renewed(0.0, es) && IsPipeline(es, j)
    requires Genuine(limit, es, j) && i in LivePending(limit, es, j)
    ensures a in LiveAccepted(limit, es, j) && es[a].score <= es[i].score
  {
    if forall a | a in LiveAccepted(limit, es, j) :: es[i].score < es[a].score {
      YoungerThanPending(limit, es, i, j);
    }
    a :| a in LiveAccepted(limit, es, j) && es[a].score <= es[i].score;
  }

  /** What the history shows at the pipeline at `j`. */
  ghost function Window(limit: int, es: seq<Event>, j: nat): Scores
    requires IsPipeline(es, j)
  {
    InWindow(AcceptedBefore(limit, es, j), es[j].score)
  }

  lemma WindowScore(limit: int, es: seq<Event>, i: nat, j: nat)
    requires Plausible(limit, es) && IsPipeline(es, j) && i in LiveAccepted(limit, es, j)
    ensures es[i].member in Window(limit, es, j) && Window(limit, es, j)[es[i].member] == es[i].score
  {
    WindowMembers(limit, es, j);
  }

  lemma WindowCheck(limit: int, es: seq<Event>, j: nat, score: real) returns (i: nat)
    requires Plausible(limit, es) && IsPipeline(es, j) && score in Window(limit, es, j).Values
    ensures i in LiveAccepted(limit, es, j) && es[i].score == score
  {
    WindowMembers(limit, es, j);
    var m :| m in Window(limit, es, j) && Window(limit, es, j)[m] == score;
    i :| i in LiveAccepted(limit, es, j) && es[i].member == m;
  }

  lemma NoPresentIsOlder(limit: int, es: seq<Event>, i: nat, j: nat, oldest: real)
    requires 1 <= limit && Plausible(limit, es) && Ordered(0.0, es) && Renewed(0.0, es) && IsPipeline(es, j)
    requires Genuine(limit, es, j) && IsLeast(Window(limit, es, j), oldest) && i in Present(limit, es, j)
    ensures oldest <= es[i].score
  {
    if i in LiveAccepted(limit, es, j) {
      WindowScore(limit, es, i, j);
    } else if i in LivePending(limit, es, j) {
      var a := OlderThanPending(limit, es, i, j);
      WindowScore(limit, es, a, j);
    } else {
      var a := WindowCheck(limit, es, j, oldest);
      assert es[j].score >= es[a].score - 0.0;
    }
  }

  /** The pipeline at `j` leaves the entries of `Present` with their timestamps. */
  lemma StoredOrigin(limit: int, es: seq<Event>, j: nat, m: Member) returns (i: nat)
    requires Plausible(limit, es) && IsPipeline(es, j) && m in Run(es[..j + 1]).scores
    ensures i in Present(limit, es, j) && es[i].score == Run(es[..j + 1]).scores[m]
  {
    i := Origin(limit, es, j + 1, m);
    StoredIsYoung(es, j, m);
    RemovedLater(es, i, j, j + 1);
  }

  lemma LiveIsStored(limit: int, es: seq<Event>, i: nat, j: nat)
    requires Plausible(limit, es) && Ordered(0.0, es) && Renewed(0.0, es) && IsPipeline(es, j)
    requires i in LiveAccepted(limit, es, j)
    ensures es[i].score in Run(es[..j + 1]).scores.Values
  {
    assert !Removed(es, i, |es|);
    RemovedLater(es, i, j + 1, |es|);
    Survives(limit, es, 0.0, i, j, j + 1);
    assert Run(es[..j + 1]).scores[es[i].member] == es[i].score;
  }

  /** The oldest entry of the key is the oldest one of the accepted history. */
  lemma SameOldest(limit: int, es: seq<Event>, j: nat, oldest: real)
    requires 1 <= limit && Plausible(limit, es) && Ordered(0.0, es) && Renewed(0.0, es) && IsPipeline(es, j)
    requires Genuine(limit, es, j) && IsLeast(Window(limit, es, j), oldest)
    ensures IsLeast(Run(es[..j + 1]).scores, oldest)
  {
    var first := WindowCheck(limit, es, j, oldest);
    LiveIsStored(limit, es, first, j);
    var stored := Run(es[..j + 1]).scores;
    forall m | m in stored ensures oldest <= stored[m] {
      var i := StoredOrigin(limit, es, j, m);
      NoPresentIsOlder(limit, es, i, j, oldest);
    }
  }

  lemma LeastIsUnique(z: Scores, least: real)
    requires IsLeast(z, least)
    ensures z != map[] && Oldest(z).value == least
  {
  }

  lemma ReplyByCount(limit: int, es: seq<Event>, j: nat)
    requires IsPipeline(es, j)
    ensures Reply(limit, es, j).allowed <==> Count(es, j) <= limit
  {
  }

  lemma ReplyByOldest(limit: int, es: seq<Event>, j: nat, oldest: real)
    requires IsPipeline(es, j) && limit < Count(es, j) && IsLeast(Run(es[..j + 1]).scores, oldest)
    requires es[j].score <= oldest + WINDOW
    ensures Reply(limit, es, j).retryAfter == oldest + WINDOW - es[j].score
  {
    LeastIsUnique(Run(es[..j + 1]).scores, oldest);
  }

  /* ---------- agreement with the history ---------- */

  lemma FullKeyAnswer(limit: int, z: Scores, h: Scores, now: real)
    requires 1 <= limit <= |InWindow(h, now)| && limit < |z| && z != map[]
    requires IsLeast(z, Oldest(InWindow(h, now)).value) && 0.0 < ResetAfter(InWindow(h, now), now)
    ensures Answer(limit, z, now) == Decide(limit, h, now)
  {
    LeastIsUnique(z, Oldest(InWindow(h, now)).value);
  }

  /** A genuine rejection is the one of the sequential limiter, whatever is pending. */
  lemma GenuineAgrees(limit: int, es: seq<Event>, j: nat)
    requires 1 <= limit && Plausible(limit, es) && Ordered(0.0, es) && Renewed(0.0, es) && IsPipeline(es, j)
    requires Genuine(limit, es, j)
    ensures Reply(limit, es, j) == Decide(limit, AcceptedBefore(limit, es, j), es[j].score)
  {
    WindowOfHistory(limit, es, j);
    RejectedExactlyWhenFull(limit, es, j);
    WindowIsPast(limit, es, j);
    RetryWithinWindow(Window(limit, es, j), es[j].score);
    SameOldest(limit, es, j, Oldest(Window(limit, es, j)).value);
    FullKeyAnswer(limit, Run(es[..j + 1]).scores, AcceptedBefore(limit, es, j), es[j].score);
  }

  lemma CrowdedAnswer(limit: int, z: Scores, h: Scores, now: real)
    requires |InWindow(h, now)| < limit && |InWindow(h, now)| + 1 < |z| && z != map[]
    ensures Decide(limit, h, now).allowed
    ensures Answer(limit, z, now).allowed ==> Answer(limit, z, now).remaining < Decide(limit, h, now).remaining
  {
  }

  lemma PendingCrowds(limit: int, es: seq<Event>, j: nat)
    requires Plausible(limit, es) && Ordered(0.0, es) && Renewed(0.0, es) && IsPipeline(es, j)
    requires LivePending(limit, es, j) != {}
    ensures |Window(limit, es, j)| + 1 < Count(es, j)
  {
    WindowOfHistory(limit, es, j);
    StoredExactly(limit, es, j);
    PresentSize(limit, es, j);
  }

  /** A spurious rejection is none of the sequential limiter, and an acceptance
      beside something pending tells of less room. */
  lemma SpuriousDisagrees(limit: int, es: seq<Event>, j: nat)
    requires Plausible(limit, es) && Ordered(0.0, es) && Renewed(0.0, es) && IsPipeline(es, j)
    requires !Genuine(limit, es, j) && LivePending(limit, es, j) != {}
    ensures Reply(limit, es, j) != Decide(limit, AcceptedBefore(limit, es, j), es[j].score)
  {
    WindowOfHistory(limit, es, j);
    PendingCrowds(limit, es, j);
    OwnEntryIsStored(es, j);
    CrowdedAnswer(limit, Run(es[..j + 1]).scores, AcceptedBefore(limit, es, j), es[j].score);
  }

  /** With timestamps in order and the key renewed, the interleaved limiter
      answers like the sequential one on the same accepted history exactly when
      nothing is pending or the window is full of accepted checks. */
  lemma AgreesExactly(limit: int, es: seq<Event>, j: nat)
    requires 1 <= limit && Plausible(limit, es) && Ordered(0.0, es) && Renewed(0.0, es) && IsPipeline(es, j)
    ensures Reply(limit, es, j) == Decide(limit, AcceptedBefore(limit, es, j), es[j].score) <==>
            LivePending(limit, es, j) == {} || Genuine(limit, es, j)
  {
    if Genuine(limit, es, j) {
      GenuineAgrees(limit, es, j);
    } else if LivePending(limit, es, j) == {} {
      AgreesWithSequential(limit, es, j);
    } else {
      SpuriousDisagrees(limit, es, j);
    }
  }

  /* ---------- the retry time ---------- */

  /** No check is accepted strictly between two positions. */
  ghost predicate NoneAccepted(limit: int, es: seq<Event>, j: nat, k: nat)
    requires k <= |es|
  {
    forall i | j < i < k :: !Accepted(limit, es, i)
  }

  lemma {:induction false} SameHistory(limit: int, es: seq<Event>, j: nat, k: nat)
    requires IsPipeline(es, j) && !Accepted(limit, es, j) && j < k <= |es| && NoneAccepted(limit, es, j, k)
    ensures AcceptedBefore(limit, es, k) == AcceptedBefore(limit, es, j)
  {
    if j + 1 < k {
      SameHistory(limit, es, j, k - 1);
    }
  }

  lemma HistoryIsUpTo(limit: int, es: seq<Event>, j: nat)
    requires Plausible(limit, es) && IsPipeline(es, j) && Ordered(0.0, es)
    ensures UpTo(AcceptedBefore(limit, es, j), es[j].score)
  {
    var h := AcceptedBefore(limit, es, j);
    forall m | m in h ensures 0.0 <= h[m] <= es[j].score {
      var i := HistoryOrigin(limit, es, j, m);
      HistoryHolds(limit, es, j, i);
    }
  }

  /** No later instant sees more than `limit` accepted checks in its window. */
  lemma HistoryIsCapped(limit: int, es: seq<Event>, j: nat)
    requires Plausible(limit, es) && IsPipeline(es, j) && Ordered(0.0, es) && Renewed(0.0, es) && 0 <= limit
    ensures Capped(limit, AcceptedBefore(limit, es, j), es[j].score)
  {
    var h, live := AcceptedBefore(limit, es, j), LiveAccepted(limit, es, j);
    assert Pipelines(es, live) && FitIn(es, live, WINDOW);
    WindowSafety(limit, es, 0.0, live);
    WindowOfHistory(limit, es, j);
    forall t | es[j].score <= t ensures |InWindow(h, t)| <= limit {
      SubsetSize(InWindow(h, t), InWindow(h, es[j].score));
    }
  }

  lemma RejectedIsNotAccepted(limit: int, es: seq<Event>, j: nat)
    requires IsPipeline(es, j) && !Reply(limit, es, j).allowed
    ensures !Accepted(limit, es, j)
  {
    OwnEntryIsStored(es, j);
  }

  lemma GenuineIsRejected(limit: int, es: seq<Event>, j: nat)
    requires Plausible(limit, es) && Ordered(0.0, es) && Renewed(0.0, es) && IsPipeline(es, j)
    requires Genuine(limit, es, j)
    ensures !Reply(limit, es, j).allowed && !Accepted(limit, es, j)
  {
    RejectedExactlyWhenFull(limit, es, j);
    ReplyByCount(limit, es, j);
    RejectedIsNotAccepted(limit, es, j);
  }

  /** The instant a rejection names is the one from which on the accepted checks leave room. */
  ghost predicate NamesTheInstant(limit: int, es: seq<Event>, j: nat)
    requires IsPipeline(es, j)
  {
    forall t | es[j].score <= t ::
      Decide(limit, AcceptedBefore(limit, es, j), t).allowed <==> t >= es[j].score + Reply(limit, es, j).retryAfter
  }

  lemma RejectionTakesTime(limit: int, es: seq<Event>, j: nat)
    requires Plausible(limit, es) && Ordered(0.0, es) && IsPipeline(es, j) && !Reply(limit, es, j).allowed
    ensures 0.0 < Reply(limit, es, j).retryAfter
  {
    var stored := Run(es[..j + 1]).scores;
    OwnEntryIsStored(es, j);
    var m :| m in stored && stored[m] == Oldest(stored).value;
    var i := StoredOrigin(limit, es, j, m);
  }

  lemma GenuineNamesTheInstant(limit: int, es: seq<Event>, j: nat)
    requires 1 <= limit && Plausible(limit, es) && Ordered(0.0, es) && Renewed(0.0, es) && IsPipeline(es, j)
    requires Genuine(limit, es, j)
    ensures NamesTheInstant(limit, es, j) && Reply(limit, es, j).retryAfter <= WINDOW
  {
    var h := AcceptedBefore(limit, es, j);
    GenuineAgrees(limit, es, j);
    GenuineIsRejected(limit, es, j);
    HistoryIsUpTo(limit, es, j);
    HistoryIsCapped(limit, es, j);
    RejectedExactlyUntilRetry(limit, h, es[j].score, es[j].score);
    forall t | es[j].score <= t
      ensures Decide(limit, h, t).allowed <==> t >= es[j].score + Reply(limit, es, j).retryAfter
    {
      RejectedExactlyUntilRetry(limit, h, es[j].score, t);
    }
  }

  /** A rejection names the right instant exactly if it is genuine. */
  lemma NamesTheInstantExactly(limit: int, es: seq<Event>, j: nat)
    requires 1 <= limit && Plausible(limit, es) && Ordered(0.0, es) && Renewed(0.0, es) && IsPipeline(es, j)
    requires !Reply(limit, es, j).allowed
    ensures NamesTheInstant(limit, es, j) <==> Genuine(limit, es, j)
  {
    if Genuine(limit, es, j) {
      GenuineNamesTheInstant(limit, es, j);
    } else {
      RejectionTakesTime(limit, es, j);
      WindowOfHistory(limit, es, j);
      assert Decide(limit, AcceptedBefore(limit, es, j), es[j].score).allowed;
    }
  }

  /** While nothing is accepted, the window stays full up to the instant named and no longer. */
  lemma FullUntilRetry(limit: int, es: seq<Event>, j: nat, k: nat)
    requires 1 <= limit && Plausible(limit, es) && Ordered(0.0, es) && Renewed(0.0, es)
    requires IsPipeline(es, j) && IsPipeline(es, k) && j < k && NoneAccepted(limit, es, j, k)
    requires Genuine(limit, es, j)
    ensures 0.0 < Reply(limit, es, j).retryAfter <= WINDOW
    ensures Genuine(limit, es, k) <==> es[k].score < es[j].score + Reply(limit, es, j).retryAfter
    ensures Genuine(limit, es, k) ==>
              es[k].score + Reply(limit, es, k).retryAfter == es[j].score + Reply(limit, es, j).retryAfter
  {
    GenuineAgrees(limit, es, j);
    GenuineIsRejected(limit, es, j);
    SameHistory(limit, es, j, k);
    HistoryIsUpTo(limit, es, j);
    HistoryIsCapped(limit, es, j);
    WindowOfHistory(limit, es, k);
    assert es[j].score <= es[k].score - 0.0;
    RejectedExactlyUntilRetry(limit, AcceptedBefore(limit, es, j), es[j].score, es[k].score);
    if Genuine(limit, es, k) {
      GenuineAgrees(limit, es, k);
    }
  }

  /** Exact retry time under concurrency: whatever pipelines and removals come
      before, between and after, and whatever is pending, the time `r` that a
      genuine rejection names stays put while nothing is accepted. Before it is
      over every check is rejected and names the same instant; from then on a
      check is accepted exactly when the entries pending leave room for it. */
  lemma RetryIsExact(limit: int, es: seq<Event>, j: nat, k: nat)
    requires 1 <= limit && Plausible(limit, es) && Ordered(0.0, es) && Renewed(0.0, es)
    requires IsPipeline(es, j) && IsPipeline(es, k) && j < k && NoneAccepted(limit, es, j, k)
    requires Genuine(limit, es, j)
    ensures var r := Reply(limit, es, j).retryAfter;
            && !Reply(limit, es, j).allowed && 0.0 < r <= WINDOW
            && (es[k].score < es[j].score + r ==>
                  !Reply(limit, es, k).allowed
                  && es[k].score + Reply(limit, es, k).retryAfter == es[j].score + r)
            && (Reply(limit, es, k).allowed <==>
                  && es[k].score >= es[j].score + r
                  && |LiveAccepted(limit, es, k)| + |LivePending(limit, es, k)| < limit)
  {
    GenuineIsRejected(limit, es, j);
    FullUntilRetry(limit, es, j, k);
    RejectedExactlyWhenFull(limit, es, k);
    ReplyByCount(limit, es, k);
  }

  /* ---------- a spurious rejection ---------- */

  /** The first check comes at 0 and the others at 59; callers' clocks and the
      Redis clock agree throughout. */
  function Moment(k: nat): real {
    if k == 0 then 0.0 else 59.0
  }

  function Crew(n: nat): (es: seq<Event>)
    ensures |es| == n && forall k | 0 <= k < n :: es[k] == Pipeline(Moment(k), k, Moment(k), false)
  {
    seq(n, k requires 0 <= k < n => Pipeline(Moment(k), k, Moment(k), false))
  }

  function CrewScores(first: nat, n: nat): Scores {
    map m: nat | first <= m < n :: Moment(m)
  }

  lemma {:induction false} CrewSize(first: nat, n: nat)
    requires first <= n
    ensures |CrewScores(first, n)| == n - first
  {
    if n == first {
      assert CrewScores(first, n) == map[];
    } else {
      CrewSize(first, n - 1);
      assert CrewScores(first, n) == CrewScores(first, n - 1)[n - 1 := Moment(n - 1)];
    }
  }

  lemma CrewStep(n: nat)
    requires n > 0
    ensures AfterPipeline(CrewScores(0, n - 1), n - 1, Moment(n - 1)) == CrewScores(0, n)
    ensures n == 1 ==> CrewScores(0, n - 1) == map[]
  {
  }

  lemma {:induction false} CrewRun(n: nat)
    ensures Run(Crew(n)).scores == CrewScores(0, n)
    ensures n > 0 ==> Run(Crew(n)).expireAt == Moment(n - 1) + WINDOW
  {
    if n == 0 {
      assert Crew(n) == [];
      assert CrewScores(0, n) == map[];
    } else {
      assert Crew(n)[..n - 1] == Crew(n - 1);
      CrewRun(n - 1);
      CrewStep(n);
    }
  }

  /** `limit` checks are accepted, one at 0 and the others at 59. Another at 59
      is rejected. At 60 the next check prunes the first one, finds the pending
      entry in its place and is rejected too. Both removals arrive; and a check
      at 61. */
  function LongRetry(limit: nat): (es: seq<Event>)
    ensures |es| == limit + 5
  {
    Crew(limit + 1) + [Late(limit, 1), Late(limit, 2), Late(limit, 3), Late(limit, 4)]
  }

  function Late(limit: nat, n: nat): Event {
    if n == 1 then Pipeline(60.0, limit + 1, 60.0, false)
    else if n == 2 then Zrem(60.0, limit)
    else if n == 3 then Zrem(60.0, limit + 1)
    else Pipeline(61.0, limit + 2, 61.0, false)
  }

  /** The key after the crew and `n` more commands. */
  function Stage(limit: nat, n: nat): Key {
    if n == 0 then Key(CrewScores(0, limit + 1), 119.0)
    else if n == 1 then Key(CrewScores(1, limit + 1)[limit + 1 := 60.0], 120.0)
    else if n == 2 then Key(CrewScores(1, limit)[limit + 1 := 60.0], 120.0)
    else if n == 3 then Key(CrewScores(1, limit), 120.0)
    else Key(CrewScores(1, limit)[limit + 2 := 61.0], 121.0)
  }

  lemma StageStep(limit: nat, n: nat)
    requires 1 <= limit && 1 <= n <= 4
    ensures Step(Stage(limit, n - 1), Late(limit, n)) == Stage(limit, n)
  {
    var before, after := Stage(limit, n - 1), Stage(limit, n);
    if n == 1 {
      assert AfterPipeline(before.scores, limit + 1, 60.0) == after.scores;
    } else if n == 4 {
      assert AfterPipeline(before.scores, limit + 2, 61.0) == after.scores;
    } else {
      assert ZRem(before.scores, if n == 2 then limit else limit + 1) == after.scores;
    }
  }

  lemma LongRetryPart(limit: nat, n: nat)
    requires n <= 4
    ensures n == 0 ==> LongRetry(limit)[..limit + 1 + n] == Crew(limit + 1)
    ensures n > 0 ==> LongRetry(limit)[..limit + 1 + n] == LongRetry(limit)[..limit + n] + [Late(limit, n)]
  {
  }

  lemma {:induction false} LongRetryRun(limit: nat, n: nat)
    requires 1 <= limit && n <= 4
    ensures Run(LongRetry(limit)[..limit + 1 + n]) == Stage(limit, n)
  {
    LongRetryPart(limit, n);
    if n == 0 {
      CrewRun(limit + 1);
    } else {
      LongRetryRun(limit, n - 1);
      RunAppend(LongRetry(limit)[..limit + n], Late(limit, n));
      StageStep(limit, n);
    }
  }

  lemma LongRetryAt(limit: nat, k: nat)
    requires k < limit + 5
    ensures LongRetry(limit)[k] ==
            if k <= limit then Pipeline(Moment(k), k, Moment(k), false) else Late(limit, k - limit)
  {
  }

  lemma CrewCount(limit: nat, k: nat)
    requires k <= limit
    ensures Count(LongRetry(limit), k) == k + 1
  {
    assert LongRetry(limit)[..k + 1] == Crew(k + 1);
    CrewRun(k + 1);
    CrewSize(0, k + 1);
  }

  lemma SizeAtRejection(limit: nat)
    requires 1 <= limit
    ensures |Stage(limit, 1).scores| == limit + 1 && IsLeast(Stage(limit, 1).scores, 59.0)
  {
    var z := Stage(limit, 1).scores;
    CrewSize(1, limit + 1);
    assert 1 in z && z[1] == 59.0 && forall m | m in z :: 59.0 <= z[m];
  }

  lemma SizeAtRetry(limit: nat)
    requires 1 <= limit
    ensures |Stage(limit, 4).scores| == limit
  {
    CrewSize(1, limit);
  }

  /** The check at 60 is rejected with 59 to go. */
  lemma LongRetryRejects(limit: nat)
    requires 1 <= limit
    ensures IsPipeline(LongRetry(limit), limit + 1) && Count(LongRetry(limit), limit + 1) == limit + 1
    ensures Reply(limit, LongRetry(limit), limit + 1).retryAfter == 59.0
  {
    LongRetryAt(limit, limit + 1);
    LongRetryRun(limit, 1);
    SizeAtRejection(limit);
    ReplyByOldest(limit, LongRetry(limit), limit + 1, 59.0);
  }

  /** The check at 61 is accepted. */
  lemma LongRetryEnds(limit: nat)
    requires 1 <= limit
    ensures IsPipeline(LongRetry(limit), limit + 4) && Count(LongRetry(limit), limit + 4) == limit
  {
    LongRetryAt(limit, limit + 4);
    LongRetryRun(limit, 4);
    SizeAtRetry(limit);
  }

  lemma LongRetryAccepts(limit: nat, k: nat)
    requires 1 <= limit && k < limit + 5
    ensures Accepted(limit, LongRetry(limit), k) <==> k < limit || k == limit + 4
  {
    LongRetryAt(limit, k);
    if k <= limit {
      CrewCount(limit, k);
    } else if k == limit + 1 {
      LongRetryRejects(limit);
    } else if k == limit + 4 {
      LongRetryEnds(limit);
    }
  }

  lemma LongRetryRemoves(limit: nat, k: nat)
    requires 1 <= limit && k < limit + 5
    ensures k < limit || k == limit + 4 ==> !Removed(LongRetry(limit), k, limit + 5)
    ensures k <= limit + 1 ==> !Removed(LongRetry(limit), k, k)
    ensures k == limit || k == limit + 1 ==> Removed(LongRetry(limit), k, limit + 4)
  {
    var es := LongRetry(limit);
    LongRetryAt(limit, k);
    forall r | 0 <= r < limit + 5 && es[r].Zrem? ensures limit + 2 <= r && limit <= es[r].member <= limit + 1 {
      LongRetryAt(limit, r);
    }
    if k == limit || k == limit + 1 {
      var r := k + 2;
      LongRetryAt(limit, r);
      assert es[r] == Zrem(es[r].at, es[k].member);
    }
  }

  lemma LongRetryIsPlausible(limit: nat)
    requires 1 <= limit
    ensures Plausible(limit, LongRetry(limit)) && SteadyLag(0.0, LongRetry(limit))
  {
    var es := LongRetry(limit);
    forall j | 0 <= j < |es| && Accepted(limit, es, j) ensures !Removed(es, j, |es|) {
      LongRetryAccepts(limit, j);
      LongRetryRemoves(limit, j);
    }
    forall j | 0 <= j < |es| && es[j].Pipeline? ensures !Removed(es, j, j) && 0.0 <= es[j].score == es[j].at {
      LongRetryAt(limit, j);
      LongRetryRemoves(limit, j);
    }
    forall i, j | 0 <= i < j < |es|
      ensures es[i].at <= es[j].at && (es[i].Pipeline? && es[j].Pipeline? ==> es[i].member != es[j].member)
    {
      LongRetryAt(limit, i);
      LongRetryAt(limit, j);
    }
  }

  lemma NothingPendingAtEnd(limit: nat)
    requires 1 <= limit && IsPipeline(LongRetry(limit), limit + 4)
    ensures LivePending(limit, LongRetry(limit), limit + 4) == {}
  {
    var pending := LivePending(limit, LongRetry(limit), limit + 4);
    forall i | i in pending ensures false {
      LongRetryAt(limit, i);
      LongRetryAccepts(limit, i);
      LongRetryRemoves(limit, i);
    }
  }

  lemma BetweenRejectionAndRetry(limit: nat)
    requires 1 <= limit
    ensures var es := LongRetry(limit);
            && NoneAccepted(limit, es, limit + 1, limit + 4) && Accepted(limit, es, limit + 4)
            && es[limit + 1].score == 60.0 && es[limit + 4].score == 61.0
  {
    LongRetryAt(limit, limit + 1);
    LongRetryAt(limit, limit + 4);
    forall i | limit + 1 < i <= limit + 4 ensures Accepted(limit, LongRetry(limit), i) <==> i == limit + 4 {
      LongRetryAccepts(limit, i);
    }
  }

  lemma LongRetryIsInStep(limit: nat)
    requires 1 <= limit
    ensures Ordered(0.0, LongRetry(limit)) && Renewed(0.0, LongRetry(limit))
  {
    LongRetryIsPlausible(limit);
    SteadyLagSuffices(limit, LongRetry(limit), 0.0);
  }

  /** What the callers at 60 and 61 are told. */
  ghost predicate RetriesEarly(limit: int, es: seq<Event>, j: nat, k: nat)
    requires IsPipeline(es, j) && IsPipeline(es, k)
  {
    && !Reply(limit, es, j).allowed && Reply(limit, es, j).retryAfter == 59.0
    && Reply(limit, es, k).allowed && es[k].score == es[j].score + 1.0
  }

  lemma LongRetryTells(limit: nat)
    requires 1 <= limit
    ensures IsPipeline(LongRetry(limit), limit + 1) && IsPipeline(LongRetry(limit), limit + 4)
    ensures RetriesEarly(limit, LongRetry(limit), limit + 1, limit + 4)
  {
    LongRetryRejects(limit);
    LongRetryEnds(limit);
    ReplyByCount(limit, LongRetry(limit), limit + 1);
    ReplyByCount(limit, LongRetry(limit), limit + 4);
    BetweenRejectionAndRetry(limit);
  }

  lemma LiveAtRejection(limit: nat, i: nat)
    requires 1 <= limit && IsPipeline(LongRetry(limit), limit + 1)
    requires i in LiveAccepted(limit, LongRetry(limit), limit + 1)
    ensures 1 <= i < limit
  {
    LongRetryAt(limit, limit + 1);
    LongRetryAt(limit, i);
    LongRetryAccepts(limit, i);
  }

  /** The accepted check at 0 has left the window at 60. */
  lemma LongRetryIsSpurious(limit: nat)
    requires 1 <= limit && IsPipeline(LongRetry(limit), limit + 1)
    ensures !Genuine(limit, LongRetry(limit), limit + 1)
  {
    var live := LiveAccepted(limit, LongRetry(limit), limit + 1);
    forall i | i in live ensures 1 <= i < limit {
      LiveAtRejection(limit, i);
    }
    KeysSize(live + {0}, Below(limit));
    assert |live + {0}| == |live| + 1;
  }

  /** The retry time of a spurious rejection can be too long by far: for every
      limit, clocks in step and all, a check that is told to come back after 59
      seconds, and another that is accepted one second later with nothing
      accepted in between and nothing pending any more. */
  lemma PendingLengthensRetry(limit: nat)
    requires 1 <= limit
    ensures Plausible(limit, LongRetry(limit)) && SteadyLag(0.0, LongRetry(limit))
    ensures Ordered(0.0, LongRetry(limit)) && Renewed(0.0, LongRetry(limit))
    ensures IsPipeline(LongRetry(limit), limit + 1) && IsPipeline(LongRetry(limit), limit + 4)
    ensures RetriesEarly(limit, LongRetry(limit), limit + 1, limit + 4)
    ensures NoneAccepted(limit, LongRetry(limit), limit + 1, limit + 4)
    ensures LivePending(limit, LongRetry(limit), limit + 4) == {}
    ensures !Genuine(limit, LongRetry(limit), limit + 1)
  {
    LongRetryIsPlausible(limit);
    LongRetryIsInStep(limit);
    LongRetryTells(limit);
    BetweenRejectionAndRetry(limit);
    NothingPendingAtEnd(limit);
    LongRetryIsSpurious(limit);
  }

  /* ---------- a retry beside pending entries ---------- */

  lemma CrowdReply(limit: nat, score: real)
    requires 1 <= limit
    ensures IsPipeline(EarlyRun(limit, score), limit)
    ensures !Reply(limit, EarlyRun(limit, score), limit).allowed
    ensures Reply(limit, EarlyRun(limit, score), limit).retryAfter == 30.0
  {
    var es := EarlyRun(limit, score);
    EarlyAt(limit, score, limit);
    CrowdCount(limit, 2 * limit, es, limit);
    assert es[..limit + 1] == Crowd(limit, limit + 1);
    CrowdRun(limit, limit + 1);
    var z := CrowdScores(limit, limit + 1);
    assert 0 in z && z[0] == 0.0;
    ReplyByCount(limit, es, limit);
    ReplyByOldest(limit, es, limit, 0.0);
  }

  lemma NothingPendingAtFirst(limit: nat, score: real)
    requires 1 <= limit && 0.0 <= score <= WINDOW && IsPipeline(EarlyRun(limit, score), limit)
    ensures LivePending(limit, EarlyRun(limit, score), limit) == {}
  {
    var pending := LivePending(limit, EarlyRun(limit, score), limit);
    forall i | i in pending ensures false {
      EarlyAccepts(limit, score, i);
    }
  }

  /** A check at the instant named needs room beside the pending entries too: for
      every limit, clocks in step and all, a genuine rejection with 30 seconds to
      go, and a check that comes then and is rejected, with nothing accepted in
      between. */
  lemma PendingProlongsRejection(limit: int) returns (es: seq<Event>, j: nat, k: nat)
    requires 1 <= limit
    ensures Plausible(limit, es) && SteadyLag(0.0, es) && Ordered(0.0, es) && Renewed(0.0, es)
    ensures IsPipeline(es, j) && IsPipeline(es, k) && j < k && NoneAccepted(limit, es, j, k)
    ensures LivePending(limit, es, j) == {} && Genuine(limit, es, j)
    ensures !Reply(limit, es, j).allowed && es[k].score == es[j].score + Reply(limit, es, j).retryAfter
    ensures !Reply(limit, es, k).allowed && !Accepted(limit, es, k)
  {
    es, j, k := EarlyRun(limit, WINDOW), limit, 2 * limit;
    EarlyRunIsPlausible(limit, WINDOW);
    EarlyRunIsSteady(limit, WINDOW, 0.0);
    SteadyLagSuffices(limit, es, 0.0);
    CrowdReply(limit, WINDOW);
    NothingPendingAtFirst(limit, WINDOW);
    RejectedExactlyWhenFull(limit, es, j);
    EarlyAt(limit, WINDOW, j);
    EarlyAt(limit, WINDOW, k);
    PruningIsRejected(limit, WINDOW);
    forall i | j < i <= k ensures !Accepted(limit, es, i) {
      EarlyAccepts(limit, WINDOW, i);
    }
  }
}
