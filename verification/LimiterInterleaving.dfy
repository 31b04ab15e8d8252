/** The rate limiter under concurrency: pipelines of many calls execute
    atomically on one key, while each ZREM comes later or never, replies may be
    lost, and the callers' clocks may disagree with the order of execution. */
module LimiterInterleaving {
  import opened SortedSets
  import opened RateLimiters

  /** `at` is the Redis clock when the command executes, `score` the time the
      caller read before sending the pipeline. */
  datatype Event =
    | Pipeline(at: real, member: Member, score: real, replyLost: bool)
    | Zrem(at: real, member: Member)

  const EMPTY := Key(map[], 0.0)

  function Step(k: Key, e: Event): Key {
    match e
    case Pipeline(at, m, score, _) => Key(AfterPipeline(Live(k, at), m, score), at + WINDOW)
    case Zrem(at, m) => k.(scores := ZRem(Live(k, at), m))
  }

  function Run(es: seq<Event>): Key {
    if es == [] then EMPTY else Step(Run(es[..|es| - 1]), es[|es| - 1])
  }

  /** The ZCARD reply of the pipeline at position `j`. */
  function Count(es: seq<Event>, j: nat): nat
    requires j < |es|
  {
    |Run(es[..j + 1]).scores|
  }

  predicate IsPipeline(es: seq<Event>, j: nat) {
    j < |es| && es[j].Pipeline?
  }

  /** The caller of the pipeline at `j` was told to go ahead. */
  predicate Accepted(limit: int, es: seq<Event>, j: nat) {
    IsPipeline(es, j) && !es[j].replyLost && Count(es, j) <= limit
  }

  /** Its entry was removed again before position `n`. */
  ghost predicate Removed(es: seq<Event>, j: nat, n: nat)
    requires j < |es| && n <= |es|
  {
    exists r | 0 <= r < n :: es[r] == Zrem(es[r].at, es[j].member)
  }

  /** What the code and the environment guarantee: unique members, a Redis
      clock that does not run backwards, and ZREM only after a rejection. */
  ghost predicate Plausible(limit: int, es: seq<Event>) {
    && (forall i, j | 0 <= i < j < |es| :: es[i].at <= es[j].at)
    && (forall i, j | 0 <= i < j < |es| && es[i].Pipeline? && es[j].Pipeline? :: es[i].member != es[j].member)
    && (forall j | 0 <= j < |es| && es[j].Pipeline? :: 0.0 <= es[j].score)
    && (forall j | 0 <= j < |es| && Accepted(limit, es, j) :: !Removed(es, j, |es|))
    && (forall j | 0 <= j < |es| && es[j].Pipeline? :: !Removed(es, j, j))
  }

  /** Callers' timestamps are at most `d` out of order when pipelines execute. */
  ghost predicate Ordered(d: real, es: seq<Event>) {
    forall i, j | 0 <= i < j < |es| && es[i].Pipeline? && es[j].Pipeline? :: es[j].score >= es[i].score - d
  }

  /** EXPIRE never takes an entry that a later pipeline would count: between two
      pipelines less than 60 - d apart by their timestamps, each command finds
      that a pipeline renewed the key less than 60 seconds of Redis time ago. */
  ghost predicate Renewed(d: real, es: seq<Event>) {
    forall i, n, j | 0 <= i < n <= j < |es| && InReach(d, es, i, j) :: RenewedSince(es, i, n)
  }

  ghost predicate InReach(d: real, es: seq<Event>, i: nat, j: nat) {
    IsPipeline(es, i) && IsPipeline(es, j) && es[j].score - es[i].score < WINDOW - d
  }

  ghost predicate RenewedSince(es: seq<Event>, i: nat, n: nat)
    requires n < |es|
  {
    exists p | i <= p < n && IsPipeline(es, p) :: es[n].at < es[p].at + WINDOW
  }

  /* ---------- what stays in the key ---------- */

  /** Every pipeline prolongs the life of the key. */
  lemma {:induction false} Prolonged(limit: int, es: seq<Event>, p: nat, n: nat)
    requires Plausible(limit, es) && IsPipeline(es, p) && p < n <= |es|
    ensures es[p].at + WINDOW <= Run(es[..n]).expireAt
  {
    assert es[..n][..n - 1] == es[..n - 1];
    if p < n - 1 {
      Prolonged(limit, es, p, n - 1);
      assert es[p].at <= es[n - 1].at;
    }
  }

  lemma RenewedIsLive(limit: int, es: seq<Event>, i: nat, n: nat)
    requires Plausible(limit, es) && n < |es| && RenewedSince(es, i, n)
    ensures Live(Run(es[..n]), es[n].at) == Run(es[..n]).scores
  {
    var p :| i <= p < n && IsPipeline(es, p) && es[n].at < es[p].at + WINDOW;
    Prolonged(limit, es, p, n);
  }

  /** The entry of the pipeline at `i` is in the key. */
  ghost predicate Kept(es: seq<Event>, i: nat, n: nat)
    requires IsPipeline(es, i) && n <= |es|
  {
    var scores := Run(es[..n]).scores;
    es[i].member in scores && scores[es[i].member] == es[i].score
  }

  /** One command that neither expires, removes nor prunes the entry. */
  lemma KeptByStep(es: seq<Event>, i: nat, n: nat)
    requires IsPipeline(es, i) && i < n < |es| && Kept(es, i, n)
    requires Live(Run(es[..n]), es[n].at) == Run(es[..n]).scores
    requires es[n].member != es[i].member
    requires es[n].Pipeline? ==> es[n].score - WINDOW < es[i].score
    ensures Kept(es, i, n + 1)
  {
    assert es[..n + 1][..n] == es[..n];
  }

  lemma KeptAtFirst(es: seq<Event>, i: nat)
    requires IsPipeline(es, i)
    ensures Kept(es, i, i + 1)
  {
    assert es[..i + 1][..i] == es[..i];
  }

  lemma MembersDiffer(limit: int, es: seq<Event>, i: nat, j: nat)
    requires Plausible(limit, es) && IsPipeline(es, i) && IsPipeline(es, j) && i != j
    ensures es[i].member != es[j].member
  {
    assert i < j || j < i;
  }

  /** What the command at `n` is to an entry that a later pipeline counts. */
  lemma SparedAt(limit: int, es: seq<Event>, d: real, i: nat, n: nat, j: nat)
    requires Plausible(limit, es) && Ordered(d, es) && Renewed(d, es) && 0.0 <= d
    requires InReach(d, es, i, j) && i < n <= j && !Removed(es, i, n + 1)
    ensures RenewedSince(es, i, n) && es[n].member != es[i].member
    ensures es[n].Pipeline? ==> es[n].score - WINDOW < es[i].score
  {
    if es[n].Pipeline? {
      MembersDiffer(limit, es, i, n);
      assert n == j || es[j].score >= es[n].score - d;
    } else {
      assert es[n] == Zrem(es[n].at, es[n].member);
    }
  }

  lemma RemovedLater(es: seq<Event>, i: nat, m: nat, n: nat)
    requires i < |es| && m <= n <= |es| && !Removed(es, i, n)
    ensures !Removed(es, i, m)
  {
  }

  /** An entry that is young at position `j` has been in the key ever since. */
  lemma {:induction false} Survives(limit: int, es: seq<Event>, d: real, i: nat, j: nat, n: nat)
    requires Plausible(limit, es) && Ordered(d, es) && Renewed(d, es) && 0.0 <= d
    requires IsPipeline(es, i) && IsPipeline(es, j) && i < n <= j + 1 && (i < j ==> InReach(d, es, i, j))
    requires !Removed(es, i, n)
    ensures Kept(es, i, n)
  {
    if n == i + 1 {
      KeptAtFirst(es, i);
    } else {
      RemovedLater(es, i, n - 1, n);
      Survives(limit, es, d, i, j, n - 1);
      SparedAt(limit, es, d, i, n - 1, j);
      RenewedIsLive(limit, es, i, n - 1);
      KeptByStep(es, i, n - 1);
    }
  }

  /** Every entry of the key was put there by a pipeline and not removed since. */
  lemma {:induction false} Origin(limit: int, es: seq<Event>, n: nat, m: Member) returns (i: nat)
    requires Plausible(limit, es) && n <= |es| && m in Run(es[..n]).scores
    ensures i < n && IsPipeline(es, i) && es[i].member == m && es[i].score == Run(es[..n]).scores[m]
    ensures !Removed(es, i, n)
  {
    var e := es[n - 1];
    assert es[..n][..n - 1] == es[..n - 1];
    if e.Pipeline? && e.member == m {
      i := n - 1;
    } else {
      i := Origin(limit, es, n - 1, m);
    }
  }

  /* ---------- window safety ---------- */

  ghost predicate Pipelines(es: seq<Event>, ks: set<nat>) {
    forall k | k in ks :: k < |es| && es[k].Pipeline?
  }

  ghost function Members(es: seq<Event>, ks: set<nat>): set<Member>
    requires Pipelines(es, ks)
  {
    set k | k in ks :: es[k].member
  }

  lemma {:induction false} DistinctMembers(limit: int, es: seq<Event>, ks: set<nat>)
    requires Plausible(limit, es)
    requires Pipelines(es, ks)
    ensures |Members(es, ks)| == |ks|
  {
    if ks == {} {
      assert Members(es, ks) == {};
    } else {
      var k :| k in ks;
      var rest := ks - {k};
      DistinctMembers(limit, es, rest);
      assert Members(es, ks) == Members(es, rest) + {es[k].member};
      forall other | other in rest ensures es[other].member != es[k].member {
        MembersDiffer(limit, es, other, k);
      }
    }
  }

  lemma {:induction false} Latest(ks: set<nat>) returns (last: nat)
    requires ks != {}
    ensures last in ks && forall k | k in ks :: k <= last
  {
    var k :| k in ks;
    if ks == {k} {
      last := k;
    } else {
      var l := Latest(ks - {k});
      last := if l < k then k else l;
      assert forall e | e in ks :: e == k || e in ks - {k};
    }
  }

  /** The checks at these positions fit in one half-open window of length `length`. */
  ghost predicate FitIn(es: seq<Event>, ks: set<nat>, length: real)
    requires Pipelines(es, ks)
  {
    forall i, j | i in ks && j in ks :: es[j].score - es[i].score < length
  }

  lemma AcceptedSurvives(limit: int, es: seq<Event>, d: real, i: nat, j: nat)
    requires Plausible(limit, es) && Ordered(d, es) && Renewed(d, es) && 0.0 <= d
    requires Accepted(limit, es, i) && Accepted(limit, es, j) && i <= j && es[j].score - es[i].score < WINDOW - d
    ensures es[i].member in Run(es[..j + 1]).scores
  {
    assert !Removed(es, i, |es|);
    RemovedLater(es, i, j + 1, |es|);
    Survives(limit, es, d, i, j, j + 1);
  }

  /** Window safety: whatever removals are delayed or lost, with timestamps at
      most `d` out of order no window of length 60 - d holds more than `limit` accepted checks. */
  lemma WindowSafety(limit: int, es: seq<Event>, d: real, ks: set<nat>)
    requires Plausible(limit, es) && Ordered(d, es) && Renewed(d, es) && 0.0 <= d && 0 <= limit
    requires Pipelines(es, ks) && forall k | k in ks :: Accepted(limit, es, k)
    requires FitIn(es, ks, WINDOW - d)
    ensures |ks| <= limit
  {
    if ks != {} {
      var j := Latest(ks);
      forall i | i in ks ensures es[i].member in Run(es[..j + 1]).scores {
        AcceptedSurvives(limit, es, d, i, j);
      }
      DistinctMembers(limit, es, ks);
      KeysSize(Members(es, ks), Run(es[..j + 1]).scores.Keys);
    }
  }

  /* ---------- spurious rejections ---------- */

  /** Positions before `j` whose check was accepted and is younger than the window. */
  ghost function LiveAccepted(limit: int, es: seq<Event>, j: nat): set<nat>
    requires IsPipeline(es, j)
  {
    set i: nat | i < j && Accepted(limit, es, i) && es[j].score - es[i].score < WINDOW
  }

  /** Positions before `j` of young entries nobody was granted and no ZREM has reached yet. */
  ghost function LivePending(limit: int, es: seq<Event>, j: nat): set<nat>
    requires IsPipeline(es, j)
  {
    set i: nat | i < j && IsPipeline(es, i) && !Accepted(limit, es, i) && !Removed(es, i, j)
                 && es[j].score - es[i].score < WINDOW
  }

  ghost function Present(limit: int, es: seq<Event>, j: nat): set<nat>
    requires IsPipeline(es, j)
  {
    LiveAccepted(limit, es, j) + LivePending(limit, es, j) + {j}
  }

  lemma StoredIsYoung(es: seq<Event>, j: nat, m: Member)
    requires IsPipeline(es, j) && m in Run(es[..j + 1]).scores
    ensures var score := Run(es[..j + 1]).scores[m]; score < 0.0 || es[j].score - WINDOW < score
  {
    assert es[..j + 1][..j] == es[..j];
  }

  lemma StoredIsPresent(limit: int, es: seq<Event>, j: nat)
    requires Plausible(limit, es) && IsPipeline(es, j)
    ensures Run(es[..j + 1]).scores.Keys <= Members(es, Present(limit, es, j))
  {
    forall m | m in Run(es[..j + 1]).scores ensures m in Members(es, Present(limit, es, j)) {
      var i := Origin(limit, es, j + 1, m);
      StoredIsYoung(es, j, m);
      assert !Removed(es, i, j);
      assert i in Present(limit, es, j);
    }
  }

  lemma PresentSurvives(limit: int, es: seq<Event>, i: nat, j: nat)
    requires Plausible(limit, es) && IsPipeline(es, j) && Ordered(0.0, es) && Renewed(0.0, es)
    requires i in Present(limit, es, j)
    ensures es[i].member in Run(es[..j + 1]).scores
  {
    assert !Removed(es, i, j + 1) by {
      if Accepted(limit, es, i) {
        assert !Removed(es, i, |es|);
        RemovedLater(es, i, j + 1, |es|);
      } else {
        assert !Removed(es, i, j);
      }
    }
    Survives(limit, es, 0.0, i, j, j + 1);
  }

  lemma PresentIsStored(limit: int, es: seq<Event>, j: nat)
    requires Plausible(limit, es) && IsPipeline(es, j) && Ordered(0.0, es) && Renewed(0.0, es)
    ensures Members(es, Present(limit, es, j)) <= Run(es[..j + 1]).scores.Keys
  {
    forall i | i in Present(limit, es, j) ensures es[i].member in Run(es[..j + 1]).scores {
      PresentSurvives(limit, es, i, j);
    }
  }

  lemma StoredExactly(limit: int, es: seq<Event>, j: nat)
    requires Plausible(limit, es) && IsPipeline(es, j) && Ordered(0.0, es) && Renewed(0.0, es)
    ensures Count(es, j) == |Members(es, Present(limit, es, j))|
  {
    var stored := Run(es[..j + 1]).scores;
    StoredIsPresent(limit, es, j);
    PresentIsStored(limit, es, j);
    assert stored.Keys == Members(es, Present(limit, es, j));
    assert |stored| == |stored.Keys|;
  }

  lemma PresentSize(limit: int, es: seq<Event>, j: nat)
    requires Plausible(limit, es) && IsPipeline(es, j)
    ensures |Members(es, Present(limit, es, j))| == |LiveAccepted(limit, es, j)| + |LivePending(limit, es, j)| + 1
  {
    DistinctMembers(limit, es, Present(limit, es, j));
  }

  /** Bounded spurious rejection, for any skew: a rejected check had at least
      `limit` live entries beside it, accepted or still awaiting removal. */
  lemma RejectionHasCause(limit: int, es: seq<Event>, j: nat)
    requires Plausible(limit, es) && IsPipeline(es, j) && Count(es, j) > limit
    ensures |LiveAccepted(limit, es, j)| + |LivePending(limit, es, j)| >= limit
  {
    StoredIsPresent(limit, es, j);
    PresentSize(limit, es, j);
    KeysSize(Run(es[..j + 1]).scores.Keys, Members(es, Present(limit, es, j)));
  }

  /** With clocks in step the cause is exact: the pipeline rejects if and only
      if live accepted and pending entries fill the limit. With none pending
      this is the one-at-a-time rule of `Decide`. */
  lemma RejectedExactlyWhenFull(limit: int, es: seq<Event>, j: nat)
    requires Plausible(limit, es) && IsPipeline(es, j) && Ordered(0.0, es) && Renewed(0.0, es)
    ensures Count(es, j) > limit <==> |LiveAccepted(limit, es, j)| + |LivePending(limit, es, j)| >= limit
  {
    StoredExactly(limit, es, j);
    PresentSize(limit, es, j);
  }

  /** The history a one-at-a-time limiter would have at position `n`. */
  function AcceptedBefore(limit: int, es: seq<Event>, n: nat): Scores
    requires n <= |es|
  {
    if n == 0 then map[]
    else
      var h := AcceptedBefore(limit, es, n - 1);
      if Accepted(limit, es, n - 1) then h[es[n - 1].member := es[n - 1].score] else h
  }

  lemma {:induction false} HistoryHolds(limit: int, es: seq<Event>, n: nat, i: nat)
    requires Plausible(limit, es) && i < n <= |es| && Accepted(limit, es, i)
    ensures var h := AcceptedBefore(limit, es, n); es[i].member in h && h[es[i].member] == es[i].score
  {
    if i < n - 1 {
      HistoryHolds(limit, es, n - 1, i);
      assert es[n - 1].Pipeline? ==> es[i].member != es[n - 1].member;
    }
  }

  lemma {:induction false} HistoryOrigin(limit: int, es: seq<Event>, n: nat, m: Member) returns (i: nat)
    requires n <= |es| && m in AcceptedBefore(limit, es, n)
    ensures i < n && Accepted(limit, es, i) && es[i].member == m
  {
    if Accepted(limit, es, n - 1) && es[n - 1].member == m {
      i := n - 1;
    } else {
      i := HistoryOrigin(limit, es, n - 1, m);
    }
  }

  /** The history's window holds exactly the live accepted checks, with their timestamps. */
  lemma WindowMembers(limit: int, es: seq<Event>, j: nat)
    requires Plausible(limit, es) && IsPipeline(es, j)
    ensures InWindow(AcceptedBefore(limit, es, j), es[j].score).Keys == Members(es, LiveAccepted(limit, es, j))
    ensures forall i | i in LiveAccepted(limit, es, j) ::
              InWindow(AcceptedBefore(limit, es, j), es[j].score)[es[i].member] == es[i].score
  {
    var live := LiveAccepted(limit, es, j);
    var w := InWindow(AcceptedBefore(limit, es, j), es[j].score);
    forall m | m in w ensures m in Members(es, live) {
      var i := HistoryOrigin(limit, es, j, m);
      HistoryHolds(limit, es, j, i);
      assert i in live;
    }
    forall i | i in live ensures es[i].member in w && w[es[i].member] == es[i].score {
      HistoryHolds(limit, es, j, i);
    }
  }

  lemma WindowOfHistory(limit: int, es: seq<Event>, j: nat)
    requires Plausible(limit, es) && IsPipeline(es, j)
    ensures |InWindow(AcceptedBefore(limit, es, j), es[j].score)| == |LiveAccepted(limit, es, j)|
  {
    var w := InWindow(AcceptedBefore(limit, es, j), es[j].score);
    WindowMembers(limit, es, j);
    DistinctMembers(limit, es, LiveAccepted(limit, es, j));
    assert |w| == |w.Keys|;
  }

  /* ---------- the reply ---------- */

  /** What the caller of the pipeline at `j` makes of its reply. */
  function Reply(limit: int, es: seq<Event>, j: nat): Verdict
    requires IsPipeline(es, j)
  {
    OwnEntryIsStored(es, j);
    Answer(limit, Run(es[..j + 1]).scores, es[j].score)
  }

  lemma OwnEntryIsStored(es: seq<Event>, j: nat)
    requires IsPipeline(es, j)
    ensures Kept(es, j, j + 1) && Run(es[..j + 1]).scores != map[]
  {
    KeptAtFirst(es, j);
  }

  lemma StoredScore(limit: int, es: seq<Event>, j: nat, m: Member)
    requires Plausible(limit, es) && IsPipeline(es, j) && m in Run(es[..j + 1]).scores
    requires LivePending(limit, es, j) == {}
    ensures var w := InWindow(AcceptedBefore(limit, es, j), es[j].score);
            if m == es[j].member then Run(es[..j + 1]).scores[m] == es[j].score
            else m in w && Run(es[..j + 1]).scores[m] == w[m]
  {
    var i := Origin(limit, es, j + 1, m);
    if i == j {
    } else {
      MembersDiffer(limit, es, i, j);
      StoredIsYoung(es, j, m);
      assert !Removed(es, i, j);
      assert i in LiveAccepted(limit, es, j) + LivePending(limit, es, j);
      WindowMembers(limit, es, j);
    }
  }

  lemma StoredKeys(limit: int, es: seq<Event>, j: nat)
    requires Plausible(limit, es) && IsPipeline(es, j) && Ordered(0.0, es) && Renewed(0.0, es)
    requires LivePending(limit, es, j) == {}
    ensures var w := InWindow(AcceptedBefore(limit, es, j), es[j].score);
            es[j].member !in w && Run(es[..j + 1]).scores.Keys == w.Keys + {es[j].member}
  {
    WindowMembers(limit, es, j);
    StoredIsPresent(limit, es, j);
    PresentIsStored(limit, es, j);
    forall i | i in LiveAccepted(limit, es, j) ensures es[i].member != es[j].member {
      MembersDiffer(limit, es, i, j);
    }
  }

  /** With nothing pending the key holds the window of the history and the caller. */
  lemma StoredIsWindow(limit: int, es: seq<Event>, j: nat)
    requires Plausible(limit, es) && IsPipeline(es, j) && Ordered(0.0, es) && Renewed(0.0, es)
    requires LivePending(limit, es, j) == {}
    ensures es[j].member !in InWindow(AcceptedBefore(limit, es, j), es[j].score)
    ensures Run(es[..j + 1]).scores == InWindow(AcceptedBefore(limit, es, j), es[j].score)[es[j].member := es[j].score]
  {
    var stored, w := Run(es[..j + 1]).scores, InWindow(AcceptedBefore(limit, es, j), es[j].score);
    StoredKeys(limit, es, j);
    forall m | m in stored ensures stored[m] == w[es[j].member := es[j].score][m] {
      StoredScore(limit, es, j, m);
    }
  }

  lemma WindowIsPast(limit: int, es: seq<Event>, j: nat)
    requires Plausible(limit, es) && IsPipeline(es, j) && Ordered(0.0, es)
    ensures var w := InWindow(AcceptedBefore(limit, es, j), es[j].score);
            forall m | m in w :: es[j].score - WINDOW < w[m] <= es[j].score
  {
    var w := InWindow(AcceptedBefore(limit, es, j), es[j].score);
    forall m | m in w ensures w[m] <= es[j].score {
      var i := HistoryOrigin(limit, es, j, m);
      HistoryHolds(limit, es, j, i);
    }
  }

  /** With timestamps in order, the key renewed and no removal outstanding, the
      interleaved limiter answers like the one-at-a-time limiter on the same
      accepted history, retry, remaining and reset included. */
  lemma AgreesWithSequential(limit: int, es: seq<Event>, j: nat)
    requires Plausible(limit, es) && IsPipeline(es, j) && Ordered(0.0, es) && Renewed(0.0, es)
    requires LivePending(limit, es, j) == {}
    ensures Reply(limit, es, j) == Decide(limit, AcceptedBefore(limit, es, j), es[j].score)
    ensures !es[j].replyLost ==> (Accepted(limit, es, j) <==> Reply(limit, es, j).allowed)
  {
    var h := AcceptedBefore(limit, es, j);
    OwnEntryIsStored(es, j);
    StoredIsWindow(limit, es, j);
    WindowIsPast(limit, es, j);
    AnswerIsDecision(limit, InWindow(h, es[j].score), h, es[j].member, es[j].score);
  }
}
