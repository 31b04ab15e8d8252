/** The sliding-window rate limiter, checked one call at a time against the
    plain history of accepted checks. */
module RateLimiters {
  import opened Prelude
  import opened SortedSets

  const WINDOW := 60.0

  datatype Verdict = Verdict(allowed: bool, retryAfter: real, remaining: int, resetAfter: int)

  /* ---------- the specification: a history of accepted checks ---------- */

  /** The entries younger than the window at time `now`. */
  function InWindow(h: Scores, now: real): Scores {
    map m | m in h && now - WINDOW < h[m] :: h[m]
  }

  /** When the oldest entry of `w` leaves the window, counted from `now`. */
  function ResetAfter(w: Scores, now: real): real {
    match Oldest(w)
    case None => WINDOW
    case Some(oldest) => oldest + WINDOW - now
  }

  /** What a check at time `now` answers, given every check accepted so far. */
  function Decide(limit: int, h: Scores, now: real): Verdict {
    var w := InWindow(h, now);
    var reset := ResetAfter(w, now);
    if |w| < limit
    then Verdict(true, 0.0, limit - |w| - 1, reset.Floor)
    else Verdict(false, reset, 0, reset.Floor)
  }

  function Admit(limit: int, h: Scores, m: Member, now: real): Scores {
    if Decide(limit, h, now).allowed then h[m := now] else h
  }

  ghost predicate UpTo(h: Scores, now: real) {
    forall m | m in h :: 0.0 <= h[m] <= now
  }

  /** No instant from `now` on sees more than `limit` accepted checks in its window. */
  ghost predicate Capped(limit: int, h: Scores, now: real) {
    forall t | now <= t :: |InWindow(h, t)| <= limit
  }

  lemma SubsetSize(a: Scores, b: Scores)
    requires a.Keys <= b.Keys
    ensures |a| <= |b|
  {
    assert |a| == |a.Keys| && |b| == |b.Keys|;
    KeysSize(a.Keys, b.Keys);
  }

  lemma {:induction false} KeysSize(a: set<Member>, b: set<Member>)
    requires a <= b
    ensures |a| <= |b|
  {
    assert b == a + (b - a);
  }

  lemma AdmitKeepsCap(limit: int, h: Scores, m: Member, now: real)
    requires 0 <= limit && UpTo(h, now) && 0.0 <= now && Capped(limit, h, now) && m !in h
    ensures UpTo(Admit(limit, h, m, now), now) && Capped(limit, Admit(limit, h, m, now), now)
  {
    var h' := Admit(limit, h, m, now);
    forall t | now <= t ensures |InWindow(h', t)| <= limit {
      if Decide(limit, h, now).allowed {
        SubsetSize(InWindow(h', t), InWindow(h, now)[m := now]);
      }
    }
  }

  /* ---------- the retry time ---------- */

  lemma RetryWithinWindow(w: Scores, now: real)
    requires forall m | m in w :: now - WINDOW < w[m] <= now
    ensures 0.0 < ResetAfter(w, now) <= WINDOW
  {
    match Oldest(w)
    case None =>
    case Some(oldest) =>
      var m :| m in w && w[m] == oldest;
  }

  /** Once a check at `t` has been rejected and nothing is accepted meanwhile,
      a check at `later` is rejected exactly while the retry time runs. */
  lemma RejectedExactlyUntilRetry(limit: int, h: Scores, t: real, later: real)
    requires 1 <= limit && UpTo(h, t) && Capped(limit, h, t) && t <= later
    requires !Decide(limit, h, t).allowed
    ensures 0.0 < Decide(limit, h, t).retryAfter <= WINDOW
    ensures Decide(limit, h, later).allowed <==> later >= t + Decide(limit, h, t).retryAfter
    ensures !Decide(limit, h, later).allowed ==>
              later + Decide(limit, h, later).retryAfter == t + Decide(limit, h, t).retryAfter
  {
    var w, w' := InWindow(h, t), InWindow(h, later);
    RetryWithinWindow(w, t);
    assert |w| == limit;
    var oldest := Oldest(w).value;
    var m :| m in w && w[m] == oldest;
    if later < oldest + WINDOW {
      assert w' == w;
    } else {
      assert m !in w';
      SubsetSize(w', w - {m});
    }
  }

  /** The Retry-After header is the floor of that time: a check made after
      waiting it out is accepted exactly when the time was whole. */
  lemma TruncatedRetrySufficesExactlyWhenWhole(limit: int, h: Scores, t: real)
    requires 1 <= limit && UpTo(h, t) && Capped(limit, h, t) && !Decide(limit, h, t).allowed
    ensures var retry := Decide(limit, h, t).retryAfter;
            retry >= 0.0 &&
            var header := Truncate(retry) as real;
            Decide(limit, h, t + header).allowed <==> header == retry
  {
    RejectedExactlyUntilRetry(limit, h, t, t);
    var header := Truncate(Decide(limit, h, t).retryAfter) as real;
    assert 0.0 <= header <= Decide(limit, h, t).retryAfter;
    RejectedExactlyUntilRetry(limit, h, t, t + header);
  }

  datatype Check = Check(member: Member, at: real)

  function HistoryAfter(limit: int, h: Scores, cs: seq<Check>): Scores
    decreases |cs|
  {
    if cs == [] then h
    else HistoryAfter(limit, Admit(limit, h, cs[0].member, cs[0].at), cs[1..])
  }

  /** Exact retry time over any burst of further checks made one at a time: as
      long as all of them come before the deadline all are rejected, and the
      next one is accepted exactly from the deadline on. */
  lemma {:induction false} ExactRetryTime(limit: int, h: Scores, t: real, burst: seq<Check>, next: real)
    requires 1 <= limit && UpTo(h, t) && Capped(limit, h, t)
    requires !Decide(limit, h, t).allowed
    requires forall i | 0 <= i < |burst| :: t <= burst[i].at < t + Decide(limit, h, t).retryAfter
    requires t <= next
    ensures HistoryAfter(limit, h, burst) == h
    ensures Decide(limit, HistoryAfter(limit, h, burst), next).allowed <==>
            next >= t + Decide(limit, h, t).retryAfter
  {
    if burst == [] {
      RejectedExactlyUntilRetry(limit, h, t, next);
    } else {
      RejectedExactlyUntilRetry(limit, h, t, burst[0].at);
      ExactRetryTime(limit, h, t, burst[1..], next);
    }
  }

  /* ---------- fractional retry times ---------- */

  /** Checks at time 0, one after the other. */
  function AtZero(n: nat): seq<Check> {
    if n == 0 then [] else AtZero(n - 1) + [Check(n - 1, 0.0)]
  }

  function AcceptedAtZero(n: nat): Scores {
    if n == 0 then map[] else AcceptedAtZero(n - 1)[n - 1 := 0.0]
  }

  lemma {:induction false} AcceptedAtZeroHolds(n: nat)
    ensures |AcceptedAtZero(n)| == n
    ensures forall m: Member :: m in AcceptedAtZero(n) <==> m < n
    ensures forall m | m in AcceptedAtZero(n) :: AcceptedAtZero(n)[m] == 0.0
  {
    if n > 0 {
      AcceptedAtZeroHolds(n - 1);
    }
  }

  lemma {:induction false} HistoryAppend(limit: int, h: Scores, cs: seq<Check>, c: Check)
    ensures HistoryAfter(limit, h, cs + [c]) == Admit(limit, HistoryAfter(limit, h, cs), c.member, c.at)
    decreases |cs|
  {
    if cs == [] {
      assert [] + [c] == [c];
      assert HistoryAfter(limit, h, [c]) == HistoryAfter(limit, Admit(limit, h, c.member, c.at), []);
    } else {
      assert (cs + [c])[0] == cs[0] && (cs + [c])[1..] == cs[1..] + [c];
      HistoryAppend(limit, Admit(limit, h, cs[0].member, cs[0].at), cs[1..], c);
    }
  }

  lemma OneMoreAccepted(limit: int, n: nat)
    requires 0 < n <= limit
    ensures Admit(limit, AcceptedAtZero(n - 1), n - 1, 0.0) == AcceptedAtZero(n)
  {
    AcceptedAtZeroHolds(n - 1);
    assert InWindow(AcceptedAtZero(n - 1), 0.0) == AcceptedAtZero(n - 1);
  }

  lemma AllAcceptedStep(limit: int, n: nat, cs: seq<Check>)
    requires 0 < n <= limit && HistoryAfter(limit, map[], cs) == AcceptedAtZero(n - 1)
    ensures HistoryAfter(limit, map[], cs + [Check(n - 1, 0.0)]) == AcceptedAtZero(n)
  {
    HistoryAppend(limit, map[], cs, Check(n - 1, 0.0));
    OneMoreAccepted(limit, n);
  }

  lemma {:induction false} AllAccepted(limit: int, n: nat)
    requires n <= limit
    ensures HistoryAfter(limit, map[], AtZero(n)) == AcceptedAtZero(n)
  {
    if n > 0 {
      AllAccepted(limit, n - 1);
      AllAcceptedStep(limit, n, AtZero(n - 1));
    }
  }

  lemma FullSince(limit: nat, now: real)
    requires 1 <= limit && 0.0 <= now < WINDOW
    ensures var v := Decide(limit, AcceptedAtZero(limit), now); !v.allowed && v.retryAfter == WINDOW - now
  {
    var h := AcceptedAtZero(limit);
    AcceptedAtZeroHolds(limit);
    assert InWindow(h, now) == h && 0 in h;
    assert IsLeast(h, Oldest(h).value);
  }

  /** The Retry-After header does come too early: for every limit, a check half
      a second after a full burst is rejected with 59.5 seconds to go, and is
      rejected again after the 59 that the header names. */
  lemma FractionalRetryIsReached(limit: int) returns (h: Scores)
    requires 1 <= limit
    ensures h == HistoryAfter(limit, map[], AtZero(limit))
    ensures !Decide(limit, h, 0.5).allowed && Decide(limit, h, 0.5).retryAfter == 59.5
    ensures !Decide(limit, h, 0.5 + Truncate(59.5) as real).allowed
  {
    h := AcceptedAtZero(limit);
    AllAccepted(limit, limit);
    FullSince(limit, 0.5);
    FullSince(limit, 59.5);
  }

  /* ---------- what remaining and reset promise ---------- */

  /** Each check of a burst is accepted, given those before it. */
  ghost predicate AllAdmitted(limit: int, h: Scores, cs: seq<Check>) {
    forall i | 0 <= i < |cs| :: Decide(limit, HistoryAfter(limit, h, cs[..i]), cs[i].at).allowed
  }

  /** A burst at time `now` whose members are new. */
  ghost predicate FreshAt(h: Scores, cs: seq<Check>, now: real) {
    && (forall i | 0 <= i < |cs| :: cs[i].at == now && cs[i].member !in h)
    && (forall i, j | 0 <= i < j < |cs| :: cs[i].member != cs[j].member)
  }

  lemma AdmittedOneByOne(limit: int, h: Scores, cs: seq<Check>)
    requires cs != []
    ensures AllAdmitted(limit, h, cs) <==>
            && Decide(limit, h, cs[0].at).allowed
            && AllAdmitted(limit, Admit(limit, h, cs[0].member, cs[0].at), cs[1..])
  {
    var h', rest := Admit(limit, h, cs[0].member, cs[0].at), cs[1..];
    forall i | 0 < i < |cs| ensures HistoryAfter(limit, h, cs[..i]) == HistoryAfter(limit, h', rest[..i - 1]) {
      assert cs[..i][1..] == rest[..i - 1];
    }
    assert cs[..0] == [];
    if AllAdmitted(limit, h, cs) {
      assert Decide(limit, HistoryAfter(limit, h, cs[..0]), cs[0].at).allowed;
      forall i | 0 <= i < |rest| ensures Decide(limit, HistoryAfter(limit, h', rest[..i]), rest[i].at).allowed {
        assert rest[i] == cs[i + 1];
      }
    }
  }

  lemma AdmittedCounts(limit: int, h: Scores, c: Check, now: real)
    requires UpTo(h, now) && 0.0 <= now && c.at == now && c.member !in h && Decide(limit, h, now).allowed
    ensures var h' := Admit(limit, h, c.member, now);
            UpTo(h', now) && |InWindow(h', now)| == |InWindow(h, now)| + 1
  {
    assert InWindow(h[c.member := now], now) == InWindow(h, now)[c.member := now];
  }

  /** A burst is accepted as a whole exactly when it and the window fit in the limit. */
  lemma {:induction false} RoomExactly(limit: int, h: Scores, cs: seq<Check>, now: real)
    requires UpTo(h, now) && 0.0 <= now && FreshAt(h, cs, now)
    ensures AllAdmitted(limit, h, cs) <==> cs == [] || |InWindow(h, now)| + |cs| <= limit
    decreases |cs|
  {
    if cs != [] {
      AdmittedOneByOne(limit, h, cs);
      if Decide(limit, h, now).allowed {
        AdmittedCounts(limit, h, cs[0], now);
        RoomExactly(limit, Admit(limit, h, cs[0].member, now), cs[1..], now);
      }
    }
  }

  /** `remaining` is the number of further checks that would be accepted right
      after this one: a burst of fresh checks is accepted as a whole exactly if
      it is no longer than that. */
  lemma RemainingExactly(limit: int, h: Scores, m: Member, now: real, cs: seq<Check>)
    requires UpTo(h, now) && 0.0 <= now && m !in h && FreshAt(Admit(limit, h, m, now), cs, now)
    ensures AllAdmitted(limit, Admit(limit, h, m, now), cs) <==> |cs| <= Decide(limit, h, now).remaining
  {
    if Decide(limit, h, now).allowed {
      AdmittedCounts(limit, h, Check(m, now), now);
    }
    RoomExactly(limit, Admit(limit, h, m, now), cs, now);
  }

  /** `d` seconds from `now` the first of the window's checks, this one
      included, leaves the window, and none does before. */
  ghost predicate FirstLeavesAfter(z: Scores, now: real, d: real) {
    forall t | now <= t :: InWindow(z, t) == InWindow(z, now) <==> t < now + d
  }

  /** The reset time of every answer is the floor of that time, and the retry
      time of a rejection is that time itself. */
  lemma ResetExactly(limit: int, h: Scores, m: Member, now: real) returns (d: real)
    requires UpTo(h, now) && m !in h
    ensures 0.0 < d <= 60.0 && FirstLeavesAfter(h[m := now], now, d)
    ensures Decide(limit, h, now).resetAfter == d.Floor
    ensures Decide(limit, h, now).retryAfter == if Decide(limit, h, now).allowed then 0.0 else d
  {
    var w, z := InWindow(h, now), h[m := now];
    var z' := w[m := now];
    assert InWindow(z, now) == z';
    d := ResetAfter(w, now);
    RetryWithinWindow(w, now);
    OwnEntryKeepsReset(w, m, now);
    assert m in z';
    var oldest := Oldest(z').value;
    var first :| first in z' && z'[first] == oldest;
    forall t | now <= t ensures InWindow(z, t) == z' <==> t < now + d {
      if t < now + d {
        assert forall e | e in z' :: t - WINDOW < z[e];
      } else {
        assert first !in InWindow(z, t);
      }
    }
  }

  /* ---------- the implementation ---------- */

  /** ZADD then ZREMRANGEBYSCORE: what the pipeline leaves in the key. */
  function AfterPipeline(z: Scores, m: Member, now: real): Scores {
    ZRemRange(ZAdd(z, m, now), now - WINDOW)
  }

  function KeyOf(clientId: string): string {
    "rl:" + clientId
  }

  lemma KeyOfIsInjective(a: string, b: string)
    requires KeyOf(a) == KeyOf(b)
    ensures a == b
  {
    assert a == KeyOf(a)[3..] && b == KeyOf(b)[3..];
  }

  /** The stored key holds a part of its history, and lacks only entries that
      have left the window of the latest check. */
  ghost predicate Tracks(limit: int, k: Key, h: Scores, last: real) {
    && UpTo(h, last)
    && k.scores.Keys <= h.Keys
    && (forall m | m in k.scores :: k.scores[m] == h[m])
    && (forall m | m in h && m !in k.scores :: h[m] <= last - WINDOW)
    && (forall m | m in h :: h[m] + WINDOW <= k.expireAt)
    && (0 <= limit ==> Capped(limit, h, last))
  }

  /** What a command at time `now` finds: an expired key is gone. */
  function Live(k: Key, now: real): Scores {
    if now < k.expireAt then k.scores else map[]
  }

  lemma TracksLater(limit: int, k: Key, h: Scores, last: real, now: real)
    requires Tracks(limit, k, h, last) && last <= now
    ensures Tracks(limit, k, h, now)
    ensures InWindow(Live(k, now), now) == InWindow(k.scores, now) == InWindow(h, now)
  {
  }

  /** The pipeline counts the accepted checks in the window, and the caller. */
  lemma PipelineSeesHistory(limit: int, k: Key, h: Scores, last: real, m: Member, now: real)
    requires Tracks(limit, k, h, last) && 0.0 <= last <= now && m !in h
    ensures AfterPipeline(Live(k, now), m, now) == InWindow(h, now)[m := now]
    ensures |AfterPipeline(Live(k, now), m, now)| == |InWindow(h, now)| + 1
    ensures ZRem(AfterPipeline(Live(k, now), m, now), m) == InWindow(h, now)
  {
    TracksLater(limit, k, h, last, now);
    var z := AfterPipeline(Live(k, now), m, now);
    assert z == InWindow(h, now)[m := now] by {
      assert forall e :: e in z <==> e in InWindow(h, now)[m := now];
    }
    assert m !in InWindow(h, now);
  }

  /** The caller's own entry does not move the oldest score of a full window. */
  lemma OwnEntryKeepsReset(w: Scores, m: Member, now: real)
    requires m !in w && forall e | e in w :: now - WINDOW < w[e] <= now
    ensures ResetAfter(w[m := now], now) == ResetAfter(w, now)
  {
    var with := w[m := now];
    assert m in with;
    var oldest := Oldest(with).value;
    var e :| e in with && with[e] == oldest;
    if w == map[] {
      assert oldest == now;
    } else {
      var first := Oldest(w).value;
      var f :| f in w && w[f] == first;
      assert with[f] == first;
    }
  }

  /** The key left behind by a check tracks the new history. */
  lemma CheckKeepsTrack(limit: int, h: Scores, m: Member, now: real)
    requires 0.0 <= now && UpTo(h, now) && m !in h && (0 <= limit ==> Capped(limit, h, now))
    ensures var h' := Admit(limit, h, m, now);
            Tracks(limit, Key(InWindow(h', now), now + WINDOW), h', now)
    ensures Decide(limit, h, now).allowed ==> InWindow(h, now)[m := now] == InWindow(Admit(limit, h, m, now), now)
  {
    if 0 <= limit {
      AdmitKeepsCap(limit, h, m, now);
    }
  }

  /** Every key of the store tracks its history. */
  ghost predicate Consistent(limit: int, redis: map<string, Key>, accepted: map<string, Scores>, last: real) {
    && 0.0 <= last
    && accepted.Keys == redis.Keys
    && (forall key | key in redis :: Tracks(limit, redis[key], accepted[key], last))
  }

  function HistoryOf(accepted: map<string, Scores>, key: string): Scores {
    if key in accepted then accepted[key] else map[]
  }

  function Load(redis: map<string, Key>, key: string, now: real): Scores {
    if key in redis then Live(redis[key], now) else map[]
  }

  /** The caller's answer and the entries it leaves, computed from the
      pipeline's result `z`. */
  function Answer(limit: int, z: Scores, now: real): Verdict
    requires z != map[]
  {
    var reset := Max(0.0, Oldest(z).value + WINDOW - now);
    if |z| <= limit
    then Verdict(true, 0.0, if 0 < limit - |z| then limit - |z| else 0, Truncate(reset))
    else Verdict(false, reset, 0, Truncate(reset))
  }

  function Kept(limit: int, z: Scores, m: Member): Scores {
    if |z| <= limit then z else ZRem(z, m)
  }

  /** The caller answers as the history demands if the pipeline left the window and its own entry. */
  lemma AnswerIsDecision(limit: int, w: Scores, h: Scores, m: Member, now: real)
    requires w == InWindow(h, now) && m !in w && forall e | e in w :: w[e] <= now
    ensures m in w[m := now] && Answer(limit, w[m := now], now) == Decide(limit, h, now)
  {
    RetryWithinWindow(w, now);
    OwnEntryKeepsReset(w, m, now);
  }

  /** What the pipeline's result `z` must say about the history `h`. */
  ghost predicate Reports(limit: int, z: Scores, h: Scores, m: Member, now: real) {
    && z != map[]
    && Answer(limit, z, now) == Decide(limit, h, now)
    && Kept(limit, z, m) == InWindow(Admit(limit, h, m, now), now)
  }

  lemma OneKeyCheck(limit: int, k: Key, h: Scores, last: real, m: Member, now: real)
    requires Tracks(limit, k, h, last) && 0.0 <= last <= now && m !in h
    ensures Reports(limit, AfterPipeline(Live(k, now), m, now), h, m, now)
  {
    PipelineSeesHistory(limit, k, h, last, m, now);
    RetryWithinWindow(InWindow(h, now), now);
    OwnEntryKeepsReset(InWindow(h, now), m, now);
    CheckKeepsTrack(limit, h, m, now);
  }

  lemma UpdateKeepsConsistent(limit: int, redis: map<string, Key>, accepted: map<string, Scores>, last: real,
                              key: string, k: Key, h: Scores, now: real)
    requires Consistent(limit, redis, accepted, last) && last <= now && Tracks(limit, k, h, now)
    ensures Consistent(limit, redis[key := k], accepted[key := h], now)
  {
    forall other | other in redis && other != key
      ensures Tracks(limit, redis[other], accepted[other], now)
    {
      TracksLater(limit, redis[other], accepted[other], last, now);
    }
  }

  /** What one whole check does to the key, the history and the answer. */
  lemma CheckMeetsHistory(limit: int, redis: map<string, Key>, accepted: map<string, Scores>, last: real,
                          key: string, m: Member, now: real)
    requires Consistent(limit, redis, accepted, last) && last <= now && m !in HistoryOf(accepted, key)
    ensures Reports(limit, AfterPipeline(Load(redis, key, now), m, now), HistoryOf(accepted, key), m, now)
    ensures var h' := Admit(limit, HistoryOf(accepted, key), m, now);
            Consistent(limit, redis[key := Key(InWindow(h', now), now + WINDOW)], accepted[key := h'], now)
  {
    var h := HistoryOf(accepted, key);
    var stored := if key in redis then redis[key] else Key(map[], now);
    assert Tracks(limit, stored, h, last);
    OneKeyCheck(limit, stored, h, last, m, now);
    TracksLater(limit, stored, h, last, now);
    CheckKeepsTrack(limit, h, m, now);
    var h' := Admit(limit, h, m, now);
    UpdateKeepsConsistent(limit, redis, accepted, last, key, Key(InWindow(h', now), now + WINDOW), h', now);
  }

  lemma OtherHistoriesStay(accepted: map<string, Scores>, clientId: string, h: Scores)
    ensures forall c | c != clientId ::
              HistoryOf(accepted[KeyOf(clientId) := h], KeyOf(c)) == HistoryOf(accepted, KeyOf(c))
  {
    forall c | c != clientId ensures KeyOf(c) != KeyOf(clientId) {
      if KeyOf(c) == KeyOf(clientId) {
        KeyOfIsInjective(c, clientId);
      }
    }
  }

  class SlidingWindowRateLimiter {
    const limit: int
    /** The Redis keys of the limiter. */
    var redis: map<string, Key>
    /** For each key, every check accepted so far, and the latest clock reading. */
    ghost var accepted: map<string, Scores>
    ghost var last: real

    constructor (rpm: int)
      ensures limit == rpm && Valid()
      ensures forall c :: History(c) == map[]
    {
      limit := rpm;
      redis := map[];
      accepted := map[];
      last := 0.0;
    }

    ghost function History(clientId: string): Scores
      reads this
    {
      HistoryOf(accepted, KeyOf(clientId))
    }

    ghost predicate Valid()
      reads this
    {
      Consistent(limit, redis, accepted, last)
    }

    /** EXPIRE removes nothing the next prune would have kept, so at any later
        instant the key, expired or not, shows exactly the accepted checks. */
    lemma ExpiryOnlyForestallsPruning(clientId: string, now: real)
      requires Valid() && last <= now
      ensures InWindow(Load(redis, KeyOf(clientId), now), now) == InWindow(History(clientId), now)
      ensures KeyOf(clientId) in redis ==>
                InWindow(redis[KeyOf(clientId)].scores, now) == InWindow(History(clientId), now)
    {
    }

    /** The atomic pipeline: ZADD, ZREMRANGEBYSCORE, ZCARD, ZRANGE 0 0, EXPIRE. */
    method ExecutePipeline(key: string, member: Member, now: real) returns (count: nat, oldest: Option<real>)
      modifies this`redis
      ensures redis == old(redis)[key := Key(AfterPipeline(Load(old(redis), key, now), member, now), now + WINDOW)]
      ensures count == |redis[key].scores| && oldest == Oldest(redis[key].scores)
    {
      var scores := Load(redis, key, now);
      scores := ZAdd(scores, member, now);
      scores := ZRemRange(scores, now - WINDOW);
      count := |scores|;
      oldest := Oldest(scores);
      redis := redis[key := Key(scores, now + WINDOW)];
    }

    method Remove(key: string, member: Member)
      requires key in redis
      modifies this`redis
      ensures redis == old(redis)[key := old(redis)[key].(scores := ZRem(old(redis)[key].scores, member))]
    {
      redis := redis[key := redis[key].(scores := ZRem(redis[key].scores, member))];
    }

    /** The body of `check`, in terms of the Redis key alone. */
    method CheckKey(key: string, now: real, member: Member) returns (v: Verdict)
      requires AfterPipeline(Load(redis, key, now), member, now) != map[]
      modifies this`redis
      ensures var z := AfterPipeline(Load(old(redis), key, now), member, now);
              && v == Answer(limit, z, now)
              && redis == old(redis)[key := Key(Kept(limit, z, member), now + WINDOW)]
    {
      var count, oldest := ExecutePipeline(key, member, now);
      var resetAfter := WINDOW;
      if oldest.Some? {
        resetAfter := Max(0.0, oldest.value + WINDOW - now);
      }
      if count <= limit {
        var remaining := if 0 < limit - count then limit - count else 0;
        return Verdict(true, 0.0, remaining, Truncate(resetAfter));
      }
      Remove(key, member);
      return Verdict(false, resetAfter, 0, Truncate(resetAfter));
    }

    /** One call of `check`: accepted exactly when fewer than `limit` accepted
        checks lie in the window; the key is left holding exactly those of its
        window, and no other key and no other history changes. */
    method Check(clientId: string, now: real, member: Member) returns (v: Verdict)
      requires Valid() && last <= now && member !in History(clientId)
      modifies this
      ensures Valid() && last == now
      ensures v == Decide(limit, old(History(clientId)), now)
      ensures accepted == old(accepted)[KeyOf(clientId) := Admit(limit, old(History(clientId)), member, now)]
      ensures redis == old(redis)[KeyOf(clientId) := Key(InWindow(History(clientId), now), now + WINDOW)]
      ensures forall c | c != clientId :: History(c) == old(History(c))
      ensures forall cs | FreshAt(History(clientId), cs, now) ::
                AllAdmitted(limit, History(clientId), cs) <==> |cs| <= v.remaining
    {
      var key := KeyOf(clientId);
      CheckMeetsHistory(limit, redis, accepted, last, key, member, now);
      v := CheckKey(key, now, member);
      accepted := accepted[key := Admit(limit, HistoryOf(accepted, key), member, now)];
      last := now;
      OtherHistoriesStay(old(accepted), clientId, accepted[key]);
      forall cs | FreshAt(History(clientId), cs, now)
        ensures AllAdmitted(limit, History(clientId), cs) <==> |cs| <= v.remaining
      {
        RemainingExactly(limit, old(History(clientId)), member, now, cs);
      }
    }
  }
}
