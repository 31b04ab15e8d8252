/** The Redis sorted set behind one rate-limit key, with the five commands of
    the limiter's pipeline. Members are unique, so a map from member to score. */
module SortedSets {
  import opened Prelude

  type Member = nat

  type Scores = map<Member, real>

  /** A stored key: its entries and the instant its EXPIRE takes effect. */
  datatype Key = Key(scores: Scores, expireAt: real)

  function ZAdd(z: Scores, m: Member, score: real): Scores {
    z[m := score]
  }

  /** ZREMRANGEBYSCORE key 0 hi */
  function ZRemRange(z: Scores, hi: real): Scores {
    map m | m in z && !(0.0 <= z[m] <= hi) :: z[m]
  }

  function ZRem(z: Scores, m: Member): Scores {
    z - {m}
  }

  predicate IsLeast(z: Scores, score: real) {
    score in z.Values && forall m | m in z :: score <= z[m]
  }

  lemma {:induction false} LeastExists(z: Scores)
    requires z != map[]
    ensures exists score | score in z.Values :: IsLeast(z, score)
  {
    var m :| m in z;
    var rest := z - {m};
    assert forall k :: k in z <==> k == m || k in rest;
    if rest == map[] {
      assert IsLeast(z, z[m]);
    } else {
      LeastExists(rest);
      var score :| score in rest.Values && IsLeast(rest, score);
      var other :| other in rest && rest[other] == score;
      var least := if z[m] < score then z[m] else score;
      assert z[other] == score;
      assert IsLeast(z, least);
    }
  }

  /** ZRANGE key 0 0 WITHSCORES: the score of the oldest entry, if any. */
  function Oldest(z: Scores): (r: Option<real>)
    ensures r.None? <==> z == map[]
    ensures r.Some? ==> IsLeast(z, r.value)
  {
    if z == map[] then None
    else
      LeastExists(z);
      var score :| score in z.Values && IsLeast(z, score);
      Some(score)
  }
}
