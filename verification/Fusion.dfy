// Weighted reciprocal-rank fusion of a dense and a lexical ranking
// (rag/pipeline.py, _reciprocal_rank_fusion).

module Fusion {
  import opened Prelude
  import opened Ranking
  import opened VectorStore

  const RRF_K: nat := 60

  /** What one ranking gives the id at a rank, from 1. */
  function ShareAt(weight: real, rank: nat): real {
    weight / (rank + RRF_K) as real
  }

  /** What one ranking gives to `id`: weight / (rank + 60) for every place it stands at, ranks from 1. */
  function RankSum(ids: seq<string>, weight: real, id: string): real {
    if ids == [] then 0.0
    else
      var n := |ids| - 1;
      RankSum(ids[..n], weight, id) + if ids[n] == id then ShareAt(weight, n + 1) else 0.0
  }

  /** The fused score of every id in either ranking. */
  ghost function FusedScores(dense: seq<string>, lexical: seq<string>, denseWeight: real,
      lexicalWeight: real): map<string, real> {
    map id | id in IdSet(dense) + IdSet(lexical) ::
      RankSum(dense, denseWeight, id) + RankSum(lexical, lexicalWeight, id)
  }

  ghost function IdSet(ids: seq<string>): set<string> {
    set id | id in ids
  }

  ghost function Fused(dense: seq<string>, lexical: seq<string>, denseWeight: real, lexicalWeight: real): seq<Ranked> {
    RankingOf(FusedScores(dense, lexical, denseWeight, lexicalWeight))
  }

  function HitIds(hits: seq<SearchHit>): (r: seq<string>)
    ensures |r| == |hits|
    ensures forall i :: 0 <= i < |hits| ==> r[i] == hits[i].id
  {
    seq(|hits|, i requires 0 <= i < |hits| => hits[i].id)
  }

  function RankedIds(ranking: seq<Ranked>): (r: seq<string>)
    ensures |r| == |ranking|
    ensures forall i :: 0 <= i < |ranking| ==> r[i] == ranking[i].id
  {
    seq(|ranking|, i requires 0 <= i < |ranking| => ranking[i].id)
  }

  // ----- The two loops --------------------------------------------------------------

  function Current(scores: map<string, real>, id: string): real {
    if id in scores then scores[id] else 0.0
  }

  /** `base` after every id of a ranking has got its shares of it. */
  ghost function Plus(base: map<string, real>, ids: seq<string>, weight: real): map<string, real> {
    map id | id in base.Keys + IdSet(ids) :: Current(base, id) + RankSum(ids, weight, id)
  }

  lemma {:induction false} AbsentSum(ids: seq<string>, weight: real, id: string)
    requires id !in ids
    ensures RankSum(ids, weight, id) == 0.0
  {
    if ids != [] { AbsentSum(ids[..|ids| - 1], weight, id); }
  }

  lemma PlusOne(base: map<string, real>, ids: seq<string>, weight: real, id: string)
    ensures
      var m := Plus(base, ids, weight);
      Plus(base, ids + [id], weight) == m[id := Current(m, id) + ShareAt(weight, |ids| + 1)]
  {
    var m, all := Plus(base, ids, weight), ids + [id];
    assert all[..|ids|] == ids;
    assert IdSet(all) == IdSet(ids) + {id};
    if id !in m { AbsentSum(ids, weight, id); }
  }

  lemma PlusStep(base: map<string, real>, ids: seq<string>, weight: real, i: nat)
    requires i < |ids|
    ensures
      var m := Plus(base, ids[..i], weight);
      Plus(base, ids[..i + 1], weight) == m[ids[i] := Current(m, ids[i]) + ShareAt(weight, i + 1)]
  {
    assert ids[..i + 1] == ids[..i] + [ids[i]];
    PlusOne(base, ids[..i], weight, ids[i]);
  }

  lemma PlusEnds(base: map<string, real>, ids: seq<string>, weight: real)
    ensures Plus(base, ids[..0], weight) == base
    ensures ids[..|ids|] == ids
  {
  }

  ghost predicate Adds(r: Dict<real>, base: map<string, real>, ids: seq<string>, weight: real) {
    r.Valid() && r.m == Plus(base, ids, weight)
  }

  lemma {:induction false} AddTurn(r: Dict<real>, base: map<string, real>, ids: seq<string>, weight: real, i: nat,
      x: real)
    requires i < |ids| && Adds(r, base, ids[..i], weight)
    requires x == Current(r.m, ids[i]) + ShareAt(weight, i + 1)
    ensures Adds(r.Put(ids[i], x), base, ids[..i + 1], weight)
  {
    PlusStep(base, ids, weight, i);
    assert r.Put(ids[i], x).m == r.m[ids[i] := x];
  }

  method AddRanking(scores: Dict<real>, ids: seq<string>, weight: real) returns (r: Dict<real>)
    requires scores.Valid()
    ensures r.Valid() && r.m == Plus(scores.m, ids, weight)
  {
    r := scores;
    PlusEnds(scores.m, ids, weight);
    for i := 0 to |ids|
      invariant Adds(r, scores.m, ids[..i], weight)
    {
      var score := Current(r.m, ids[i]) + ShareAt(weight, i + 1);
      AddTurn(r, scores.m, ids, weight, i, score);
      r := r.Put(ids[i], score);
    }
  }

  lemma PlusTwice(dense: seq<string>, lexical: seq<string>, denseWeight: real, lexicalWeight: real)
    ensures Plus(Plus(map[], dense, denseWeight), lexical, lexicalWeight)
         == FusedScores(dense, lexical, denseWeight, lexicalWeight)
  {
    var m := Plus(map[], dense, denseWeight);
    forall id | id !in m ensures RankSum(dense, denseWeight, id) == 0.0 {
      AbsentSum(dense, denseWeight, id);
    }
  }

  method ReciprocalRankFusion(dense: seq<SearchHit>, lexical: seq<Ranked>, denseWeight: real, lexicalWeight: real)
    returns (r: seq<Ranked>)
    ensures r == Fused(HitIds(dense), RankedIds(lexical), denseWeight, lexicalWeight)
  {
    var scores := AddRanking(Dict([], map[]), HitIds(dense), denseWeight);
    scores := AddRanking(scores, RankedIds(lexical), lexicalWeight);
    PlusTwice(HitIds(dense), RankedIds(lexical), denseWeight, lexicalWeight);
    SortedItemsRank(scores);
    r := SortBy(RankBefore, Items(scores));
    RankingUnique(scores.m, r, RankingOf(scores.m));
  }

  // ----- What a fused score is ---------------------------------------------------------

  /** The rank of `id` in a ranking without duplicates, from 1; `None` when it is absent. */
  ghost function RankOf(ids: seq<string>, id: string): (r: Option<nat>)
    ensures r.None? <==> id !in ids
    ensures r.Some? ==> 1 <= r.value <= |ids| && ids[r.value - 1] == id
  {
    if id in ids then
      var i :| 0 <= i < |ids| && ids[i] == id;
      Some(i + 1)
    else None
  }

  ghost function Share(rank: Option<nat>, weight: real): real {
    match rank
    case None => 0.0
    case Some(n) => ShareAt(weight, n)
  }

  /** Without duplicates an id gets its share of each ranking once. */
  lemma {:induction false} RankSumIsShare(ids: seq<string>, weight: real, id: string)
    requires Distinct(ids)
    ensures RankSum(ids, weight, id) == Share(RankOf(ids, id), weight)
    ensures id !in ids ==> RankSum(ids, weight, id) == 0.0
    ensures forall i :: 0 <= i < |ids| && ids[i] == id ==> RankSum(ids, weight, id) == weight / (61 + i) as real
  {
    if ids != [] {
      var n := |ids| - 1;
      if ids[n] == id {
        AbsentSum(ids[..n], weight, id);
      } else {
        RankSumIsShare(ids[..n], weight, id);
        if id in ids {
          assert id in ids[..n];
          assert RankOf(ids[..n], id) == RankOf(ids, id);
        } else {
          assert id !in ids[..n];
        }
      }
    }
  }

  lemma ShareOrder(weight: real, better: Option<nat>, worse: Option<nat>)
    requires weight >= 0.0 && NoWorse(better, worse)
    requires better.Some? ==> better.value >= 1
    ensures Share(better, weight) >= Share(worse, weight) >= 0.0
    ensures weight > 0.0 && better != worse ==> Share(better, weight) > Share(worse, weight)
    ensures Share(better, weight) <= weight / 61.0
  {
    if better.Some? {
      Reciprocal(weight, 61, better.value + RRF_K);
      if worse.Some? {
        Reciprocal(weight, better.value + RRF_K, worse.value + RRF_K);
      }
    }
  }

  lemma Reciprocal(weight: real, a: nat, b: nat)
    requires weight >= 0.0 && 0 < a <= b
    ensures weight / a as real >= weight / b as real >= 0.0
    ensures weight > 0.0 && a < b ==> weight / a as real > weight / b as real
    ensures weight > 0.0 ==> weight / b as real > 0.0
  {
    var x, y := a as real, b as real;
    var p, q := weight / x, weight / y;
    assert p * x == weight == q * y;
    CancelFactor(q, 0.0, y);
    assert (p - q) * x == p * x - q * x == q * y - q * x == q * (y - x);
    ProductSign(q, y - x);
    CancelFactor(p - q, 0.0, x);
  }

  lemma CancelFactor(a: real, b: real, x: real)
    requires x > 0.0
    ensures a * x >= b * x ==> a >= b
    ensures a * x > b * x ==> a > b
  {
    assert (a - b) * x == a * x - b * x;
    if a < b { ProductSign(b - a, x); }
  }

  lemma ProductSign(a: real, b: real)
    requires a >= 0.0 && b >= 0.0
    ensures a * b >= 0.0
    ensures a > 0.0 && b > 0.0 ==> a * b > 0.0
  {
  }

  /** A place in a ranking, absence being worst: `a` is at least as good as `b`. */
  predicate NoWorse(a: Option<nat>, b: Option<nat>) {
    b.None? || (a.Some? && a.value <= b.value)
  }

  /** Fused scores never exceed the two weights over 61, and reach it for an id first in both rankings. */
  lemma FusedBound(dense: seq<string>, lexical: seq<string>, denseWeight: real, lexicalWeight: real, id: string)
    requires Distinct(dense) && Distinct(lexical)
    requires denseWeight >= 0.0 && lexicalWeight >= 0.0
    requires id in FusedScores(dense, lexical, denseWeight, lexicalWeight)
    ensures 0.0 <= FusedScores(dense, lexical, denseWeight, lexicalWeight)[id] <= (denseWeight + lexicalWeight) / 61.0
    ensures dense != [] && lexical != [] && dense[0] == id == lexical[0] ==>
      FusedScores(dense, lexical, denseWeight, lexicalWeight)[id] == (denseWeight + lexicalWeight) / 61.0
  {
    RankSumIsShare(dense, denseWeight, id);
    RankSumIsShare(lexical, lexicalWeight, id);
    ShareOrder(denseWeight, RankOf(dense, id), None);
    ShareOrder(lexicalWeight, RankOf(lexical, id), None);
    assert (denseWeight + lexicalWeight) / 61.0 == denseWeight / 61.0 + lexicalWeight / 61.0;
  }

  /** Dominance: an id no worse placed than another in both rankings, and better in one,
      comes strictly earlier in the fused list. */
  lemma FusionDominance(dense: seq<string>, lexical: seq<string>, denseWeight: real, lexicalWeight: real, a: string,
      b: string)
    requires Distinct(dense) && Distinct(lexical)
    requires denseWeight > 0.0 && lexicalWeight > 0.0
    requires b in dense || b in lexical
    requires NoWorse(RankOf(dense, a), RankOf(dense, b)) && NoWorse(RankOf(lexical, a), RankOf(lexical, b))
    requires RankOf(dense, a) != RankOf(dense, b) || RankOf(lexical, a) != RankOf(lexical, b)
    ensures ComesBefore(Fused(dense, lexical, denseWeight, lexicalWeight), a, b)
  {
    RankSumIsShare(dense, denseWeight, a);
    RankSumIsShare(dense, denseWeight, b);
    RankSumIsShare(lexical, lexicalWeight, a);
    RankSumIsShare(lexical, lexicalWeight, b);
    ShareOrder(denseWeight, RankOf(dense, a), RankOf(dense, b));
    ShareOrder(lexicalWeight, RankOf(lexical, a), RankOf(lexical, b));
    var scores := FusedScores(dense, lexical, denseWeight, lexicalWeight);
    assert a in scores && b in scores && scores[a] > scores[b];
    HigherScoreFirst(scores, RankingOf(scores), a, b);
  }
}
