// What a retrieval returns, said of the two candidate lists and their places (rag/pipeline.py:105-194).

module HybridResults {
  import opened Prelude
  import opened Ranking
  import opened Chunker
  import opened VectorStore
  import opened Bm25
  import opened Fusion
  import opened Rag
  import opened RagTheorems

  // ----- Scores by places ---------------------------------------------------------------------

  /** Place `i` of a list, from 0, is worth the list's weight over 61 + i; an id scores what its places in the two
      lists are worth, and a list it is not in adds nothing. */
  ghost predicate ScoredByPlaces(a: seq<string>, weightA: real, b: seq<string>, weightB: real, id: string, score: real)
  {
    && (forall i, j :: 0 <= i < |a| && 0 <= j < |b| && a[i] == id && b[j] == id ==>
          score == weightA / (61 + i) as real + weightB / (61 + j) as real)
    && (id !in b ==> forall i :: 0 <= i < |a| && a[i] == id ==> score == weightA / (61 + i) as real)
    && (id !in a ==> forall j :: 0 <= j < |b| && b[j] == id ==> score == weightB / (61 + j) as real)
  }

  /** Higher scores come first, equal ones in the code-point order of ids. */
  ghost predicate Ahead(score: real, id: string, score': real, id': string) {
    score > score' || (score == score' && FirstDifferenceLess(id, id'))
  }

  /** The best `n` ids of the two lists: each once, scored by its places, better ones first, and none left out that
      is better or that there is room for. */
  ghost predicate BestByPlaces(a: seq<string>, weightA: real, b: seq<string>, weightB: real, n: nat, r: seq<Ranked>) {
    && |r| <= n
    && (forall i :: 0 <= i < |r| ==>
          (r[i].id in a || r[i].id in b) && ScoredByPlaces(a, weightA, b, weightB, r[i].id, r[i].score))
    && (forall i, j :: 0 <= i < j < |r| ==> r[i].id != r[j].id && Ahead(r[i].score, r[i].id, r[j].score, r[j].id))
    && (forall id, score :: (id in a || id in b) && ScoredByPlaces(a, weightA, b, weightB, id, score) ==>
          (exists i :: 0 <= i < |r| && r[i].id == id) || LeftOut(n, r, id, score))
  }

  ghost predicate LeftOut(n: nat, r: seq<Ranked>, id: string, score: real) {
    |r| == n && forall i :: 0 <= i < |r| ==> Ahead(r[i].score, r[i].id, score, id)
  }

  lemma FusedByPlaces(a: seq<string>, weightA: real, b: seq<string>, weightB: real, id: string)
    requires Distinct(a) && Distinct(b) && (id in a || id in b)
    ensures ScoredByPlaces(a, weightA, b, weightB, id, FusedScores(a, b, weightA, weightB)[id])
  {
    RankSumIsShare(a, weightA, id);
    RankSumIsShare(b, weightB, id);
  }

  lemma ScoreByPlacesUnique(a: seq<string>, weightA: real, b: seq<string>, weightB: real, id: string, x: real, y: real)
    requires id in a || id in b
    requires ScoredByPlaces(a, weightA, b, weightB, id, x) && ScoredByPlaces(a, weightA, b, weightB, id, y)
    ensures x == y
  {
    if id in a {
      var i :| 0 <= i < |a| && a[i] == id;
      if id in b { var j :| 0 <= j < |b| && b[j] == id; }
    } else {
      var j :| 0 <= j < |b| && b[j] == id;
    }
  }

  /** The first `n` of the fused ranking are the best by places. */
  lemma TopIsBest(a: seq<string>, weightA: real, b: seq<string>, weightB: real, n: nat)
    requires Distinct(a) && Distinct(b)
    ensures BestByPlaces(a, weightA, b, weightB, n, Take(Fused(a, b, weightA, weightB), n))
  {
    var scores := FusedScores(a, b, weightA, weightB);
    var all, r := RankingOf(scores), Take(RankingOf(scores), n);
    RankingDistinct(scores, all);
    assert forall i :: 0 <= i < |r| ==> r[i] == all[i];
    forall i | 0 <= i < |r|
      ensures (r[i].id in a || r[i].id in b) && ScoredByPlaces(a, weightA, b, weightB, r[i].id, r[i].score)
    {
      assert r[i].id in scores;
      FusedByPlaces(a, weightA, b, weightB, r[i].id);
    }
    forall i, j | 0 <= i < j < |all| ensures Ahead(all[i].score, all[i].id, all[j].score, all[j].id) {
      RankingOrder(scores, all, i, j);
    }
    forall id, score | (id in a || id in b) && ScoredByPlaces(a, weightA, b, weightB, id, score)
      ensures (exists i :: 0 <= i < |r| && r[i].id == id) || LeftOut(n, r, id, score)
    {
      FusedByPlaces(a, weightA, b, weightB, id);
      ScoreByPlacesUnique(a, weightA, b, weightB, id, score, scores[id]);
      var p :| 0 <= p < |all| && all[p].id == id;
      if p < |r| { assert r[p].id == id; }
    }
  }

  /** The best `n` begin with the best `m`. */
  lemma BestPrefix(a: seq<string>, weightA: real, b: seq<string>, weightB: real, n: nat, r: seq<Ranked>, m: nat)
    requires BestByPlaces(a, weightA, b, weightB, n, r) && m <= n
    ensures BestByPlaces(a, weightA, b, weightB, m, Take(r, m))
  {
    var top := Take(r, m);
    forall id, score | (id in a || id in b) && ScoredByPlaces(a, weightA, b, weightB, id, score)
      ensures (exists i :: 0 <= i < |top| && top[i].id == id) || LeftOut(m, top, id, score)
    {
      if i :| 0 <= i < |r| && r[i].id == id {
        ScoreByPlacesUnique(a, weightA, b, weightB, id, score, r[i].score);
        if i < |top| { assert top[i].id == id; }
      }
    }
  }

  // ----- What the reranker sees, and what becomes of its answer ---------------------------------

  /** The hits handed to the reranker for the best candidates. */
  ghost predicate HitsFor(chunks: map<string, Chunk>, pool: seq<Ranked>, hits: seq<SearchHit>) {
    && |hits| == |pool|
    && forall i :: 0 <= i < |pool| ==>
         && pool[i].id in chunks
         && hits[i].id == pool[i].id && hits[i].text == chunks[pool[i].id].text && hits[i].score == pool[i].score
         && hits[i].metadata
            == map["doc_id" := chunks[pool[i].id].docId, "title" := chunks[pool[i].id].title,
                   "clause_id" := pool[i].id]
  }

  /** The first 200 characters. */
  ghost predicate IsSnippet(snippet: string, text: string) {
    if |text| <= 200 then snippet == text else snippet == text[..200]
  }

  /** The result shows the hits one by one, each with its chunk's title and text and a snippet, and suffices if one of
      them scores at least tau. It is an error if a hit's id, title or text is empty or its score negative. */
  ghost predicate Shows(config: RagConfig, chunks: map<string, Chunk>, hits: seq<SearchHit>,
      r: Result<RetrievalResult, RagError>)
    requires forall i :: 0 <= i < |hits| ==> hits[i].id in chunks
  {
    && (r.Err? <==> exists i :: 0 <= i < |hits| && Rejected(chunks[hits[i].id], hits[i]))
    && (r.Ok? ==>
          && |r.value.chunks| == |hits|
          && (forall i :: 0 <= i < |hits| ==> ShowsHit(chunks[hits[i].id], hits[i], r.value.chunks[i]))
          && (r.value.sufficient <==> exists i :: 0 <= i < |hits| && hits[i].score >= config.tau))
  }

  ghost predicate Rejected(ch: Chunk, hit: SearchHit) {
    hit.id == "" || ch.title == "" || ch.text == "" || hit.score < 0.0
  }

  ghost predicate ShowsHit(ch: Chunk, hit: SearchHit, c: RetrievedChunk) {
    && c.citation.clauseId == hit.id && c.citation.document == ch.title && IsSnippet(c.citation.snippet, ch.text)
    && c.text == ch.text && c.score == hit.score
  }

  lemma {:induction false} BestScoreIs(chunks: seq<RetrievedChunk>)
    ensures chunks == [] ==> BestScore(chunks) == 0.0
    ensures chunks != [] ==> exists i :: 0 <= i < |chunks| && chunks[i].score == BestScore(chunks)
    ensures forall i :: 0 <= i < |chunks| ==> chunks[i].score <= BestScore(chunks)
  {
    if |chunks| == 1 {
      assert chunks[0].score == BestScore(chunks);
    } else if |chunks| > 1 {
      var front := chunks[..|chunks| - 1];
      BestScoreIs(front);
      var k :| 0 <= k < |front| && front[k].score == BestScore(front);
      assert chunks[k] == front[k];
      forall i | 0 <= i < |chunks| ensures chunks[i].score <= BestScore(chunks) {
        if i < |front| { assert front[i] == chunks[i]; }
      }
    }
  }

  lemma {:induction false} BuiltShows(config: RagConfig, chunks: map<string, Chunk>, hits: seq<SearchHit>)
    requires forall i :: 0 <= i < |hits| ==> hits[i].id in chunks
    ensures Shows(config, chunks, hits, Judged(config, BuildChunks(chunks, hits)))
  {
    BuildKnown(chunks, hits);
    var built := BuildChunks(chunks, hits);
    if built.Ok? {
      BestScoreIs(built.value);
      assert forall i :: 0 <= i < |hits| ==> built.value[i].score == hits[i].score;
      if built.value != [] {
        var k :| 0 <= k < |built.value| && built.value[k].score == BestScore(built.value);
        assert hits[k].score == BestScore(built.value);
      }
    }
  }

  /** The ids of the first 3n hits in the store, by embedding. */
  ghost function DenseIds(p: Providers, chunks: Dict<Chunk>, query: string, n: nat, filter: Filter): seq<string>
    requires ChunkMap(chunks)
  {
    HitIds(DenseSpec(StoreOf(p.embed, chunks), p.similarity, p.embed(query), 3 * n, filter))
  }

  /** The ids of the first 3n results of BM25, which knows no filter. */
  ghost function LexicalIds(p: Providers, chunks: Dict<Chunk>, query: string, n: nat): seq<string> {
    RankedIds(SearchSpec(p.tokenise, p.ln, TextMap(chunks.m), query, 3 * n))
  }

  /** The best `m` of both lists of 3n. */
  ghost predicate BestCandidates(config: RagConfig, p: Providers, chunks: Dict<Chunk>, query: string, n: nat,
      filter: Filter, m: nat, r: seq<Ranked>)
    requires ChunkMap(chunks)
  {
    BestByPlaces(DenseIds(p, chunks, query, n, filter), config.denseWeight,
      LexicalIds(p, chunks, query, n), config.lexicalWeight, m, r)
  }

  /** The number of results asked for: `k`, or the configured one when it is missing or 0. */
  ghost predicate Asked(config: RagConfig, k: Option<nat>, n: nat) {
    if k == None || k == Some(0) then n == config.k else k == Some(n)
  }

  lemma PoolByPlaces(config: RagConfig, p: Providers, chunks: Dict<Chunk>, query: string, filter: Filter, n: nat)
    requires ChunkMap(chunks)
    ensures
      var dense, lexical := DenseHits(config, p, chunks, query, n, filter), LexicalHits(p, chunks, query, n);
      BestCandidates(config, p, chunks, query, n, filter, 2 * n,
        Take(Fused(HitIds(dense), RankedIds(lexical), config.denseWeight, config.lexicalWeight), 2 * n))
  {
    var dense, lexical := DenseHits(config, p, chunks, query, n, filter), LexicalHits(p, chunks, query, n);
    DenseListed(config, p, chunks, query, n, filter);
    LexicalListed(p, chunks, query, n);
    TopIsBest(HitIds(dense), config.denseWeight, RankedIds(lexical), config.lexicalWeight, 2 * n);
    assert n * 3 == 3 * n;
  }

  lemma PoolIs(config: RagConfig, p: Providers, chunks: Dict<Chunk>, query: string, k: Option<nat>, filter: Filter,
      n: nat)
    requires ChunkMap(chunks) && Asked(config, k, n)
    ensures BestCandidates(config, p, chunks, query, n, filter, 2 * n,
              Take(RankingOf(UnionScores(config, p, chunks, query, k, filter)), n * 2))
  {
    PoolByPlaces(config, p, chunks, query, filter, n);
    assert n * 2 == 2 * n && TopK(config, k) == n;
  }

  lemma TopIsKnown(scores: map<string, real>, chunks: map<string, Chunk>, n: nat)
    requires scores.Keys <= chunks.Keys
    ensures AllKnown(chunks, Take(RankingOf(scores), n))
  {
    var all, r := RankingOf(scores), Take(RankingOf(scores), n);
    forall i | 0 <= i < |r| ensures r[i].id in chunks {
      assert r[i] == all[i];
      assert all[i].id in scores.Keys;
    }
  }

  lemma InputIs(chunks: map<string, Chunk>, pool: seq<Ranked>)
    requires AllKnown(chunks, pool)
    ensures HitsFor(chunks, pool, RerankInput(chunks, pool))
  {
    RerankInputFull(chunks, pool);
  }

  ghost predicate KnownOnly(chunks: map<string, Chunk>, hits: seq<SearchHit>) {
    forall i :: 0 <= i < |hits| ==> hits[i].id in chunks
  }

  lemma AnswerShows(config: RagConfig, p: Providers, chunks: map<string, Chunk>, query: string, n: nat,
      scores: map<string, real>, input: seq<SearchHit>)
    requires input == RerankInput(chunks, Take(RankingOf(scores), n * 2))
    requires KnownOnly(chunks, p.rerank(query, input, n))
    ensures Shows(config, chunks, p.rerank(query, input, n), Answer(config, p, chunks, query, n, scores))
  {
    BuiltShows(config, chunks, p.rerank(query, input, n));
  }

  lemma SpecIsAnswer(config: RagConfig, p: Providers, chunks: Dict<Chunk>, query: string, k: Option<nat>,
      filter: Filter, n: nat)
    requires ChunkMap(chunks) && Asked(config, k, n)
    ensures RetrieveSpec(config, p, chunks, query, k, filter)
         == Answer(config, p, chunks.m, query, n, UnionScores(config, p, chunks, query, k, filter))
  {
    assert TopK(config, k) == n;
  }

  /** What a retrieval does, for any reranker: it hands over the best 2n candidates by their places and shows what
      comes back, as long as only known chunks do. */
  lemma RetrieveIs(config: RagConfig, p: Providers, chunks: Dict<Chunk>, query: string, k: Option<nat>,
      filter: Filter, n: nat) returns (pool: seq<Ranked>, hits: seq<SearchHit>)
    requires ChunkMap(chunks) && Asked(config, k, n)
    ensures BestCandidates(config, p, chunks, query, n, filter, 2 * n, pool) && HitsFor(chunks.m, pool, hits)
    ensures KnownOnly(chunks.m, p.rerank(query, hits, n)) ==>
      Shows(config, chunks.m, p.rerank(query, hits, n), RetrieveSpec(config, p, chunks, query, k, filter))
  {
    var scores := UnionScores(config, p, chunks, query, k, filter);
    pool := Take(RankingOf(scores), n * 2);
    PoolIs(config, p, chunks, query, k, filter, n);
    UnionIsKnown(config, p, chunks, query, k, filter);
    TopIsKnown(scores, chunks.m, n * 2);
    hits := RerankInput(chunks.m, pool);
    InputIs(chunks.m, pool);
    SpecIsAnswer(config, p, chunks, query, k, filter, n);
    if KnownOnly(chunks.m, p.rerank(query, hits, n)) {
      AnswerShows(config, p, chunks.m, query, n, scores, hits);
    }
  }

  lemma HitsPrefix(chunks: map<string, Chunk>, pool: seq<Ranked>, hits: seq<SearchHit>, n: nat)
    requires HitsFor(chunks, pool, hits)
    ensures HitsFor(chunks, Take(pool, n), Take(hits, n)) && KnownOnly(chunks, Take(hits, n))
  {
  }

  /** What a retrieval returns with the identity reranker: the best n candidates by their places, each shown with its
      chunk. */
  lemma IdentityRetrieveIs(config: RagConfig, p: Providers, chunks: Dict<Chunk>, query: string, k: Option<nat>,
      filter: Filter, n: nat) returns (best: seq<Ranked>, hits: seq<SearchHit>)
    requires ChunkMap(chunks) && Asked(config, k, n) && IdentityReranker(p.rerank)
    ensures BestCandidates(config, p, chunks, query, n, filter, n, best) && HitsFor(chunks.m, best, hits)
    ensures Shows(config, chunks.m, hits, RetrieveSpec(config, p, chunks, query, k, filter))
  {
    var pool, input := RetrieveIs(config, p, chunks, query, k, filter, n);
    best, hits := Take(pool, n), Take(input, n);
    HitsPrefix(chunks.m, pool, input, n);
    assert hits == p.rerank(query, input, n);
    BestPrefix(DenseIds(p, chunks, query, n, filter), config.denseWeight, LexicalIds(p, chunks, query, n),
      config.lexicalWeight, 2 * n, pool, n);
  }

  // ----- One list alone ---------------------------------------------------------------------------

  lemma PlacesCommute(a: seq<string>, weightA: real, b: seq<string>, weightB: real, n: nat, r: seq<Ranked>)
    requires BestByPlaces(a, weightA, b, weightB, n, r)
    ensures BestByPlaces(b, weightB, a, weightA, n, r)
  {
    forall id, score ensures ScoredByPlaces(a, weightA, b, weightB, id, score)
                         <==> ScoredByPlaces(b, weightB, a, weightA, id, score)
    {
    }
  }

  lemma WorthLess(weight: real, i: nat, j: nat)
    requires weight > 0.0 && i < j
    ensures weight / (61 + i) as real > weight / (61 + j) as real > 0.0
  {
    Reciprocal(weight, 61 + i, 61 + j);
  }

  /** With no weight on `b` an id later in `a`, or not in it, scores less than `a[i]`. */
  lemma LaterScoresLess(a: seq<string>, weightA: real, b: seq<string>, i: nat, id: string, score: real)
    requires weightA > 0.0 && i < |a| && Distinct(a) && (id in a || id in b)
    requires (forall m :: 0 <= m <= i ==> a[m] != id) && ScoredByPlaces(a, weightA, b, 0.0, id, score)
    ensures score < weightA / (61 + i) as real
  {
    if id in a {
      var m :| 0 <= m < |a| && a[m] == id;
      WorthLess(weightA, i, m);
      if id in b { var j :| 0 <= j < |b| && b[j] == id; }
    } else {
      var j :| 0 <= j < |b| && b[j] == id;
      WorthLess(weightA, i, i + 1);
    }
  }

  lemma ScoreOfPlace(a: seq<string>, weightA: real, b: seq<string>, i: nat, score: real)
    requires i < |a| && ScoredByPlaces(a, weightA, b, 0.0, a[i], score)
    ensures score == weightA / (61 + i) as real
  {
    if a[i] in b { var j :| 0 <= j < |b| && b[j] == a[i]; }
  }

  lemma PlaceScored(a: seq<string>, weightA: real, b: seq<string>, i: nat)
    requires i < |a| && Distinct(a)
    ensures ScoredByPlaces(a, weightA, b, 0.0, a[i], weightA / (61 + i) as real)
  {
  }

  /** If the first places are those of `a`, so is the next. */
  lemma NextPlace(a: seq<string>, weightA: real, b: seq<string>, n: nat, r: seq<Ranked>, i: nat)
    requires BestByPlaces(a, weightA, b, 0.0, n, r) && Distinct(a) && weightA > 0.0
    requires i < |a| && i < n && i <= |r| && forall m :: 0 <= m < i ==> r[m].id == a[m]
    ensures i < |r| && r[i].id == a[i]
  {
    PlaceScored(a, weightA, b, i);
    if m :| 0 <= m < |r| && r[m].id == a[i] {
      ScoreOfPlace(a, weightA, b, i, r[m].score);
      if m > i { NotLater(a, weightA, b, n, r, i); }
    } else {
      assert LeftOut(n, r, a[i], weightA / (61 + i) as real);
      if r[i].id != a[i] { NotLater(a, weightA, b, n, r, i); }
    }
  }

  /** With no weight on `b` the best candidates begin with `a`, in its order. */
  lemma {:induction false} FirstListFirst(a: seq<string>, weightA: real, b: seq<string>, n: nat, r: seq<Ranked>, i: nat)
    requires BestByPlaces(a, weightA, b, 0.0, n, r) && Distinct(a) && weightA > 0.0
    requires i <= |a| && i <= n
    ensures i <= |r| && forall m :: 0 <= m < i ==> r[m].id == a[m]
  {
    if i > 0 {
      FirstListFirst(a, weightA, b, n, r, i - 1);
      NextPlace(a, weightA, b, n, r, i - 1);
    }
  }

  /** What stands at place `i` of the result, if it is not `a[i]`, scores less than that. */
  lemma NotLater(a: seq<string>, weightA: real, b: seq<string>, n: nat, r: seq<Ranked>, i: nat)
    requires BestByPlaces(a, weightA, b, 0.0, n, r) && Distinct(a) && weightA > 0.0
    requires i < |a| && i < |r| && r[i].id != a[i]
    requires forall m :: 0 <= m < i ==> r[m].id == a[m]
    ensures r[i].score < weightA / (61 + i) as real
  {
    assert forall m :: 0 <= m < i ==> r[m].id != r[i].id;
    LaterScoresLess(a, weightA, b, i, r[i].id, r[i].score);
  }

  lemma CandidatesDistinct(config: RagConfig, p: Providers, chunks: Dict<Chunk>, query: string, n: nat, filter: Filter)
    requires ChunkMap(chunks)
    ensures Distinct(DenseIds(p, chunks, query, n, filter)) && Distinct(LexicalIds(p, chunks, query, n))
  {
    DenseListed(config, p, chunks, query, n, filter);
    LexicalListed(p, chunks, query, n);
    assert n * 3 == 3 * n;
  }

  /** Each weight belongs to its own list: with no lexical weight a result begins with the dense list, in its order,
      and with no dense weight it begins with the lexical one. */
  lemma OneListAlone(config: RagConfig, p: Providers, chunks: Dict<Chunk>, query: string, k: Option<nat>,
      filter: Filter, n: nat, i: nat)
    requires ChunkMap(chunks) && Asked(config, k, n) && IdentityReranker(p.rerank) && i < n
    requires RetrieveSpec(config, p, chunks, query, k, filter).Ok?
    ensures
      var shown, ids := RetrieveSpec(config, p, chunks, query, k, filter).value.chunks,
        DenseIds(p, chunks, query, n, filter);
      config.lexicalWeight == 0.0 && config.denseWeight > 0.0 && i < |ids| ==>
        i < |shown| && shown[i].citation.clauseId == ids[i]
    ensures
      var shown, ids := RetrieveSpec(config, p, chunks, query, k, filter).value.chunks, LexicalIds(p, chunks, query, n);
      config.denseWeight == 0.0 && config.lexicalWeight > 0.0 && i < |ids| ==>
        i < |shown| && shown[i].citation.clauseId == ids[i]
  {
    var best, hits := IdentityRetrieveIs(config, p, chunks, query, k, filter, n);
    var dense, lexical := DenseIds(p, chunks, query, n, filter), LexicalIds(p, chunks, query, n);
    CandidatesDistinct(config, p, chunks, query, n, filter);
    if config.lexicalWeight == 0.0 && config.denseWeight > 0.0 && i < |dense| {
      FirstListFirst(dense, config.denseWeight, lexical, n, best, i + 1);
    }
    if config.denseWeight == 0.0 && config.lexicalWeight > 0.0 && i < |lexical| {
      PlacesCommute(dense, config.denseWeight, lexical, config.lexicalWeight, n, best);
      FirstListFirst(lexical, config.lexicalWeight, dense, n, best, i + 1);
    }
  }

  /** With the default settings a retrieval that names no number of results shows at most 5, scored 0.6 by their places
      in a dense list of at most 15 and 0.4 by those in a lexical one, and needs a score of 0.35 to suffice. */
  lemma DefaultRetrieveIs(p: Providers, chunks: Dict<Chunk>, query: string, filter: Filter)
    returns (best: seq<Ranked>, hits: seq<SearchHit>)
    requires ChunkMap(chunks) && IdentityReranker(p.rerank)
    ensures
      var dense := HitIds(DenseSpec(StoreOf(p.embed, chunks), p.similarity, p.embed(query), 15, filter));
      var lexical := RankedIds(SearchSpec(p.tokenise, p.ln, TextMap(chunks.m), query, 15));
      BestByPlaces(dense, 0.6, lexical, 0.4, 5, best)
    ensures HitsFor(chunks.m, best, hits)
    ensures Shows(RagConfig(5, 0.6, 0.4, 0.35, 450, 50), chunks.m, hits,
              RetrieveSpec(DEFAULT_CONFIG, p, chunks, query, None, filter))
  {
    best, hits := IdentityRetrieveIs(DEFAULT_CONFIG, p, chunks, query, None, filter, 5);
  }
}
