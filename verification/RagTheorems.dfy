// What every retrieval over an ingested corpus promises.

module RagTheorems {
  import opened Prelude
  import opened Ranking
  import opened Chunker
  import opened VectorStore
  import opened Bm25
  import opened Fusion
  import opened Rag
  import Text

  /** The in-memory reranker: the hits as they come, truncated. */
  ghost predicate IdentityReranker(rerank: (string, seq<SearchHit>, nat) -> seq<SearchHit>) {
    forall query, hits, topK :: rerank(query, hits, topK) == Take(hits, topK)
  }

  /** Ids and titles are not empty, as the validators of `SourceDoc` demand of the documents. */
  ghost predicate Named(chunks: Dict<Chunk>) {
    forall id :: id in chunks.m ==> id != "" && chunks.m[id].title != ""
  }

  ghost predicate ValidSource(doc: SourceDoc) {
    doc.docId != "" && doc.title != "" && doc.text != ""
  }

  lemma IndexedChunkIsNamed(corpus: seq<SourceDoc>, config: RagConfig, id: string)
    requires CorpusEnds(corpus, config) && id in Indexed(corpus, config).m
    requires forall i :: 0 <= i < |corpus| ==> ValidSource(corpus[i])
    ensures id != "" && Indexed(corpus, config).m[id].title != ""
  {
    var ch := Indexed(corpus, config).m[id];
    IndexedProvenance(corpus, config, id);
    var i :| 0 <= i < |corpus| && ch in ChunksOf(corpus[i], config.chunkTokens, config.chunkOverlap);
    ChunkProvenance(corpus[i], config.chunkTokens, config.chunkOverlap, ch);
    assert ValidSource(corpus[i]);
  }

  lemma IndexedIsNamed(corpus: seq<SourceDoc>, config: RagConfig)
    requires CorpusEnds(corpus, config)
    requires forall i :: 0 <= i < |corpus| ==> ValidSource(corpus[i])
    ensures ChunkMap(Indexed(corpus, config)) && Named(Indexed(corpus, config))
  {
    var chunks := Indexed(corpus, config);
    PutChunksMap(Dict([], map[]), AllChunks(corpus, config));
    forall id | id in chunks.m ensures id != "" && chunks.m[id].title != "" {
      IndexedChunkIsNamed(corpus, config, id);
    }
  }

  // ----- The candidate lists ------------------------------------------------------------

  lemma StoreIsKeyed(embed: string -> seq<real>, chunks: Dict<Chunk>)
    requires ChunkMap(chunks)
    ensures KeyedById(StoreOf(embed, chunks))
  {
  }

  /** The dense list has no duplicates and names known chunks only. */
  lemma DenseListed(config: RagConfig, p: Providers, chunks: Dict<Chunk>, query: string, topK: nat, filter: Filter)
    requires ChunkMap(chunks)
    ensures
      var ids := HitIds(DenseHits(config, p, chunks, query, topK, filter));
      Distinct(ids) && forall i :: 0 <= i < |ids| ==> ids[i] in chunks.m
  {
    var store := StoreOf(p.embed, chunks);
    StoreIsKeyed(p.embed, chunks);
    var hits := DenseHits(config, p, chunks, query, topK, filter);
    forall i | 0 <= i < |hits| ensures hits[i].id in chunks.m {
      HitIsRecord(store, p.similarity, p.embed(query), topK * 3, filter, i);
    }
    forall i, j | 0 <= i < j < |hits| ensures hits[i].id != hits[j].id {
      HitsOrdered(store, p.similarity, p.embed(query), topK * 3, filter, i, j);
    }
  }

  /** The lexical list has no duplicates and names known chunks only. */
  lemma LexicalListed(p: Providers, chunks: Dict<Chunk>, query: string, topK: nat)
    ensures
      var ids := RankedIds(LexicalHits(p, chunks, query, topK));
      Distinct(ids) && forall i :: 0 <= i < |ids| ==> ids[i] in chunks.m
  {
    var texts := TextMap(chunks.m);
    var all := Eligible(p.ln, Rebuilt(p.tokenise, texts), p.tokenise(query));
    RankingDistinct(all, RankingOf(all));
    var hits := LexicalHits(p, chunks, query, topK);
    forall i | 0 <= i < |hits| ensures hits[i].id in chunks.m {
      assert hits[i] == RankingOf(all)[i];
      assert hits[i].id in all;
    }
  }

  /** Every fused id has a chunk: the branches of `retrieve` that skip a missing one are never taken
      before reranking. */
  lemma UnionIsKnown(config: RagConfig, p: Providers, chunks: Dict<Chunk>, query: string, k: Option<nat>,
      filter: Filter)
    requires ChunkMap(chunks)
    ensures UnionScores(config, p, chunks, query, k, filter).Keys <= chunks.m.Keys
  {
    var topK := TopK(config, k);
    DenseListed(config, p, chunks, query, topK, filter);
    LexicalListed(p, chunks, query, topK);
  }

  // ----- From the fused ranking to the result ---------------------------------------------

  ghost predicate AllKnown(chunks: map<string, Chunk>, fused: seq<Ranked>) {
    forall i :: 0 <= i < |fused| ==> fused[i].id in chunks
  }

  lemma {:induction false} RerankInputFull(chunks: map<string, Chunk>, fused: seq<Ranked>)
    requires AllKnown(chunks, fused)
    ensures |RerankInput(chunks, fused)| == |fused|
    ensures forall i :: 0 <= i < |fused| ==> RerankInput(chunks, fused)[i] == RerankHit(chunks[fused[i].id], fused[i])
  {
    if fused != [] { RerankInputFull(chunks, fused[..|fused| - 1]); }
  }

  /** Building fails exactly when a hit's chunk is rejected, and otherwise turns hit after hit into a chunk. */
  lemma {:induction false} BuildKnown(chunks: map<string, Chunk>, hits: seq<SearchHit>)
    requires forall i :: 0 <= i < |hits| ==> hits[i].id in chunks
    ensures BuildChunks(chunks, hits).Ok? <==>
      forall i :: 0 <= i < |hits| ==> ValidChunk(chunks[hits[i].id], hits[i].id, hits[i].score)
    ensures BuildChunks(chunks, hits).Ok? ==>
      && |BuildChunks(chunks, hits).value| == |hits|
      && forall i :: 0 <= i < |hits| ==>
           BuildChunks(chunks, hits).value[i] == MakeRetrieved(chunks[hits[i].id], hits[i].id, hits[i].score)
  {
    if hits != [] {
      var n := |hits| - 1;
      BuildKnown(chunks, hits[..n]);
      assert forall i :: 0 <= i < n ==> hits[..n][i] == hits[i];
    }
  }

  lemma {:induction false} BestIsFirst(chunks: seq<RetrievedChunk>)
    requires forall i :: 0 < i < |chunks| ==> chunks[0].score >= chunks[i].score
    ensures BestScore(chunks) == if chunks == [] then 0.0 else chunks[0].score
  {
    if |chunks| > 1 {
      var front := chunks[..|chunks| - 1];
      assert forall i :: 0 < i < |front| ==> front[i] == chunks[i];
      BestIsFirst(front);
    }
  }

  /** The entries of the fused ranking that end up in the result. */
  ghost function Winners(scores: map<string, real>, topK: nat): seq<Ranked> {
    Take(RankingOf(scores), topK)
  }

  lemma WinnersReranked(p: Providers, chunks: map<string, Chunk>, query: string, topK: nat, scores: map<string, real>)
    requires scores.Keys <= chunks.Keys && IdentityReranker(p.rerank)
    ensures
      var winners := Winners(scores, topK);
      var hits := p.rerank(query, RerankInput(chunks, Take(RankingOf(scores), topK * 2)), topK);
      && AllKnown(chunks, winners)
      && |hits| == |winners|
      && forall i :: 0 <= i < |winners| ==> hits[i] == RerankHit(chunks[winners[i].id], winners[i])
  {
    var fused := RankingOf(scores);
    var pool := Take(fused, topK * 2);
    forall i | 0 <= i < |pool| ensures pool[i].id in chunks {
      assert pool[i] == fused[i];
      assert fused[i].id in scores.Keys;
    }
    RerankInputFull(chunks, pool);
  }

  /** One chunk a winner, in order, sufficient if the first scores at least tau; an error exactly when the text of
      one of them is empty. */
  ghost predicate Renders(config: RagConfig, chunks: map<string, Chunk>, winners: seq<Ranked>,
      r: Result<RetrievalResult, RagError>)
    requires AllKnown(chunks, winners)
  {
    && (r.Ok? <==> forall i :: 0 <= i < |winners| ==> chunks[winners[i].id].text != "")
    && (r.Ok? ==>
          && |r.value.chunks| == |winners|
          && (forall i :: 0 <= i < |winners| ==>
                r.value.chunks[i] == MakeRetrieved(chunks[winners[i].id], winners[i].id, winners[i].score))
          && BestScore(r.value.chunks) == (if winners == [] then 0.0 else winners[0].score)
          && (r.value.sufficient <==> winners != [] && winners[0].score >= config.tau))
  }

  lemma {:induction false} BuildWinners(config: RagConfig, chunks: Dict<Chunk>, winners: seq<Ranked>,
      hits: seq<SearchHit>)
    requires Named(chunks) && AllKnown(chunks.m, winners) && StrictlySorted(RankBefore, winners)
    requires forall i :: 0 <= i < |winners| ==> winners[i].score >= 0.0
    requires |hits| == |winners|
    requires forall i :: 0 <= i < |winners| ==> hits[i] == RerankHit(chunks.m[winners[i].id], winners[i])
    ensures Renders(config, chunks.m, winners, Judged(config, BuildChunks(chunks.m, hits)))
  {
    BuildKnown(chunks.m, hits);
    var built := BuildChunks(chunks.m, hits);
    if built.Ok? {
      assert forall i :: 0 < i < |winners| ==> RankBefore(winners[0], winners[i]);
      BestIsFirst(built.value);
    }
  }

  /** A result refines the scores: it holds the first min(k, |scores|) of them, best first, all distinct,
      and suffices exactly when the first scores at least tau; there is none, but a validation error, exactly
      when the text of one of those chunks is empty. */
  ghost predicate Refines(config: RagConfig, chunks: map<string, Chunk>, topK: nat, scores: map<string, real>,
      r: Result<RetrievalResult, RagError>)
  {
    var winners := Winners(scores, topK);
    && BestOf(scores, topK, winners)
    && AllKnown(chunks, winners)
    && (forall i, j :: 0 <= i < j < |winners| ==> winners[i].id != winners[j].id)
    && Renders(config, chunks, winners, r)
  }

  lemma WinnersDistinct(scores: map<string, real>, topK: nat)
    requires forall id :: id in scores ==> scores[id] >= 0.0
    ensures
      var winners := Winners(scores, topK);
      && (forall i, j :: 0 <= i < j < |winners| ==> winners[i].id != winners[j].id)
      && (forall i :: 0 <= i < |winners| ==> winners[i].score >= 0.0)
  {
    var winners, all := Winners(scores, topK), RankingOf(scores);
    RankingDistinct(scores, all);
    assert forall i :: 0 <= i < |winners| ==> winners[i] == all[i];
  }

  /** Whatever the fused scores, as long as they are not negative and name known chunks. */
  lemma AnswerRefines(config: RagConfig, p: Providers, chunks: Dict<Chunk>, query: string, topK: nat,
      scores: map<string, real>)
    requires Named(chunks) && IdentityReranker(p.rerank)
    requires scores.Keys <= chunks.m.Keys && forall id :: id in scores ==> scores[id] >= 0.0
    ensures Refines(config, chunks.m, topK, scores, Answer(config, p, chunks.m, query, topK, scores))
  {
    var winners := Winners(scores, topK);
    TakeIsBest(scores, topK);
    WinnersDistinct(scores, topK);
    WinnersReranked(p, chunks.m, query, topK, scores);
    var reranked := p.rerank(query, RerankInput(chunks.m, Take(RankingOf(scores), topK * 2)), topK);
    BuildWinners(config, chunks, winners, reranked);
  }

  /** An answer suffices only if tau is at most every bound on the scores. */
  lemma AnswerBound(config: RagConfig, chunks: map<string, Chunk>, topK: nat, scores: map<string, real>,
      r: Result<RetrievalResult, RagError>, bound: real)
    requires Refines(config, chunks, topK, scores, r) && r.Ok? && r.value.sufficient
    requires forall id :: id in scores ==> scores[id] <= bound
    ensures config.tau <= bound
  {
    var winners := Winners(scores, topK);
    assert winners[0] == RankingOf(scores)[0];
    assert winners[0].id in scores;
  }

  /** The fused scores of known chunks lie between 0 and (dense + lexical weight) / 61. */
  lemma UnionBounded(config: RagConfig, p: Providers, chunks: Dict<Chunk>, query: string, k: Option<nat>,
      filter: Filter)
    requires ChunkMap(chunks)
    requires config.denseWeight >= 0.0 && config.lexicalWeight >= 0.0
    ensures
      var scores := UnionScores(config, p, chunks, query, k, filter);
      forall id :: id in scores ==> 0.0 <= scores[id] <= (config.denseWeight + config.lexicalWeight) / 61.0
  {
    var topK := TopK(config, k);
    DenseListed(config, p, chunks, query, topK, filter);
    LexicalListed(p, chunks, query, topK);
    var dense := HitIds(DenseHits(config, p, chunks, query, topK, filter));
    var lexical := RankedIds(LexicalHits(p, chunks, query, topK));
    var scores := UnionScores(config, p, chunks, query, k, filter);
    forall id | id in scores ensures 0.0 <= scores[id] <= (config.denseWeight + config.lexicalWeight) / 61.0 {
      FusedBound(dense, lexical, config.denseWeight, config.lexicalWeight, id);
    }
  }

  /** Retrieval refines its specification: with the identity reranker the result holds the first
      min(k, |union|) ids of the union of both candidate lists, best fused score first, all distinct,
      and it suffices exactly when the first of them scores at least tau. It fails, with a validation
      error, exactly when the text of one of those chunks is empty. */
  lemma RetrieveRefines(config: RagConfig, p: Providers, chunks: Dict<Chunk>, query: string, k: Option<nat>,
      filter: Filter)
    requires ChunkMap(chunks) && Named(chunks) && IdentityReranker(p.rerank)
    requires config.denseWeight >= 0.0 && config.lexicalWeight >= 0.0
    ensures Refines(config, chunks.m, TopK(config, k), UnionScores(config, p, chunks, query, k, filter),
                    RetrieveSpec(config, p, chunks, query, k, filter))
  {
    UnionIsKnown(config, p, chunks, query, k, filter);
    UnionBounded(config, p, chunks, query, k, filter);
    AnswerRefines(config, p, chunks, query, TopK(config, k), UnionScores(config, p, chunks, query, k, filter));
  }

  /** Sufficiency bound: a context can only suffice when tau is at most (dense + lexical weight) / 61. */
  lemma SufficiencyBound(config: RagConfig, p: Providers, chunks: Dict<Chunk>, query: string, k: Option<nat>,
      filter: Filter)
    requires ChunkMap(chunks) && Named(chunks) && IdentityReranker(p.rerank)
    requires config.denseWeight >= 0.0 && config.lexicalWeight >= 0.0
    requires RetrieveSpec(config, p, chunks, query, k, filter).Ok?
    requires RetrieveSpec(config, p, chunks, query, k, filter).value.sufficient
    ensures config.tau <= (config.denseWeight + config.lexicalWeight) / 61.0
  {
    RetrieveRefines(config, p, chunks, query, k, filter);
    UnionBounded(config, p, chunks, query, k, filter);
    AnswerBound(config, chunks.m, TopK(config, k), UnionScores(config, p, chunks, query, k, filter),
                RetrieveSpec(config, p, chunks, query, k, filter), (config.denseWeight + config.lexicalWeight) / 61.0);
  }

  /** With the default settings and the in-memory providers no context ever suffices. */
  lemma DefaultNeverSufficient(p: Providers, chunks: Dict<Chunk>, query: string, k: Option<nat>, filter: Filter)
    requires ChunkMap(chunks) && Named(chunks) && IdentityReranker(p.rerank)
    requires RetrieveSpec(DEFAULT_CONFIG, p, chunks, query, k, filter).Ok?
    ensures !RetrieveSpec(DEFAULT_CONFIG, p, chunks, query, k, filter).value.sufficient
  {
    if RetrieveSpec(DEFAULT_CONFIG, p, chunks, query, k, filter).value.sufficient {
      SufficiencyBound(DEFAULT_CONFIG, p, chunks, query, k, filter);
    }
  }

  // ----- When a retrieval fails -------------------------------------------------------------

  /** Every chunk of the map has a text. */
  ghost predicate AllHaveText(chunks: map<string, Chunk>) {
    forall id :: id in chunks ==> chunks[id].text != ""
  }

  /** No retrieval fails over chunks that all have a text. */
  lemma RetrieveSucceeds(config: RagConfig, p: Providers, chunks: Dict<Chunk>, query: string, k: Option<nat>,
      filter: Filter)
    requires ChunkMap(chunks) && Named(chunks) && IdentityReranker(p.rerank)
    requires config.denseWeight >= 0.0 && config.lexicalWeight >= 0.0
    requires AllHaveText(chunks.m)
    ensures RetrieveSpec(config, p, chunks, query, k, filter).Ok?
  {
    RetrieveRefines(config, p, chunks, query, k, filter);
  }

  lemma {:induction false} DistinctInside(ids: seq<string>, s: set<string>)
    requires Distinct(ids) && forall i :: 0 <= i < |ids| ==> ids[i] in s
    ensures |ids| <= |s|
  {
    if ids != [] {
      var n := |ids| - 1;
      assert forall i :: 0 <= i < n ==> ids[..n][i] == ids[i];
      DistinctInside(ids[..n], s - {ids[n]});
    }
  }

  /** The chunk's record passes the filter. */
  predicate ChunkPasses(p: Providers, ch: Chunk, filter: Filter) {
    Passes(RecordOf(p.embed, ch), filter)
  }

  /** With room for all, the dense list names every chunk that passes the filter. */
  lemma DenseNamesAll(config: RagConfig, p: Providers, chunks: Dict<Chunk>, query: string, topK: nat, filter: Filter,
      id: string)
    requires ChunkMap(chunks) && topK >= |chunks.m| && id in chunks.m && ChunkPasses(p, chunks.m[id], filter)
    ensures id in HitIds(DenseHits(config, p, chunks, query, topK, filter))
  {
    var store, hits := StoreOf(p.embed, chunks), DenseHits(config, p, chunks, query, topK, filter);
    var ids := HitIds(hits);
    if id !in ids {
      StoreIsKeyed(p.embed, chunks);
      assert id in PassingIds(store, filter);
      forall i | 0 <= i < |hits| ensures hits[i].id != id {
        assert ids[i] == hits[i].id;
      }
      LeftOutIsWorse(store, p.similarity, p.embed(query), topK * 3, filter, id);
      DenseListed(config, p, chunks, query, topK, filter);
      DistinctInside(ids, chunks.m.Keys - {id});
    }
  }

  /** The chunk passes the filter, or the lexical list has it all the same. */
  ghost predicate Reached(config: RagConfig, p: Providers, chunks: Dict<Chunk>, query: string, k: Option<nat>,
      filter: Filter, id: string)
    requires id in chunks.m
  {
    ChunkPasses(p, chunks.m[id], filter) || id in RankedIds(LexicalHits(p, chunks, query, TopK(config, k)))
  }

  /** A filter reaches the dense side only: every fused id passes it or comes from the lexical list. So all do
      if every chunk that shares a token with the query does. */
  lemma FilterReaches(config: RagConfig, p: Providers, chunks: Dict<Chunk>, query: string, k: Option<nat>,
      filter: Filter, id: string)
    requires ChunkMap(chunks) && id in UnionScores(config, p, chunks, query, k, filter)
    ensures id in chunks.m && Reached(config, p, chunks, query, k, filter, id)
  {
    var topK := TopK(config, k);
    UnionIsKnown(config, p, chunks, query, k, filter);
    var hits := DenseHits(config, p, chunks, query, topK, filter);
    var ids := HitIds(hits);
    if id !in RankedIds(LexicalHits(p, chunks, query, topK)) {
      var i :| 0 <= i < |ids| && ids[i] == id;
      StoreIsKeyed(p.embed, chunks);
      HitIsRecord(StoreOf(p.embed, chunks), p.similarity, p.embed(query), topK * 3, filter, i);
    }
  }

  /** With room for all, exactly the chunks reached are fused. */
  lemma UnionExactly(config: RagConfig, p: Providers, chunks: Dict<Chunk>, query: string, k: Option<nat>,
      filter: Filter, id: string)
    requires ChunkMap(chunks) && TopK(config, k) >= |chunks.m|
    ensures id in UnionScores(config, p, chunks, query, k, filter)
       <==> id in chunks.m && Reached(config, p, chunks, query, k, filter, id)
  {
    if id in UnionScores(config, p, chunks, query, k, filter) {
      FilterReaches(config, p, chunks, query, k, filter, id);
    } else if id in chunks.m && ChunkPasses(p, chunks.m[id], filter) {
      DenseNamesAll(config, p, chunks, query, TopK(config, k), filter, id);
    }
  }

  ghost predicate Wins(scores: map<string, real>, topK: nat, i: nat, id: string) {
    i < |Winners(scores, topK)| && Winners(scores, topK)[i].id == id
  }

  /** Every scored id wins when there is room for all. */
  lemma AllWin(scores: map<string, real>, topK: nat, id: string)
    requires topK >= |scores| && id in scores
    ensures exists i :: Wins(scores, topK, i, id)
  {
    var ranking := RankingOf(scores);
    RankingDistinct(scores, ranking);
    assert Winners(scores, topK) == ranking;
    var i :| 0 <= i < |ranking| && ranking[i].id == id;
    assert Wins(scores, topK, i, id);
  }

  /** With room for all chunks, a retrieval fails exactly when some chunk it reaches has no text. */
  lemma RetrieveSucceedsExactly(config: RagConfig, p: Providers, chunks: Dict<Chunk>, query: string, k: Option<nat>,
      filter: Filter)
    requires ChunkMap(chunks) && Named(chunks) && IdentityReranker(p.rerank)
    requires config.denseWeight >= 0.0 && config.lexicalWeight >= 0.0
    requires TopK(config, k) >= |chunks.m|
    ensures RetrieveSpec(config, p, chunks, query, k, filter).Ok? <==>
      forall id :: id in chunks.m && Reached(config, p, chunks, query, k, filter, id) ==> chunks.m[id].text != ""
    ensures filter.None? ==>
      (RetrieveSpec(config, p, chunks, query, k, filter).Ok? <==> AllHaveText(chunks.m))
  {
    var scores := UnionScores(config, p, chunks, query, k, filter);
    RetrieveRefines(config, p, chunks, query, k, filter);
    UnionIsKnown(config, p, chunks, query, k, filter);
    KeysInside(scores, chunks.m);
    forall id ensures id in scores <==> id in chunks.m && Reached(config, p, chunks, query, k, filter, id) {
      UnionExactly(config, p, chunks, query, k, filter, id);
    }
    forall id | id in scores ensures exists i :: Wins(scores, TopK(config, k), i, id) {
      AllWin(scores, TopK(config, k), id);
    }
  }

  lemma RetrieveFails(config: RagConfig, p: Providers, chunks: Dict<Chunk>, query: string, k: Option<nat>,
      filter: Filter, id: string)
    requires ChunkMap(chunks) && Named(chunks) && IdentityReranker(p.rerank)
    requires config.denseWeight >= 0.0 && config.lexicalWeight >= 0.0
    requires TopK(config, k) >= |chunks.m|
    requires id in chunks.m && ChunkPasses(p, chunks.m[id], filter) && chunks.m[id].text == ""
    ensures RetrieveSpec(config, p, chunks, query, k, filter).Err?
  {
    RetrieveSucceedsExactly(config, p, chunks, query, k, filter);
    assert Reached(config, p, chunks, query, k, filter, id);
  }

  lemma KeysInside<V, W>(a: map<string, V>, b: map<string, W>)
    requires a.Keys <= b.Keys
    ensures |a| <= |b|
  {
    SubsetSize(a.Keys, b.Keys);
    assert |a| == |a.Keys| && |b| == |b.Keys|;
  }

  /** A document all of whose sections have words. */
  ghost predicate AllSectionsHaveWords(doc: SourceDoc) {
    forall s :: s in Sections(doc.text, BasePath(doc)) ==> Text.Words(s.text) != []
  }

  lemma GroupHasText(doc: SourceDoc, s: Section, config: RagConfig, ch: Chunk)
    requires s in Sections(doc.text, BasePath(doc)) && Text.Words(s.text) != [] && config.chunkTokens > 0
    requires SplitEnds(|Text.Words(s.text)|, config.chunkTokens, config.chunkOverlap)
    requires ch in SectionChunks(doc, s, config.chunkTokens, config.chunkOverlap)
    ensures ch.text != ""
  {
    var group := SectionChunks(doc, s, config.chunkTokens, config.chunkOverlap);
    var i :| 0 <= i < |group| && group[i] == ch;
    ChunkIsEmpty(doc, s, config.chunkTokens, config.chunkOverlap, i);
  }

  /** What a caller can check before ingesting: if every section of every document has words, every indexed
      chunk has a text, so no retrieval fails. */
  lemma SectionsWithWordsHaveText(corpus: seq<SourceDoc>, config: RagConfig)
    requires CorpusEnds(corpus, config) && config.chunkTokens > 0
    requires forall i :: 0 <= i < |corpus| ==> AllSectionsHaveWords(corpus[i])
    ensures AllHaveText(Indexed(corpus, config).m)
  {
    var m := Indexed(corpus, config).m;
    forall id | id in m ensures m[id].text != "" {
      IndexedProvenance(corpus, config, id);
      var i :| 0 <= i < |corpus| && m[id] in ChunksOf(corpus[i], config.chunkTokens, config.chunkOverlap);
      var groups := SectionGroups(corpus[i], config.chunkTokens, config.chunkOverlap);
      FlattenMember(groups, m[id]);
      var j :| 0 <= j < |groups| && m[id] in groups[j];
      GroupHasText(corpus[i], Sections(corpus[i].text, BasePath(corpus[i]))[j], config, m[id]);
    }
  }

  // ----- Grounding -----------------------------------------------------------------------

  /** A retrieved chunk quotes a chunk of the map under the chunk's own id. */
  ghost predicate Quotes(chunks: map<string, Chunk>, c: RetrievedChunk) {
    && c.citation.clauseId in chunks
    && c.text == chunks[c.citation.clauseId].text
    && c.citation.document == chunks[c.citation.clauseId].title
    && c.citation.snippet <= c.text && c.citation.snippet != ""
  }

  lemma {:induction false} BuildQuotes(chunks: map<string, Chunk>, hits: seq<SearchHit>)
    ensures BuildChunks(chunks, hits).Ok? ==>
      forall i :: 0 <= i < |BuildChunks(chunks, hits).value| ==> Quotes(chunks, BuildChunks(chunks, hits).value[i])
  {
    if hits != [] { BuildQuotes(chunks, hits[..|hits| - 1]); }
  }

  /** Whatever the reranker does, every citation names and quotes a chunk of the map,
      and an empty result never suffices. */
  lemma RetrievalGrounded(config: RagConfig, p: Providers, chunks: Dict<Chunk>, query: string, k: Option<nat>,
      filter: Filter)
    requires ChunkMap(chunks)
    requires RetrieveSpec(config, p, chunks, query, k, filter).Ok?
    ensures
      var r := RetrieveSpec(config, p, chunks, query, k, filter).value;
      && (forall i :: 0 <= i < |r.chunks| ==> Quotes(chunks.m, r.chunks[i]))
      && (r.sufficient ==> r.chunks != [])
  {
    var topK, fused := TopK(config, k), RankingOf(UnionScores(config, p, chunks, query, k, filter));
    BuildQuotes(chunks.m, p.rerank(query, RerankInput(chunks.m, Take(fused, topK * 2)), topK));
  }
}
