// The retrieval pipeline (rag/pipeline.py): ingest keeps three indices in step,
// retrieve fuses two rankings, reranks, and decides whether the context suffices.

module Rag {
  import opened Prelude
  import opened Ranking
  import opened Chunker
  import opened VectorStore
  import opened Bm25
  import opened Fusion

  /** The retrieval settings (infra/settings.py:50-55). */
  datatype RagConfig = RagConfig(k: nat, denseWeight: real, lexicalWeight: real, tau: real, chunkTokens: nat,
      chunkOverlap: int)

  const DEFAULT_CONFIG: RagConfig := RagConfig(5, 0.6, 0.4, 0.35, 450, 50)

  /** The calls into code outside the model, as functions. */
  datatype Providers = Providers(
    embed: string -> seq<real>,
    similarity: Similarity,
    tokenise: string -> seq<string>,
    ln: real -> real,
    rerank: (string, seq<SearchHit>, nat) -> seq<SearchHit>)

  datatype Citation = Citation(clauseId: string, document: string, snippet: string)

  datatype RetrievedChunk = RetrievedChunk(citation: Citation, text: string, score: real)

  datatype RetrievalResult = RetrievalResult(chunks: seq<RetrievedChunk>, sufficient: bool)

  datatype RagError = NotReady | InvalidChunk(clauseId: string)

  datatype IngestReport = IngestReport(docsIngested: nat, chunksCreated: nat)

  // ===== Ingest =====================================================================

  predicate CorpusEnds(corpus: seq<SourceDoc>, config: RagConfig) {
    forall i :: 0 <= i < |corpus| ==> DocumentEnds(corpus[i], config.chunkTokens, config.chunkOverlap)
  }

  /** The chunks of a corpus, document by document. */
  function AllChunks(corpus: seq<SourceDoc>, config: RagConfig): seq<Chunk>
    requires CorpusEnds(corpus, config)
  {
    if corpus == [] then []
    else
      var n := |corpus| - 1;
      AllChunks(corpus[..n], config) + ChunksOf(corpus[n], config.chunkTokens, config.chunkOverlap)
  }

  /** A chunk map after writing chunks in order: the last one written for an id stays. */
  function PutChunks(chunks: Dict<Chunk>, added: seq<Chunk>): Dict<Chunk> {
    if added == [] then chunks
    else
      var n := |added| - 1;
      PutChunks(chunks, added[..n]).Put(added[n].clauseId, added[n])
  }

  function RecordOf(embed: string -> seq<real>, ch: Chunk): VectorRecord {
    VectorRecord(ch.clauseId, ch.text, embed(ch.text),
      map["doc_id" := ch.docId, "title" := ch.title, "clause_id" := ch.clauseId] + ch.metadata)
  }

  function RecordsOf(embed: string -> seq<real>, added: seq<Chunk>): (r: seq<VectorRecord>)
    ensures |r| == |added|
    ensures forall i :: 0 <= i < |added| ==> r[i] == RecordOf(embed, added[i])
  {
    seq(|added|, i requires 0 <= i < |added| => RecordOf(embed, added[i]))
  }

  /** The vector store that holds the record of every chunk, keys in the same order. */
  ghost function StoreOf(embed: string -> seq<real>, chunks: Dict<Chunk>): Dict<VectorRecord> {
    Dict(chunks.keys, map id | id in chunks.m :: RecordOf(embed, chunks.m[id]))
  }

  ghost function TextMap(chunks: map<string, Chunk>): map<string, string> {
    map id | id in chunks :: chunks[id].text
  }

  ghost predicate ChunkMap(chunks: Dict<Chunk>) {
    chunks.Valid() && forall id :: id in chunks.m ==> chunks.m[id].clauseId == id
  }

  lemma TextMapPut(chunks: map<string, Chunk>, ch: Chunk)
    ensures TextMap(chunks[ch.clauseId := ch]) == TextMap(chunks)[ch.clauseId := ch.text]
  {
    var a, b := TextMap(chunks[ch.clauseId := ch]), TextMap(chunks)[ch.clauseId := ch.text];
    assert a.Keys == b.Keys;
    forall k | k in a ensures a[k] == b[k] {
    }
  }

  lemma StorePut(embed: string -> seq<real>, chunks: Dict<Chunk>, ch: Chunk)
    ensures StoreOf(embed, chunks.Put(ch.clauseId, ch)) == StoreOf(embed, chunks).Put(ch.clauseId, RecordOf(embed, ch))
  {
    var a := StoreOf(embed, chunks.Put(ch.clauseId, ch)).m;
    var b := StoreOf(embed, chunks).Put(ch.clauseId, RecordOf(embed, ch)).m;
    assert a.Keys == b.Keys;
    forall k | k in a ensures a[k] == b[k] {
    }
  }

  /** Upserting the records of new chunks tracks writing the chunks. */
  lemma {:induction false} StorePutAll(embed: string -> seq<real>, chunks: Dict<Chunk>, added: seq<Chunk>)
    ensures PutAll(StoreOf(embed, chunks), RecordsOf(embed, added)) == StoreOf(embed, PutChunks(chunks, added))
  {
    if added != [] {
      var n := |added| - 1;
      StorePutAll(embed, chunks, added[..n]);
      assert RecordsOf(embed, added)[..n] == RecordsOf(embed, added[..n]);
      StorePut(embed, PutChunks(chunks, added[..n]), added[n]);
    }
  }

  lemma PutChunksStep(chunks: Dict<Chunk>, added: seq<Chunk>, i: nat)
    requires i < |added|
    ensures PutChunks(chunks, added[..i + 1]) == PutChunks(chunks, added[..i]).Put(added[i].clauseId, added[i])
  {
    assert added[..i + 1][..i] == added[..i];
  }

  lemma {:induction false} PutChunksConcat(chunks: Dict<Chunk>, a: seq<Chunk>, b: seq<Chunk>)
    ensures PutChunks(chunks, a + b) == PutChunks(PutChunks(chunks, a), b)
  {
    if b == [] {
      assert a + b == a;
    } else {
      var n := |b| - 1;
      assert (a + b)[..|a + b| - 1] == a + b[..n];
      PutChunksConcat(chunks, a, b[..n]);
    }
  }

  lemma {:induction false} PutChunksMap(chunks: Dict<Chunk>, added: seq<Chunk>)
    requires ChunkMap(chunks)
    ensures ChunkMap(PutChunks(chunks, added))
    ensures forall id :: id in PutChunks(chunks, added).m ==>
      (id in chunks.m && PutChunks(chunks, added).m[id] == chunks.m[id]) || PutChunks(chunks, added).m[id] in added
  {
    if added != [] {
      PutChunksMap(chunks, added[..|added| - 1]);
    }
  }

  lemma CorpusConcatEnds(a: seq<SourceDoc>, b: seq<SourceDoc>, config: RagConfig)
    requires CorpusEnds(a, config) && CorpusEnds(b, config)
    ensures CorpusEnds(a + b, config)
  {
  }

  /** One document more. */
  lemma {:induction false} AllChunksSnoc(corpus: seq<SourceDoc>, doc: SourceDoc, config: RagConfig)
    requires CorpusEnds(corpus + [doc], config)
    ensures CorpusEnds(corpus, config) && DocumentEnds(doc, config.chunkTokens, config.chunkOverlap)
    ensures AllChunks(corpus + [doc], config)
         == AllChunks(corpus, config) + ChunksOf(doc, config.chunkTokens, config.chunkOverlap)
  {
    var longer := corpus + [doc];
    assert forall i :: 0 <= i < |corpus| ==> longer[i] == corpus[i];
    assert longer[|corpus|] == doc && longer[..|corpus|] == corpus;
  }

  lemma {:induction false} ChunksTurn(docs: seq<SourceDoc>, i: nat, config: RagConfig)
    requires CorpusEnds(docs, config) && i < |docs|
    ensures AllChunks(docs[..i + 1], config)
         == AllChunks(docs[..i], config) + ChunksOf(docs[i], config.chunkTokens, config.chunkOverlap)
  {
    assert docs[..i + 1] == docs[..i] + [docs[i]];
    AllChunksSnoc(docs[..i], docs[i], config);
  }

  lemma {:induction false} AllChunksConcat(a: seq<SourceDoc>, b: seq<SourceDoc>, config: RagConfig)
    requires CorpusEnds(a, config) && CorpusEnds(b, config) && CorpusEnds(a + b, config)
    ensures AllChunks(a + b, config) == AllChunks(a, config) + AllChunks(b, config)
  {
    if b == [] {
      assert a + b == a;
    } else {
      var front, last := b[..|b| - 1], b[|b| - 1];
      assert b == front + [last] && a + b == a + front + [last];
      AllChunksSnoc(front, last, config);
      AllChunksSnoc(a + front, last, config);
      AllChunksConcat(a, front, config);
      ConcatAssoc(AllChunks(a, config), AllChunks(front, config),
        ChunksOf(last, config.chunkTokens, config.chunkOverlap));
    }
  }

  lemma {:induction false} FlattenMember<T>(groups: seq<seq<T>>, x: T)
    requires x in Flatten(groups)
    ensures exists i :: 0 <= i < |groups| && x in groups[i]
  {
    if x !in groups[0] {
      FlattenMember(groups[1..], x);
      var i :| 0 <= i < |groups| - 1 && x in groups[1..][i];
      assert x in groups[i + 1];
    }
  }

  /** Every chunk of a corpus is produced by chunking one of its documents. */
  lemma {:induction false} ChunkSource(corpus: seq<SourceDoc>, config: RagConfig, ch: Chunk)
    requires CorpusEnds(corpus, config) && ch in AllChunks(corpus, config)
    ensures exists i :: 0 <= i < |corpus| && ch in ChunksOf(corpus[i], config.chunkTokens, config.chunkOverlap)
  {
    var n := |corpus| - 1;
    if ch !in ChunksOf(corpus[n], config.chunkTokens, config.chunkOverlap) {
      ChunkSource(corpus[..n], config, ch);
      var i :| 0 <= i < n && ch in ChunksOf(corpus[..n][i], config.chunkTokens, config.chunkOverlap);
      assert corpus[i] == corpus[..n][i];
    }
  }

  /** The chunk map of a pipeline that has ingested `corpus`, in any number of calls. */
  function Indexed(corpus: seq<SourceDoc>, config: RagConfig): Dict<Chunk>
    requires CorpusEnds(corpus, config)
  {
    PutChunks(Dict([], map[]), AllChunks(corpus, config))
  }

  /** Ingesting more documents writes their chunks on top. */
  lemma IndexedConcat(corpus: seq<SourceDoc>, docs: seq<SourceDoc>, config: RagConfig)
    requires CorpusEnds(corpus, config) && CorpusEnds(docs, config)
    ensures CorpusEnds(corpus + docs, config)
    ensures Indexed(corpus + docs, config) == PutChunks(Indexed(corpus, config), AllChunks(docs, config))
  {
    CorpusConcatEnds(corpus, docs, config);
    AllChunksConcat(corpus, docs, config);
    PutChunksConcat(Dict([], map[]), AllChunks(corpus, config), AllChunks(docs, config));
  }

  /** Writing the chunks of more documents into the chunk map and their records into the store. */
  lemma IngestStep(config: RagConfig, embed: string -> seq<real>, corpus: seq<SourceDoc>, docs: seq<SourceDoc>)
    requires CorpusEnds(corpus, config) && CorpusEnds(docs, config) && ChunkMap(Indexed(corpus, config))
    ensures CorpusEnds(corpus + docs, config) && ChunkMap(Indexed(corpus + docs, config))
    ensures Indexed(corpus + docs, config) == PutChunks(Indexed(corpus, config), AllChunks(docs, config))
    ensures PutAll(StoreOf(embed, Indexed(corpus, config)), RecordsOf(embed, AllChunks(docs, config)))
         == StoreOf(embed, Indexed(corpus + docs, config))
  {
    var chunks, all := Indexed(corpus, config), AllChunks(docs, config);
    StorePutAll(embed, chunks, all);
    PutChunksMap(chunks, all);
    IndexedConcat(corpus, docs, config);
  }

  /** `added[i]` is the last chunk with its id. */
  ghost predicate LastWithId(added: seq<Chunk>, i: nat) {
    i < |added| && forall j :: i < j < |added| ==> added[j].clauseId != added[i].clauseId
  }

  ghost predicate HasId(added: seq<Chunk>, id: string) {
    exists i :: 0 <= i < |added| && added[i].clauseId == id
  }

  lemma HasIdStep(added: seq<Chunk>, id: string)
    requires added != []
    ensures HasId(added, id) <==> HasId(added[..|added| - 1], id) || added[|added| - 1].clauseId == id
  {
    var n := |added| - 1;
    assert forall i :: 0 <= i < n ==> added[..n][i] == added[i];
  }

  lemma {:induction false} PutChunksKeys(chunks: Dict<Chunk>, added: seq<Chunk>, id: string)
    ensures id in PutChunks(chunks, added).m <==> id in chunks.m || HasId(added, id)
  {
    if added != [] {
      PutChunksKeys(chunks, added[..|added| - 1], id);
      HasIdStep(added, id);
    }
  }

  lemma {:induction false} PutChunksKeepsLast(chunks: Dict<Chunk>, added: seq<Chunk>, i: nat)
    requires LastWithId(added, i)
    ensures added[i].clauseId in PutChunks(chunks, added).m
    ensures PutChunks(chunks, added).m[added[i].clauseId] == added[i]
    decreases |added|
  {
    var n := |added| - 1;
    if i < n {
      assert forall j :: 0 <= j < n ==> added[..n][j] == added[j];
      PutChunksKeepsLast(chunks, added[..n], i);
    }
  }

  /** The chunk map, exactly: an id is a key if and only if some chunk of the corpus has it, and the last such
      chunk is its value. */
  lemma IndexedExactly(corpus: seq<SourceDoc>, config: RagConfig)
    requires CorpusEnds(corpus, config)
    ensures
      var all, m := AllChunks(corpus, config), Indexed(corpus, config).m;
      && (forall id :: id in m <==> HasId(all, id))
      && (forall i: nat :: LastWithId(all, i) ==> all[i].clauseId in m && m[all[i].clauseId] == all[i])
  {
    var all, m := AllChunks(corpus, config), Indexed(corpus, config).m;
    forall id ensures id in m <==> HasId(all, id) {
      PutChunksKeys(Dict([], map[]), all, id);
    }
    forall i: nat | LastWithId(all, i) ensures all[i].clauseId in m && m[all[i].clauseId] == all[i] {
      PutChunksKeepsLast(Dict([], map[]), all, i);
    }
  }

  // ----- Colliding clause ids ------------------------------------------------------------

  /** The chunk is still what the chunk map holds under its id. */
  ghost predicate Survives(m: map<string, Chunk>, ch: Chunk) {
    ch.clauseId in m && m[ch.clauseId] == ch
  }

  /** No two different chunks share an id. */
  ghost predicate NoCollision(all: seq<Chunk>) {
    forall i, j :: 0 <= i < j < |all| && all[i].clauseId == all[j].clauseId ==> all[i] == all[j]
  }

  ghost predicate DistinctIds(all: seq<Chunk>) {
    forall i, j :: 0 <= i < j < |all| ==> all[i].clauseId != all[j].clauseId
  }

  lemma {:induction false} LastOfId(all: seq<Chunk>, i: nat) returns (k: nat)
    requires i < |all|
    ensures i <= k && LastWithId(all, k) && all[k].clauseId == all[i].clauseId
    decreases |all| - i
  {
    if LastWithId(all, i) {
      k := i;
    } else {
      var j :| i < j < |all| && all[j].clauseId == all[i].clauseId;
      k := LastOfId(all, j);
    }
  }

  /** Ingest keeps every chunk of a corpus, in all three indices, exactly when no two different chunks share a
      clause id. */
  lemma IngestKeepsAllExactly(corpus: seq<SourceDoc>, config: RagConfig)
    requires CorpusEnds(corpus, config)
    ensures
      var all, m := AllChunks(corpus, config), Indexed(corpus, config).m;
      (forall i :: 0 <= i < |all| ==> Survives(m, all[i])) <==> NoCollision(all)
  {
    var all, m := AllChunks(corpus, config), Indexed(corpus, config).m;
    IndexedExactly(corpus, config);
    forall i | 0 <= i < |all| && NoCollision(all) ensures Survives(m, all[i]) {
      var k := LastOfId(all, i);
      assert i < k ==> all[i] == all[k];
    }
    if forall i :: 0 <= i < |all| ==> Survives(m, all[i]) {
      forall i, j | 0 <= i < j < |all| && all[i].clauseId == all[j].clauseId ensures all[i] == all[j] {
        assert Survives(m, all[i]) && Survives(m, all[j]);
      }
    }
  }

  lemma {:induction false} PutChunksCount(added: seq<Chunk>)
    ensures
      var d := PutChunks(Dict([], map[]), added);
      d.Valid() && |d.keys| <= |added| && (|d.keys| == |added| <==> DistinctIds(added))
  {
    if added != [] {
      var n := |added| - 1;
      PutChunksCount(added[..n]);
      PutChunksKeys(Dict([], map[]), added[..n], added[n].clauseId);
      assert forall i :: 0 <= i < n ==> added[..n][i] == added[i];
      if DistinctIds(added) {
        assert DistinctIds(added[..n]) && !HasId(added[..n], added[n].clauseId);
      } else if DistinctIds(added[..n]) {
        var i, j :| 0 <= i < j < |added| && added[i].clauseId == added[j].clauseId;
        assert added[..n][i] == added[i];
        assert j == n && HasId(added[..n], added[n].clauseId);
      }
    }
  }

  /** There are as many entries as chunks exactly when all their clause ids differ. */
  lemma EntriesCountChunks(corpus: seq<SourceDoc>, config: RagConfig)
    requires CorpusEnds(corpus, config)
    ensures |Indexed(corpus, config).keys| <= |AllChunks(corpus, config)|
    ensures |Indexed(corpus, config).keys| == |AllChunks(corpus, config)| <==> DistinctIds(AllChunks(corpus, config))
  {
    PutChunksCount(AllChunks(corpus, config));
  }

  /** What a stored record says of an indexed chunk: the chunk's text and that text's embedding, and in the metadata the
      chunk's own entries, and `doc_id`, `title` and `clause_id` where the chunk's own do not set them. */
  ghost predicate Describes(embed: string -> seq<real>, rec: VectorRecord, ch: Chunk) {
    && rec.id == ch.clauseId && rec.text == ch.text && rec.embedding == embed(ch.text)
    && (forall key :: key in ch.metadata ==> key in rec.metadata && rec.metadata[key] == ch.metadata[key])
    && rec.metadata.Keys == ch.metadata.Keys + {"doc_id", "title", "clause_id"}
    && ("doc_id" !in ch.metadata ==> rec.metadata["doc_id"] == ch.docId)
    && ("title" !in ch.metadata ==> rec.metadata["title"] == ch.title)
    && ("clause_id" !in ch.metadata ==> rec.metadata["clause_id"] == ch.clauseId)
  }

  lemma RecordDescribes(embed: string -> seq<real>, ch: Chunk)
    ensures Describes(embed, RecordOf(embed, ch), ch)
  {
    var named := map["doc_id" := ch.docId, "title" := ch.title, "clause_id" := ch.clauseId];
    assert "doc_id" != "title" && "title" != "clause_id" && "doc_id" != "clause_id" by {
      assert |"title"| == 5 && |"doc_id"| == 6 && |"clause_id"| == 9;
    }
    assert named.Keys == {"doc_id", "title", "clause_id"};
  }

  /** The vector store beside the chunk map of a corpus holds one record a key, and it describes the key's chunk. */
  lemma StoreDescribes(embed: string -> seq<real>, corpus: seq<SourceDoc>, config: RagConfig)
    requires CorpusEnds(corpus, config)
    ensures
      var chunks := Indexed(corpus, config);
      var store := StoreOf(embed, chunks);
      && store.keys == chunks.keys && store.m.Keys == chunks.m.Keys
      && forall id :: id in chunks.m ==> Describes(embed, store.m[id], chunks.m[id])
  {
    var chunks := Indexed(corpus, config);
    forall id | id in chunks.m ensures Describes(embed, StoreOf(embed, chunks).m[id], chunks.m[id]) {
      RecordDescribes(embed, chunks.m[id]);
    }
  }

  /** Each key of the chunk map names a chunk some ingested document produced. */
  lemma IndexedProvenance(corpus: seq<SourceDoc>, config: RagConfig, id: string)
    requires CorpusEnds(corpus, config) && id in Indexed(corpus, config).m
    ensures Indexed(corpus, config).m[id].clauseId == id
    ensures
      var ch := Indexed(corpus, config).m[id];
      exists i :: 0 <= i < |corpus| && ch in ChunksOf(corpus[i], config.chunkTokens, config.chunkOverlap)
  {
    PutChunksMap(Dict([], map[]), AllChunks(corpus, config));
    ChunkSource(corpus, config, Indexed(corpus, config).m[id]);
  }

  // ===== Retrieve ===================================================================

  function TopK(config: RagConfig, k: Option<nat>): nat {
    if k.Some? && k.value > 0 then k.value else config.k
  }

  /** The candidates handed to the reranker; an id without a chunk is passed over. */
  function RerankInput(chunks: map<string, Chunk>, fused: seq<Ranked>): seq<SearchHit> {
    if fused == [] then []
    else
      var n := |fused| - 1;
      RerankInput(chunks, fused[..n]) +
      if fused[n].id !in chunks then [] else [RerankHit(chunks[fused[n].id], fused[n])]
  }

  function RerankHit(ch: Chunk, entry: Ranked): SearchHit {
    SearchHit(entry.id, ch.text, entry.score, map["doc_id" := ch.docId, "title" := ch.title, "clause_id" := entry.id])
  }

  /** The validators of `Citation` and `RetrievedChunk`: no empty string, no negative score. */
  predicate ValidChunk(ch: Chunk, id: string, score: real) {
    id != "" && ch.title != "" && ch.text != "" && score >= 0.0
  }

  function MakeRetrieved(ch: Chunk, id: string, score: real): RetrievedChunk {
    RetrievedChunk(Citation(id, ch.title, Take(ch.text, 200)), ch.text, score)
  }

  /** The retrieved chunks for reranked hits, or the first one a validator rejects. */
  function BuildChunks(chunks: map<string, Chunk>, hits: seq<SearchHit>): Result<seq<RetrievedChunk>, RagError> {
    if hits == [] then Ok([])
    else
      var n := |hits| - 1;
      var front, hit := BuildChunks(chunks, hits[..n]), hits[n];
      if front.Err? || hit.id !in chunks then front
      else if !ValidChunk(chunks[hit.id], hit.id, hit.score) then Err(InvalidChunk(hit.id))
      else Ok(front.value + [MakeRetrieved(chunks[hit.id], hit.id, hit.score)])
  }

  /** `max((c.score for c in chunks), default=0.0)` */
  function BestScore(chunks: seq<RetrievedChunk>): real {
    if chunks == [] then 0.0
    else if |chunks| == 1 then chunks[0].score
    else
      var n := |chunks| - 1;
      if BestScore(chunks[..n]) >= chunks[n].score then BestScore(chunks[..n]) else chunks[n].score
  }

  ghost function DenseHits(config: RagConfig, p: Providers, chunks: Dict<Chunk>, query: string, topK: nat,
      filter: Filter): seq<SearchHit>
    requires ChunkMap(chunks)
  {
    DenseSpec(StoreOf(p.embed, chunks), p.similarity, p.embed(query), topK * 3, filter)
  }

  ghost function LexicalHits(p: Providers, chunks: Dict<Chunk>, query: string, topK: nat): seq<Ranked> {
    SearchSpec(p.tokenise, p.ln, TextMap(chunks.m), query, topK * 3)
  }

  /** The fused scores of the union of both candidate lists. */
  ghost function UnionScores(config: RagConfig, p: Providers, chunks: Dict<Chunk>, query: string, k: Option<nat>,
      filter: Filter): map<string, real>
    requires ChunkMap(chunks)
  {
    var topK := TopK(config, k);
    var dense, lexical := DenseHits(config, p, chunks, query, topK, filter), LexicalHits(p, chunks, query, topK);
    FusedScores(HitIds(dense), RankedIds(lexical), config.denseWeight, config.lexicalWeight)
  }

  /** The result for the chunks built, judged by the best score, or the validation error. */
  function Judged(config: RagConfig, built: Result<seq<RetrievedChunk>, RagError>): Result<RetrievalResult, RagError> {
    if built.Err? then Err(built.error)
    else Ok(RetrievalResult(built.value, built.value != [] && BestScore(built.value) >= config.tau))
  }

  /** What `retrieve` makes of the fused scores: rank, rerank, build the chunks, judge sufficiency. */
  ghost function Answer(config: RagConfig, p: Providers, chunks: map<string, Chunk>, query: string, topK: nat,
      scores: map<string, real>): Result<RetrievalResult, RagError>
  {
    var reranked := p.rerank(query, RerankInput(chunks, Take(RankingOf(scores), topK * 2)), topK);
    Judged(config, BuildChunks(chunks, reranked))
  }

  /** What `retrieve` returns once a corpus is ingested, as a function of the chunk map. */
  ghost function RetrieveSpec(config: RagConfig, p: Providers, chunks: Dict<Chunk>, query: string, k: Option<nat>,
      filter: Filter): Result<RetrievalResult, RagError>
    requires ChunkMap(chunks)
  {
    Answer(config, p, chunks.m, query, TopK(config, k), UnionScores(config, p, chunks, query, k, filter))
  }

  class RagPipeline {
    const config: RagConfig
    const providers: Providers
    const vs: FakeVectorStore
    const bm25: BM25Index
    var chunks: Dict<Chunk>
    var ingested: bool
    /** Every document ingested so far, in order. */
    ghost var corpus: seq<SourceDoc>

    /** The chunk map, the BM25 index and the vector store hold the same keys and last-written texts. */
    ghost predicate Agree()
      reads this, vs, bm25
    {
      && bm25.Texts() == TextMap(chunks.m)
      && vs.store == StoreOf(providers.embed, chunks)
    }

    ghost predicate Valid()
      reads this, vs, bm25
    {
      && bm25.Valid() && vs.Valid() && ChunkMap(chunks)
      && bm25.tokenise == providers.tokenise && bm25.ln == providers.ln && vs.similarity == providers.similarity
      && CorpusEnds(corpus, config)
      && chunks == Indexed(corpus, config)
      && Agree()
    }

    constructor (config: RagConfig, providers: Providers, vs: FakeVectorStore)
      requires vs.Valid() && vs.store == Dict([], map[]) && vs.similarity == providers.similarity
      ensures Valid() && corpus == [] && !ingested
      ensures this.config == config && this.providers == providers && this.vs == vs && fresh(bm25)
    {
      this.config := config;
      this.providers := providers;
      this.vs := vs;
      bm25 := new BM25Index(providers.tokenise, providers.ln);
      chunks := Dict([], map[]);
      ingested := false;
      corpus := [];
      new;
      assert TextMap(chunks.m) == map[];
      assert StoreOf(providers.embed, chunks) == Dict([], map[]);
    }

    method Ingest(docs: seq<SourceDoc>) returns (report: IngestReport)
      requires Valid() && CorpusEnds(docs, config)
      modifies this, vs, bm25
      ensures Valid() && ingested
      ensures corpus == old(corpus) + docs
      ensures report == IngestReport(|docs|, |AllChunks(docs, config)|)
    {
      var all := ChunkCorpus(docs);
      IngestStep(config, providers.embed, corpus, docs);
      IndexChunks(all);
      corpus := corpus + docs;
      ingested := true;
      report := IngestReport(|docs|, |all|);
    }

    /** The chunks go into all three indices. */
    method IndexChunks(all: seq<Chunk>)
      requires bm25.Valid() && bm25.Texts() == TextMap(chunks.m) && vs.Valid()
      modifies this`chunks, vs, bm25
      ensures bm25.Valid() && bm25.Texts() == TextMap(chunks.m) && vs.Valid()
      ensures chunks == PutChunks(old(chunks), all)
      ensures vs.store == PutAll(old(vs.store), RecordsOf(providers.embed, all))
    {
      var records := RecordsOf(providers.embed, all);
      WriteChunks(all);
      if all != [] {
        vs.Upsert(records);
      } else {
        assert PutAll(vs.store, records) == vs.store;
      }
    }

    method ChunkCorpus(docs: seq<SourceDoc>) returns (all: seq<Chunk>)
      requires CorpusEnds(docs, config)
      ensures all == AllChunks(docs, config)
    {
      all := [];
      for i := 0 to |docs|
        invariant all == AllChunks(docs[..i], config)
      {
        ChunksTurn(docs, i, config);
        var cs := ChunkDocument(docs[i], config.chunkTokens, config.chunkOverlap);
        all := all + cs;
      }
      assert docs[..|docs|] == docs;
    }

    /** The loop of `ingest` that fills the chunk map and the BM25 index. */
    method WriteChunks(all: seq<Chunk>)
      requires bm25.Valid() && bm25.Texts() == TextMap(chunks.m)
      modifies this`chunks, bm25
      ensures bm25.Valid() && chunks == PutChunks(old(chunks), all)
      ensures bm25.Texts() == TextMap(chunks.m)
    {
      for i := 0 to |all|
        invariant bm25.Valid()
        invariant chunks == PutChunks(old(chunks), all[..i])
        invariant bm25.Texts() == TextMap(chunks.m)
      {
        PutChunksStep(old(chunks), all, i);
        WriteChunk(all[i]);
      }
      assert all[..|all|] == all;
    }

    method WriteChunk(ch: Chunk)
      requires bm25.Valid() && bm25.Texts() == TextMap(chunks.m)
      modifies this`chunks, bm25
      ensures bm25.Valid() && bm25.Texts() == TextMap(chunks.m)
      ensures chunks == old(chunks).Put(ch.clauseId, ch)
    {
      TextMapPut(chunks.m, ch);
      chunks := chunks.Put(ch.clauseId, ch);
      bm25.Add(ch.clauseId, ch.text);
    }

    method Retrieve(query: string, k: Option<nat>, filter: Filter) returns (r: Result<RetrievalResult, RagError>)
      requires Valid() && PositiveAboveOne(providers.ln)
      ensures !ingested ==> r == Err(NotReady)
      ensures ingested ==> r == RetrieveSpec(config, providers, chunks, query, k, filter)
    {
      if !ingested {
        return Err(NotReady);
      }
      var topK := TopK(config, k);
      var dense := vs.Search(providers.embed(query), topK * 3, filter);
      var lexical := bm25.Search(query, topK * 3);
      assert dense == DenseHits(config, providers, chunks, query, topK, filter);
      assert lexical == LexicalHits(providers, chunks, query, topK);
      var fused := ReciprocalRankFusion(dense, lexical, config.denseWeight, config.lexicalWeight);
      assert fused == RankingOf(UnionScores(config, providers, chunks, query, k, filter));
      var input := MakeRerankInput(Take(fused, topK * 2));
      var reranked := providers.rerank(query, input, topK);
      var built := MakeChunks(reranked);
      if built.Err? {
        return Err(built.error);
      }
      var best := MaxScore(built.value);
      r := Ok(RetrievalResult(built.value, built.value != [] && best >= config.tau));
    }

    method MakeRerankInput(fused: seq<Ranked>) returns (input: seq<SearchHit>)
      ensures input == RerankInput(chunks.m, fused)
    {
      input := [];
      for i := 0 to |fused|
        invariant input == RerankInput(chunks.m, fused[..i])
      {
        var entry := fused[i];
        assert fused[..i + 1][..i] == fused[..i];
        if entry.id in chunks.m {
          input := input + [RerankHit(chunks.m[entry.id], entry)];
        }
      }
      assert fused[..|fused|] == fused;
    }

    method MakeChunks(hits: seq<SearchHit>) returns (r: Result<seq<RetrievedChunk>, RagError>)
      ensures r == BuildChunks(chunks.m, hits)
    {
      var found: seq<RetrievedChunk> := [];
      for i := 0 to |hits|
        invariant BuildChunks(chunks.m, hits[..i]) == Ok(found)
      {
        var hit := hits[i];
        assert hits[..i + 1][..i] == hits[..i];
        if hit.id in chunks.m {
          if !ValidChunk(chunks.m[hit.id], hit.id, hit.score) {
            FirstErrorStays(chunks.m, hits, i + 1);
            return Err(InvalidChunk(hit.id));
          }
          found := found + [MakeRetrieved(chunks.m[hit.id], hit.id, hit.score)];
        }
      }
      assert hits[..|hits|] == hits;
      r := Ok(found);
    }
  }

  lemma {:induction false} FirstErrorStays(chunks: map<string, Chunk>, hits: seq<SearchHit>, i: nat)
    requires i <= |hits| && BuildChunks(chunks, hits[..i]).Err?
    ensures BuildChunks(chunks, hits) == BuildChunks(chunks, hits[..i])
    decreases |hits|
  {
    if i == |hits| {
      assert hits[..i] == hits;
    } else {
      var n := |hits| - 1;
      assert hits[..n][..i] == hits[..i];
      FirstErrorStays(chunks, hits[..n], i);
    }
  }

  method MaxScore(chunks: seq<RetrievedChunk>) returns (best: real)
    ensures best == BestScore(chunks)
  {
    best := 0.0;
    for i := 0 to |chunks|
      invariant best == BestScore(chunks[..i])
    {
      assert chunks[..i + 1][..i] == chunks[..i];
      if i == 0 || chunks[i].score > best {
        best := chunks[i].score;
      }
    }
    assert chunks[..|chunks|] == chunks;
  }
}
