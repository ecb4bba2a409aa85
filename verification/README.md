# ClaimPilot, verified

A Dafny model of ClaimPilot's claim adjudication: a hybrid retrieval engine over policy documents, six LLM-backed
agents behind an error-catching graph, and an API whose worker, stream readers and human reviewers share a store, a
message queue and an event bus. The LLM is an arbitrary value at every call, so what is proved holds whatever it says.

`dafny verify dfyconfig.toml` checks everything.

## Layout

| file | models |
|---|---|
| `Prelude.dfy`, `Text.dfy`, `Ranking.dfy` | insertion-ordered dictionaries, `str` operations, sorting by `(-score, id)` |
| `Chunker.dfy` | `rag/chunker.py`: headings, sections, overlapping splits |
| `Bm25.dfy`, `VectorStore.dfy`, `Cosine.dfy`, `Fusion.dfy` | the two indices, cosine similarity, and reciprocal-rank fusion |
| `RagPipeline.dfy`, `RagTheorems.dfy`, `HybridResults.dfy`, `ClauseIds.dfy` | `rag/pipeline.py`: ingest, retrieve, sufficiency, what a result is in terms of the two candidate lists, and when clause ids cannot collide |
| `KeyCodec.dfy` | the document-key codec of `infra/providers/azure/vector_store.py` (section 5 of RFC 4648 over section 3 of RFC 3629) |
| `CostMeter.dfy`, `Agents.dfy` | token prices and summaries; coverage, fraud, settlement and compliance agents |
| `Graph.dfy`, `GraphTheorems.dfy`, `RunMeaning.dfy` | `graph/`: nodes, wrappers, edges, runs, and what a run comes to in terms of the answers it gets |
| `Lifecycle.dfy`, `LifecycleTheorems.dfy`, `Streams.dfy`, `Readers.dfy`, `ExactlyOnce.dfy`, `SharedQueues.dfy`, `SoleReaders.dfy` | the worker, reader and human-decision protocol as steps over one state, and what all its interleavings keep |
| `Infra.dfy`, `Worker.dfy`, `Sse.dfy` | the same actors on the heap: a worker iteration, a reader's resumption, a submission and a human decision are each proved to take the heap through the protocol's steps |
| `Inputs.dfy` | concrete inputs on which the code does what its documentation does not say |
| `EndToEnd.dfy` | the claims that span ingest, graph and API |

Numbers are exact (`real`, `int`). Calls into code outside the model (embedding, tokenisation, the logarithm, the
reranker, lower-casing, the order in which Python iterates over a set) are function-valued parameters; a property that
needs one to be well behaved says so. Methods follow the source's loops and assignments and are proved equal to
specification functions; the lemmas are about those functions.

## Where the code and its comments differ

- `_split_by_tokens` ends on a long text only when the overlap is below `max_tokens`, and keeps every word only when it
  is not negative; nothing enforces either (`Chunker.SplitEndsExactly`, `Chunker.CoverageExact`).
- `chunk_document` cuts every document at its headings, not only those that carry a `section_path`; that one only goes in
  front of the headings' paths (`Chunker.HeadingChunks`).
- Two equal headings in one document give two chunks the same clause id, and the first section's text leaves all three
  indices (`Inputs.SectionsCollide`). Ingest keeps every chunk exactly when no two different chunks share an id
  (`Rag.IngestKeepsAllExactly`), and does so whenever no document id with its section path is another's, or another's
  followed by a part number (`ClauseIds.SeparateSectionsKeepAll`).
- The validators accept a document of white space; it is indexed as a chunk without text, and a retrieval over it alone
  fails with a validation error, whatever the query and the number of results, under every filter the chunk passes
  (`Inputs.BlankFails`). A chunk is empty exactly when its section has no words (`Chunker.ChunkIsEmpty`). With the
  in-memory reranker, which keeps the order, no retrieval fails when every chunk has a text, and with room for all chunks
  one fails exactly when a chunk it reaches has none (`RagTheorems.RetrieveSucceeds`,
  `RagTheorems.RetrieveSucceedsExactly`).
- `_match_clause_id` tests equality and suffixes id by id in set order, so the documented priority of an id that equals
  the raw one but for case can fail (`Agents.PriorityFails`). It holds exactly when the raw id is valid itself, or no
  valid id equals it but for case, or nothing else looks like it (`Agents.MatchPriorityExactly`). A blank clause id looks
  like every valid id (`Agents.BlankIdTakesFirst`).
- The claims history is keyed by claimant id and asked for a name, so the default records' flagged claimant is not
  found and gets no floor (`Agents.SuspiciousSamNotFloored`): under the default thresholds, and with a retriever that
  finds the context sufficient, a claim of theirs is approved automatically (`Inputs.FlaggedClaimantDecided`). A claimant
  is always floored exactly when the record under that very name is flagged (`Agents.FlooredExactly`), and a claim of
  theirs can be decided automatically exactly when the tool's score of an empty claim under that name is within the risk
  threshold and the other thresholds can be met at all (`Inputs.CanBeDecidedExactly`).
- A confidence of NaN clamps to 1 (`Agents.Clamp`).
- With the default settings no context is ever sufficient: `rag_tau_sufficient` is 0.35 while no fused score exceeds
  1/61 (`RagTheorems.SufficiencyBound`, `EndToEnd.DefaultsAlwaysEscalate`).
- The default breakdown line is built before the limit clamp (`Agents.SettleFinite`).
- An untyped exception with an empty message crashes the run, because `AgentError` rejects it
  (`Inputs.EmptyMessageCrashes`, `GraphTheorems.CrashExactly`).
- The tokens a failing node spent are missing from the cost summary (`Inputs.TokensLost`). The books balance exactly when
  no agent gets stuck or the one that does had called for free (`GraphTheorems.CostLost`).
- If the worker runs between a sole reader's timeout and its look at the store, the reader can send steps twice: so it
  can for every run with steps, and for none if the timeout and the look are one step
  (`ExactlyOnce.TornTimeoutExactly`).
- Readers of one claim share its queue. Of two that subscribed in time, with nobody leaving and no timeout torn, one can
  send the first step twice and the other miss it: so it is for every run with steps, and for no other
  (`SharedQueues.SharingSplits`, `SharedQueues.SharingExactly`).
- When the summary or the last save raises, readers are told a second sentinel (`ApiWorker.HandleMessage`).

## Model

| member | source | states |
|---|---|---|
| Text.WordsConcat | src/claimpilot/rag/chunker.py:97 | cutting a text next to white space does not change its words |
| Text.WordsOfJoin | src/claimpilot/rag/chunker.py:105 | splitting undoes joining, for any words |
| Text.SpaceIs | src/claimpilot/rag/chunker.py:97 | white space is exactly 29 code points |
| Text.JoinIs | src/claimpilot/rag/chunker.py:105 | one word more is joined by one blank |
| Text.StripIs | src/claimpilot/rag/chunker.py:72-86 | stripping cuts white space off both ends and stops at the first other character |
| Text.DecimalIs | src/claimpilot/rag/chunker.py:47 | a part number is written in decimal digits, most significant first, without a leading zero |
| Chunker.Split | src/claimpilot/rag/chunker.py:95-107 | the loop computes the specified sub-texts, and ends |
| Chunker.SplitEndsExactly | src/claimpilot/rag/chunker.py:103-106 | on a text longer than `max_tokens` the loop ends if and only if the overlap is below `max_tokens` |
| Chunker.CoverageExact | src/claimpilot/rag/chunker.py:103-106 | a loop that ends reaches every word if and only if the overlap is not negative |
| Chunker.PartAt | src/claimpilot/rag/chunker.py:103-106 | part `j` is the run of at most `max_tokens` words at the place turn `j` of the loop starts from |
| Chunker.SplitArithmetic | src/claimpilot/rag/chunker.py:97-107 | there are 1 + ceil((n - max)/(max - overlap)) parts, each within `max` and with new words, n + overlap * (parts - 1) words in all |
| Chunker.SplitKeepsWords | src/claimpilot/rag/chunker.py:95-107 | the sub-texts, stitched at the overlap, hold exactly the words of the text |
| Chunker.FindHeadings | src/claimpilot/rag/chunker.py:65-70 | the heading matches are real matches, in order and disjoint; `Chunker.NoHeadingMissed` says that none is missed |
| Chunker.NoHeadingMissed | src/claimpilot/rag/chunker.py:65-70 | wherever the expression can match, one of the matches found covers the place |
| Chunker.HeadingsAreGreedy | src/claimpilot/rag/chunker.py:65-70 | of all ways to match from one place, the match found is the one with the longest white space, and the same marks |
| Chunker.OneToFourMarks | src/claimpilot/rag/chunker.py:65 | a line of marks, a blank and a letter is a heading if and only if it has one to four marks |
| Chunker.SplitSections | src/claimpilot/rag/chunker.py:68-92 | the loop over the headings computes the specified sections |
| Chunker.SectionsKeepWords | src/claimpilot/rag/chunker.py:68-92 | the sections hold the words of the text without its heading marks, in order |
| Chunker.ChunkDocument | src/claimpilot/rag/chunker.py:27-58 | the nested loops compute the specified chunks |
| Chunker.NoLostText | src/claimpilot/rag/chunker.py:27-107 | the chunks of a document, stitched within each section, hold exactly its words without the heading marks, in order |
| Chunker.ChunkIsEmpty | src/claimpilot/rag/chunker.py:42-56 | a chunk has no text if and only if its section has no words (or `max_tokens` is 0) |
| Chunker.PartIdsDistinct | src/claimpilot/rag/chunker.py:46-47 | sub-chunks of one section never share an id |
| Chunker.HeadingChunks | src/claimpilot/rag/chunker.py:39-92 | the chunks under a heading have the id `docId:base/heading`, with `:partN` when there are several, and are cut from the heading, a line end and the text up to the next heading |
| Chunker.OpeningChunks | src/claimpilot/rag/chunker.py:68-79 | what precedes the first heading goes under the document's path, unless it is white space; without headings that is the whole text |
| Chunker.ChunkProvenance | src/claimpilot/rag/chunker.py:42-56 | every chunk carries its document's id and title, and a clause id that begins with the document's id |
| Bm25.BM25Index.Add | src/claimpilot/rag/bm25.py:34-48 | adding or overwriting keeps the counters equal to those of an index rebuilt from the new id-to-text map |
| Bm25.UpdateCounts | src/claimpilot/rag/bm25.py:39-47 | giving back the old text's tokens and counting the new one's yields the holders' counts of the new map |
| Bm25.DocFreqPut | src/claimpilot/rag/bm25.py:39-47 | replacing a text moves each token's frequency by exactly what the text gains or loses |
| Bm25.CountersDetermined | src/claimpilot/rag/bm25.py:34-48 | two indices with the same id-to-text map have the same counters and average, whatever their history |
| Bm25.DocFreqBounded | src/claimpilot/rag/bm25.py:64-65 | no document frequency exceeds the number of documents |
| Bm25.IdfArgumentIs | src/claimpilot/rag/bm25.py:65 | the logarithm is taken of (n + 1)/(df + 0.5), which is above 1 |
| Bm25.AvgPositive | src/claimpilot/rag/bm25.py:66-68 | the average length is positive whenever it is divided by |
| Bm25.TermScoreBounds | src/claimpilot/rag/bm25.py:64-69 | one shared token adds a positive amount below (k1 + 1) times its idf; `Bm25.TermScoreIs` says which |
| Bm25.TermScoreIs | src/claimpilot/rag/bm25.py:64-69 | one shared token adds ln((n + 1)/(df + 0.5)) times 2.5 tf over tf + 0.375 + 1.125 length/average; at the average length 2.5 tf/(tf + 1.5) of the idf |
| Bm25.TermScoreOrder | src/claimpilot/rag/bm25.py:66-69 | it strictly grows with the number of occurrences and strictly shrinks with the length |
| Bm25.ScoreConcat | src/claimpilot/rag/bm25.py:60-69 | scores add up over the query tokens, repeated ones counted each time |
| Bm25.ScoreOfToken | src/claimpilot/rag/bm25.py:56-69 | a text's score for one token is that formula of the token's count in it, its length, the number of texts and of those that hold the token, and 0 when it does not hold it |
| Bm25.AvgLengthIs | src/claimpilot/rag/bm25.py:80-84 | the average is 0 over no text, and one text more adds its own length to average times count |
| Bm25.ScoreBounds | src/claimpilot/rag/bm25.py:59-71 | a text scores above zero if and only if it shares a token, and then below (k1 + 1) times the summed idf |
| Bm25.BM25Index.Search | src/claimpilot/rag/bm25.py:50-74 | the loops and the sort return the specified result, a function of the id-to-text map alone; `Bm25.ScoreOfToken`, `Bm25.SearchMeaning` and `Bm25.BetterTextFirst` say which |
| Bm25.SearchMeaning | src/claimpilot/rag/bm25.py:50-74 | a search returns the best `top_k` of the texts sharing a token, in strict (score, id) order |
| Bm25.BetterTextFirst | src/claimpilot/rag/bm25.py:59-74 | of two texts, the one no longer and with every query token at least as often comes strictly earlier when it holds one more often, or is shorter and holds one at all |
| Ranking.SortedUnique | src/claimpilot/rag/pipeline.py:194 | a strict order leaves one way only to sort given elements |
| Ranking.SortedItemsRank | src/claimpilot/rag/pipeline.py:194 | sorting a score dictionary by (-score, id) ranks it, whatever its insertion order |
| Ranking.RankingUnique | src/claimpilot/rag/bm25.py:73-74 | a score map has at most one ranking |
| Ranking.StrLessIs | src/claimpilot/rag/bm25.py:73 | ids are compared by the first code point that differs, the end of one coming first |
| Ranking.RankingOrder | src/claimpilot/rag/pipeline.py:194 | of two entries of a ranking the earlier scores more, or the same with the smaller id |
| VectorStore.FakeVectorStore.Upsert | src/claimpilot/infra/providers/fakes/vector_store.py:20-22 | the loop leaves what writing the records one after the other leaves; `VectorStore.PutAllKeepsLast` says what that is |
| VectorStore.PutAllKeepsLast | src/claimpilot/infra/providers/fakes/vector_store.py:20-22 | the last record written for an id stays, ids not written keep theirs, and no key changes its place |
| VectorStore.FakeVectorStore.Search | src/claimpilot/infra/providers/fakes/vector_store.py:24-44 | the loop and the stable sort return the specified hits |
| VectorStore.HitIsRecord | src/claimpilot/infra/providers/fakes/vector_store.py:31-44 | every hit is a stored record that passes the filter, with its own similarity |
| VectorStore.FilteredHit | src/claimpilot/infra/providers/fakes/vector_store.py:33-36 | a hit of a filtered search has each key of the filter in its metadata, with the filter's value |
| VectorStore.MatchFound | src/claimpilot/infra/providers/fakes/vector_store.py:32-44 | conversely, a record with all of them (or any record, without a filter) is among the hits or behind `top_k` at least as similar |
| VectorStore.HitsOrdered | src/claimpilot/infra/providers/fakes/vector_store.py:40-44 | hits come best first, ties in insertion order, none twice |
| VectorStore.LeftOutIsWorse | src/claimpilot/infra/providers/fakes/vector_store.py:40-44 | a passing record is left out only when `top_k` hits are at least as similar |
| Cosine.CosineSimilarity | src/claimpilot/infra/providers/fakes/vector_store.py:51-58 | the sums compute the specified similarity, an error on different lengths, 0 on a zero vector |
| Cosine.DotConcat | src/claimpilot/infra/providers/fakes/vector_store.py:53 | dot products add up over the coordinates |
| Cosine.CosineIs | src/claimpilot/infra/providers/fakes/vector_store.py:53-58 | the similarity squared, times both squared norms, is the squared dot product, with the dot product's sign; with a zero vector it is 0 |
| Cosine.CauchySchwarz | src/claimpilot/infra/providers/fakes/vector_store.py:53-58 | the squared dot product never exceeds the product of the squared norms |
| Cosine.CosineBounds | src/claimpilot/infra/providers/fakes/vector_store.py:51-58 | a similarity lies between -1 and 1 |
| Cosine.CosineSelf | src/claimpilot/infra/providers/fakes/vector_store.py:51-58 | a vector that is not zero has similarity 1 with itself |
| Cosine.CosineHits | src/claimpilot/infra/providers/fakes/vector_store.py:24-58 | every hit of a search scores its record's cosine similarity with the query, between -1 and 1 |
| Cosine.SameEmbeddingOnTop | src/claimpilot/infra/providers/fakes/vector_store.py:24-58 | a stored embedding equal to the query puts a hit of similarity 1 first |
| Fusion.ReciprocalRankFusion | src/claimpilot/rag/pipeline.py:173-194 | the two loops over a score dictionary and the sort return the ranking of the fused scores |
| Fusion.RankSumIsShare | src/claimpilot/rag/pipeline.py:188-192 | without duplicates an id at place i of a ranking, from 0, gets weight/(61 + i) from it once, and nothing when absent |
| Fusion.FusedBound | src/claimpilot/rag/pipeline.py:186-192 | a fused score never exceeds (dense + lexical weight)/61, and reaches it for an id first in both |
| Fusion.FusionDominance | src/claimpilot/rag/pipeline.py:186-194 | an id no worse placed in both rankings and better in one comes strictly earlier |
| Rag.RagPipeline.Ingest | src/claimpilot/rag/pipeline.py:54-88 | after any sequence of ingests the chunk map is that of the whole corpus, and the BM25 index and the vector store hold the same keys with the same texts |
| Rag.StorePutAll | src/claimpilot/rag/pipeline.py:68-85 | upserting the records of new chunks tracks writing the chunks |
| Rag.StoreDescribes | src/claimpilot/rag/pipeline.py:68-85 | each key of the vector store holds its chunk's text, that text's embedding, and the chunk's own metadata over `doc_id`, `title` and `clause_id` |
| Rag.IngestStep | src/claimpilot/rag/pipeline.py:56-85 | ingesting more documents equals ingesting everything at once |
| Rag.IndexedExactly | src/claimpilot/rag/pipeline.py:63-65 | an id is a key of the chunk map if and only if some chunk of the corpus has it, and the last such chunk is its value |
| Rag.IngestKeepsAllExactly | src/claimpilot/rag/pipeline.py:63-85 | every chunk of the corpus stays indexed if and only if no two different chunks share a clause id |
| ClauseIds.SeparateSectionsKeepAll | src/claimpilot/rag/chunker.py:39-56 | if no section's document id with its path is another's, or another's followed by a part number, all clause ids differ, whatever the chunk size, and every chunk stays indexed |
| Rag.EntriesCountChunks | src/claimpilot/rag/pipeline.py:63-88 | there are as many entries as chunks reported if and only if the clause ids are pairwise distinct |
| Inputs.SectionsCollide | src/claimpilot/rag/chunker.py:42-56 | a document with the same heading twice loses the first section from the chunk map, the indexed texts and the vector store |
| Rag.IndexedProvenance | src/claimpilot/rag/pipeline.py:57-65 | each key of the chunk map names a chunk some ingested document produced; `Rag.IndexedExactly` says which keys there are, and which chunks |
| Rag.RagPipeline.Retrieve | src/claimpilot/rag/pipeline.py:94-163 | an error before any ingest, and after it a function of the chunk map alone; `HybridResults.RetrieveIs` says which |
| RagTheorems.UnionIsKnown | src/claimpilot/rag/pipeline.py:126-128 | every fused id has a chunk, so the skip is never taken |
| RagTheorems.UnionBounded | src/claimpilot/rag/pipeline.py:186-194 | every fused score of a retrieval lies between 0 and (dense + lexical weight)/61 |
| RagTheorems.AnswerRefines | src/claimpilot/rag/pipeline.py:124-163 | for any non-negative scores of known chunks, ranking, reranking and building give the best `k` of them, distinct, in order, sufficient exactly when the first reaches tau |
| RagTheorems.RetrieveRefines | src/claimpilot/rag/pipeline.py:105-163 | with the identity reranker the result holds the first min(k, size of the union) ids by fused score, best first and distinct; it suffices exactly when the first scores at least tau, and fails exactly when one of those chunks has no text; `HybridResults.IdentityRetrieveIs` says what the scores are |
| HybridResults.TopIsBest | src/claimpilot/rag/pipeline.py:173-194 | the first n fused ids are the best of both lists by places: place i of a list, from 0, is worth its weight over 61 + i, absence nothing, ties go by id |
| HybridResults.RetrieveIs | src/claimpilot/rag/pipeline.py:105-163 | for any reranker that returns known chunks: it is given the best 2k ids by their places in a dense and a lexical list of 3k, with text, score and metadata, and the result shows each hit it returns, suffices if one reaches tau, and is an error if one fails a validator |
| HybridResults.IdentityRetrieveIs | src/claimpilot/rag/pipeline.py:105-163 | with the identity reranker the result shows the best k ids by places, scored denseWeight/(61 + i) + lexicalWeight/(61 + j) |
| HybridResults.OneListAlone | src/claimpilot/rag/pipeline.py:116-121 | with no lexical weight a result begins with the dense list, in its order; with no dense weight, with the lexical one |
| HybridResults.DefaultRetrieveIs | src/claimpilot/infra/settings.py:50-53 | by default at most 5 results out of lists of 15, dense weight 0.6, lexical 0.4, sufficient from a score of 0.35 |
| RagTheorems.RetrieveSucceeds | src/claimpilot/rag/pipeline.py:141-158 | with the identity reranker no retrieval fails over chunks that all have a text |
| RagTheorems.RetrieveSucceedsExactly | src/claimpilot/rag/pipeline.py:141-158 | with the identity reranker and room for all chunks, a retrieval succeeds if and only if every chunk that passes the filter or is in the lexical list has a text; without a filter, if and only if every chunk has |
| RagTheorems.SectionsWithWordsHaveText | src/claimpilot/rag/pipeline.py:54-65 | if every section of every document has words, every indexed chunk has a text |
| Inputs.BlankFails | src/claimpilot/rag/pipeline.py:141-158 | over the chunk of a document of white space alone, with the identity reranker, a retrieval fails for every query, number of results and filter the chunk passes |
| RagTheorems.FilterReaches | src/claimpilot/rag/pipeline.py:108-121 | a fused id passes the filter or comes from the lexical list |
| RagTheorems.UnionExactly | src/claimpilot/rag/pipeline.py:108-121 | with room for all chunks, exactly those that pass the filter or are in the lexical list are fused |
| RagTheorems.SufficiencyBound | src/claimpilot/rag/pipeline.py:160-161 | a context suffices only if tau is at most (dense + lexical weight)/61 |
| RagTheorems.DefaultNeverSufficient | src/claimpilot/infra/settings.py:50-53 | under the default settings no context suffices |
| RagTheorems.RetrievalGrounded | src/claimpilot/rag/pipeline.py:141-163 | whatever the reranker does, every citation quotes a chunk of the map, and an empty result never suffices |
| KeyCodec.Utf8RoundTrip | src/claimpilot/infra/providers/azure/vector_store.py:227-238 | decoding undoes UTF-8 encoding, for every string |
| KeyCodec.Utf8Exactly | src/claimpilot/infra/providers/azure/vector_store.py:232-238 | bytes decode to a string if and only if they are its encoding |
| KeyCodec.CharBytes | src/claimpilot/infra/providers/azure/vector_store.py:229 | a character takes 1 to 4 bytes by its code point, with the markers and payloads of section 3 of RFC 3629 |
| KeyCodec.KeyRoundTrip | src/claimpilot/infra/providers/azure/vector_store.py:227-238 | decoding an encoded key gives the key back, for every key |
| KeyCodec.EncodeKeyInjective | src/claimpilot/infra/providers/azure/vector_store.py:227-229 | different keys have different encodings |
| KeyCodec.EncodeKeyShape | src/claimpilot/infra/providers/azure/vector_store.py:227-229 | an encoding uses the URL-safe alphabet only, has ceil(4n/3) characters for n bytes, and never 1 modulo 4 |
| KeyCodec.DigitIs | src/claimpilot/infra/providers/azure/vector_store.py:229 | digit i is character i of table 2 of RFC 4648 |
| KeyCodec.EncodeKeySpells | src/claimpilot/infra/providers/azure/vector_store.py:227-229 | each block of four digits spells three bytes of the key, big-endian; a last block of three or two digits spells two bytes or one |
| KeyCodec.UndecodableKept | src/claimpilot/infra/providers/azure/vector_store.py:234-238 | a URL-safe key whose length is 1 modulo 4 was never encoded and comes back as it is |
| KeyCodec.ForeignSkipped | src/claimpilot/infra/providers/azure/vector_store.py:236 | a byte that is neither a digit nor padding makes no difference to decoding |
| CostMeter.CostTracker.Record | src/claimpilot/graph/nodes.py:44-59 | a call adds exactly its own price to the node's cost |
| CostMeter.MeterCalls | src/claimpilot/graph/nodes.py:36-59 | the price of the added-up tokens is the sum of the calls' prices |
| CostMeter.PricePerMillion | src/claimpilot/observability/cost_meter.py:27-28 | calls cost 5 dollars a million prompt tokens and 15 a million completion tokens |
| CostMeter.ComputeCostSummary | src/claimpilot/observability/cost_meter.py:44-81 | per-node costs and latencies are those of the trace's nodes and add up to the totals |
| CostMeter.SummaryGrows | src/claimpilot/observability/cost_meter.py:67-72 | one step more adds its cost and latency to the totals and to its own node's figures, and changes no other node's |
| Agents.Clamp | src/claimpilot/agents/coverage.py:127-133 | a confidence is always in [0, 1] and unchanged when it already was; NaN and positive infinity become 1, negative infinity 0, and what is no number 0.5 |
| Agents.FindClauseId | src/claimpilot/agents/coverage.py:165-180 | the scan with early returns computes the specified match |
| Agents.MatchMeaning | src/claimpilot/agents/coverage.py:165-180 | in any set order, a match is a valid id equal to or looking like the raw one, and there is none only if none does |
| Agents.LooksLikeIs | src/claimpilot/agents/coverage.py:172-179 | an id looks like the raw one when one of the two, folded, ends with the other |
| Agents.MatchOrderFree | src/claimpilot/agents/coverage.py:173-179 | the match is the same for all set orders if and only if the raw id is valid or at most one valid id looks like it |
| Agents.MatchPriorityExactly | src/claimpilot/agents/coverage.py:165-180 | in every set order an id equal but for case is preferred, if and only if the raw id is valid, or no valid id equals it but for case, or no other valid id looks like it |
| Agents.PriorityFails | src/claimpilot/agents/coverage.py:165-180 | with the valid ids HO-3 and EHO-3 a citation of ho-3 can be renamed to EHO-3 |
| Agents.BlankIdTakesFirst | src/claimpilot/agents/coverage.py:172-179 | a blank id matches the first valid id |
| Agents.CollectCitations | src/claimpilot/agents/coverage.py:136-162 | the loop keeps what the specification keeps, and raises where it does |
| Agents.FilteredAreValid | src/claimpilot/agents/coverage.py:151-162 | every kept citation names a valid clause |
| Agents.ExactCitationKept | src/claimpilot/agents/coverage.py:151-162 | a quotable citation of a valid clause is never lost or renamed |
| Agents.FilterKeeps | src/claimpilot/agents/coverage.py:147-162 | exactly the entries with a matched id, a document and a snippet are kept, in order, under the matched id |
| Agents.FilterRaises | src/claimpilot/agents/coverage.py:153-154 | filtering raises if and only if an entry's clause id is no string |
| Agents.DecideGrounded | src/claimpilot/agents/coverage.py:35-109 | an opinion is valid and cites clauses of its context only; without sufficient context or a valid citation it is partial at 0.1 with the context's first citation; otherwise its decision is the answer's (partial if it names none), its confidence the clamped one, capped at 0.6 exactly on at most one citation |
| Agents.DecideFails | src/claimpilot/agents/coverage.py:46-92 | the agent fails if and only if the context suffices and the answer is unusable, and pays for the call if it came back |
| RunMeaning.ExactCitationCounts | src/claimpilot/agents/coverage.py:88-92 | an answer that quotes any clause of the context under its exact id is not withheld |
| Agents.ScoreSignals | src/claimpilot/mcp_servers/fraud_signals.py:32-78 | each rule that fires is reported once, in order, and the score is the sum of the weights |
| Agents.FiredRules | src/claimpilot/mcp_servers/fraud_signals.py:45-76 | `high_amount` fires above 25000 with 0.2, `frequent_claimant` from three claims with 0.3, `flagged_claimant` on a flag with 0.4 |
| Agents.ScoreIsWeightSum | src/claimpilot/mcp_servers/fraud_signals.py:45-78 | the sum has a closed form below 1, so the cap never binds |
| Agents.AssessClaim | src/claimpilot/agents/fraud_risk.py:32-121 | the history lookup by the claimant's name, the tool's score and the LLM's answer give the specified assessment |
| Agents.AssessIs | src/claimpilot/agents/fraud_risk.py:60-113 | the score is the higher of the LLM's, clamped, and 0.2 for more than 25000 + 0.3 for three claims + 0.4 for a flag; the agent fails if and only if the answer is no object |
| Agents.AssessFloor | src/claimpilot/agents/fraud_risk.py:110-113 | the score is the higher of the LLM's and the tool's, at most 1, and at least 0.4 when the record under the claimant's name is flagged |
| Agents.FlooredExactly | src/claimpilot/agents/fraud_risk.py:53-72 | a claimant's score is at least 0.4 whatever the claim and the LLM say, if and only if the record stored under the claimant's name is flagged |
| Agents.FlaggedFlooredExactly | src/claimpilot/mcp_servers/claims_history.py:26-52 | everybody with a flagged record is always floored if and only if each flagged record's name is itself the key of a flagged record |
| Agents.SuspiciousSamNotFloored | src/claimpilot/mcp_servers/claims_history.py:77-107 | the default records do not floor their own flagged claimant |
| Agents.ExtractBreakdown | src/claimpilot/agents/settlement.py:102-115 | the loop computes the specified breakdown; `Agents.BreakdownRaises` and `Agents.BreakdownKeeps` say which |
| Agents.BreakdownRaises | src/claimpilot/agents/settlement.py:102-115 | the breakdown raises if and only if a usable item has an amount that is not finite |
| Agents.BreakdownKeeps | src/claimpilot/agents/settlement.py:102-115 | otherwise it keeps exactly the usable items, in order |
| Agents.ComputeSettlement | src/claimpilot/agents/settlement.py:28-91 | a settlement satisfies the validators; denied coverage is settled at zero; anything paid is the LLM's figure within the limit, and an unreadable answer is the error |
| Agents.SettleSafe | src/claimpilot/models/decisions.py:57-80 | every settlement satisfies the validators; denied coverage settles at zero, under the claimed amount as limit, without a call |
| Agents.SettlesExactly | src/claimpilot/agents/settlement.py:52-91 | on coverage not denied a settlement comes of exactly the readable answers with finite item amounts, deductible and limit finite and not negative, and a payable amount not negative, infinite only above a positive limit and itemised |
| Agents.JunkPaysNothing | src/claimpilot/agents/settlement.py:94-99 | figures that are no numbers count as 0 |
| Agents.SettleFinite | src/claimpilot/agents/settlement.py:73-91 | on finite figures the payable amount is clamped to a positive limit, accepted exactly when nothing is negative, and matched by the default breakdown exactly when the clamp does not bind |
| Agents.ReviewIs | src/claimpilot/agents/compliance.py:75-111 | a verdict passes if and only if the answer does, with the answer's violations, and a failed one always names a violation; the agent fails if and only if the answer is no object |
| Graph.CollectExclusions | src/claimpilot/graph/nodes.py:207-211 | the loop collects the specified exclusions |
| Graph.SafeWrapper | src/claimpilot/graph/build_graph.py:209-266 | a wrapped node records exactly one step: skipped and without calls after an earlier error, failed exactly when it records an error, with the measured latency otherwise; an exception gets out only from an assertion or without a message |
| GraphTheorems.ExclusionsExactly | src/claimpilot/graph/nodes.py:207-211 | a clause is an exclusion if and only if its text sounds like one |
| RunMeaning.SoundsExcludingIs | src/claimpilot/graph/nodes.py:208 | a text sounds like an exclusion if and only if one of three words occurs in it |
| GraphTheorems.RunRefines | src/claimpilot/graph/build_graph.py:86-165 | a run through nodes, wrappers, reducers and edges ends in the state the direct composition of the agents dictates, and crashes exactly when that gets stuck on a fault that cannot be recorded |
| GraphTheorems.RunShape | src/claimpilot/graph/build_graph.py:126-165 | a completed run visits one of exactly three node sequences (8 or 9 nodes), records at most one error, and is escalated when there is one |
| GraphTheorems.CrashExactly | src/claimpilot/graph/build_graph.py:241-250 | no assertion of a node trips; a run crashes if and only if the first fault is untyped and has no message |
| Inputs.EmptyMessageCrashes | src/claimpilot/graph/build_graph.py:241-250 | an untyped exception without a message from the coverage LLM crashes the run |
| GraphTheorems.LatenciesInPlace | src/claimpilot/graph/build_graph.py:195-206 | each node's latency ends up on that node's step, and a skipped step has none |
| GraphTheorems.StreamsFinalTrace | src/claimpilot/api/worker.py:252-264 | publishing each streamed state's entries past the last length seen publishes exactly the final trace |
| GraphTheorems.CostConserved | src/claimpilot/graph/nodes.py:254-360 | the trace costs what all LLM calls of the run cost, less the failed node's; an error-free run accounts for every token |
| GraphTheorems.CostLost | src/claimpilot/graph/build_graph.py:241-253 | a completed run's books fall short by what the agent the adjudication gets stuck at had paid for; they balance if and only if no agent gets stuck or its calls were free |
| Inputs.TokensLost | src/claimpilot/graph/build_graph.py:241-253 | a coverage answer that cannot be read is paid for and missing from the trace |
| RunMeaning.RunCosts | src/claimpilot/graph/nodes.py:254-360 | an error-free run costs intake's calls, one of the fraud and one of the compliance agent, one of the coverage agent if the context suffices, and one of the settlement agent unless coverage is denied |
| GraphTheorems.AutoSafety | src/claimpilot/graph/nodes.py:371-405 | a run is decided automatically if and only if it has no error and meets all four thresholds; then the payable amount is within a positive limit, a denial pays nothing, and a claimant whose name is the key of a flagged record, a context of at most one citation or an insufficient context is excluded by the thresholds named |
| RunMeaning.RunIs | src/claimpilot/graph/nodes.py:192-405 | over extracted facts and a found context, a run is free of errors if and only if every agent gets an answer it can use, automatic if and only if those answers meet the four thresholds, and a denial if and only if the coverage answer that counts denies |
| RunMeaning.RunWithout | src/claimpilot/graph/build_graph.py:209-266 | without acceptable facts, or without a retrieval, the run records that node's error and escalates |
| RunMeaning.RunBlames | src/claimpilot/graph/build_graph.py:209-266 | a run that lacks an answer records one error, of the first agent without one it can use, and escalates |
| RunMeaning.AutoRestsOnAnswers | src/claimpilot/graph/nodes.py:371-405 | under a confidence threshold above 0.1 an automatic run denies if and only if the coverage answer's own decision is denied; that answer's confidence, the risk answer, the tool's score and the amount meet their thresholds, and the compliance answer itself passes |
| RunMeaning.DefaultThresholdsHold | src/claimpilot/infra/settings.py:42-44 | by default nothing below 0.7 confidence, above 0.3 risk or above 10000 to pay is automatic |
| Inputs.FlaggedClaimantDecided | src/claimpilot/graph/build_graph.py:99-108 | under the default thresholds and records, with a retriever that finds the context sufficient, a claim of the flagged claimant of the default records is approved automatically |
| Inputs.CanBeDecidedExactly | src/claimpilot/graph/nodes.py:371-405 | some valid environment with these thresholds and records decides a claim of a person automatically if and only if the person has a name, the confidence threshold is at most 1, the amount one not negative, and the tool's score of an empty claim under that name within the risk one |
| Inputs.FlaggedNeverDecidedExactly | src/claimpilot/agents/fraud_risk.py:53-72 | nobody with a flagged record is ever decided automatically if and only if nobody at all is by the confidence or amount threshold, or under the name of every flagged record the tool's score of an empty claim exceeds the risk threshold (or the name is empty) |
| LifecycleTheorems.ActKeeps | src/claimpilot/api/worker.py:204-300 | every action of every actor keeps the invariant that ties records, messages, worker, runs and published events together |
| LifecycleTheorems.RecordsMoveOn | src/claimpilot/api/routes/claims.py:238-251 | in all runs, status only moves pending, processing, terminal, or escalated to completed by a human; a human decision and its record are final |
| LifecycleTheorems.LateDecisionExactly | src/claimpilot/api/routes/claims.py:238-251 | a decision saved from a copy loaded earlier keeps decisions final if and only if nobody has decided otherwise since |
| LifecycleTheorems.MessagesPartitioned | src/claimpilot/infra/providers/fakes/queue.py:17-33 | every message is in exactly one of submitting, waiting, unacknowledged and acknowledged; an acknowledged claim's record is completed, escalated or an error |
| LifecycleTheorems.DispositionsExplained | src/claimpilot/api/worker.py:276-300 | a record a human approved is auto-approved, one a human denied is auto-denied, and both were escalated by their run; any other disposition is the run's own |
| Streams.ReaderNeverBlocks | src/claimpilot/api/routes/claims.py:190-204 | a reader can always take its next step |
| Streams.StreamsTerminate | src/claimpilot/api/routes/claims.py:180-214 | with any number of readers sharing, losing or popping queues, a reader of a finished claim is done after a bounded number of its own steps, whatever the others do |
| Streams.ReplaysAreComplete | src/claimpilot/api/routes/claims.py:180-202 | a stream that ends by replay has sent what it had sent before, then the whole stored trace and `done` |
| Readers.NoQueueLeaks | src/claimpilot/api/routes/claims.py:172-214 | in every run a claim has a current queue only while some reader of it is open, whichever way readers end |
| Readers.NotFoundAlone | src/claimpilot/api/routes/claims.py:175-178 | in every run a reader told that its claim does not exist has been told nothing else, and one that waits, replays or has been served is reading a stored claim |
| SharedQueues.QueueConserved | src/claimpilot/api/worker.py:165-186 | over any run, what was in a queue and what the worker put in is what its readers took out, in that order and each event by one reader, and what is still in it |
| SharedQueues.SentIsTaken | src/claimpilot/api/routes/claims.py:164-214 | every reader sends what it has taken out of one queue, in order; ended by the sentinel that is all it has sent, the sentinel last and nowhere else; ended by replay it has sent that, then the whole stored trace and `done`, and so exactly the trace and `done` if and only if it had taken nothing |
| SharedQueues.SharingSplits | src/claimpilot/api/routes/claims.py:190-214 | for every run with steps some interleaving of two readers that subscribed in time, nobody leaving, makes one send the first step and then the whole trace, and the other all but the first step, torn timeouts or not |
| SharedQueues.SharingExactly | src/claimpilot/api/routes/claims.py:190-214 | among any number of readers, nobody leaving, one that subscribed in time can send something else than the trace if and only if the run has steps |
| ExactlyOnce.SingleReaderExactlyOnce | src/claimpilot/api/routes/claims.py:172-214 | a claim's only reader sends the steps since it subscribed, or what it had sent and then the whole trace; exactly the trace if and only if it subscribed before the first step or replayed from nothing, which untorn timeouts guarantee |
| SoleReaders.SingleReaderOfRaised | src/claimpilot/api/worker.py:213-230 | when the run raises, a claim's only reader ends by the sentinel with the steps since it subscribed and one `done`, the whole trace if and only if it missed nothing (or there are no steps), or by replay with some of those steps and `done`, the stored trace being empty |
| ExactlyOnce.TornTimeoutDuplicates | src/claimpilot/api/routes/claims.py:192-203 | for every run with steps some interleaving makes a sole reader that subscribed in time send the first step, and then the whole trace |
| ExactlyOnce.TornTimeoutExactly | src/claimpilot/api/routes/claims.py:192-203 | a sole reader that subscribed in time can send something else than the trace if and only if the timeout is torn from the look at the store and the run has steps |
| Infra.FakeCheckpointer.Save | src/claimpilot/infra/providers/fakes/checkpointer.py:19-20 | the stored value is replaced by a copy the caller does not share |
| Infra.FakeCheckpointer.Load | src/claimpilot/infra/providers/fakes/checkpointer.py:22-26 | the value comes back as a fresh copy the store does not share |
| Infra.FakeQueue.Dequeue | src/claimpilot/infra/providers/fakes/queue.py:20-26 | the oldest message moves to the unacknowledged ones |
| Infra.FakeQueue.Ack | src/claimpilot/infra/providers/fakes/queue.py:28-29 | only the acknowledged message leaves |
| Infra.EventBus.Subscribe | src/claimpilot/api/worker.py:173-177 | the claim's current queue, shared, or a new one |
| Infra.EventBus.Publish | src/claimpilot/api/worker.py:179-183 | the protocol's publish: an event reaches the current queue and no other |
| Infra.EventBus.Unsubscribe | src/claimpilot/api/worker.py:185-186 | the claim has no current queue; the queue objects stay as they are |
| ApiWorker.ClaimStore.Save | src/claimpilot/api/worker.py:139-142 | exactly this claim's record changes |
| ApiWorker.SubmitClaim | src/claimpilot/api/routes/claims.py:84-107 | a new pending record, and its message last in the queue: the protocol's two submission steps |
| ApiWorker.HumanDecision | src/claimpilot/api/routes/claims.py:227-258 | an escalated claim is completed, auto-approved on an approval and auto-denied on a denial, which is also the answer; an unknown claim and one in another state stay as they are, with 404 and 409 |
| ApiWorker.StreamStates | src/claimpilot/api/worker.py:252-264 | the loop with `prev_trace_len` and `final_state` publishes the unseen steps of each state and keeps the last state |
| ApiWorker.ProcessClaim | src/claimpilot/api/worker.py:235-300 | an unknown claim changes nothing; a known one is streamed and saved with what the run came to, unless the stream raises before its sentinel, or the summary or the last save after it |
| ApiWorker.HandleMessage | src/claimpilot/api/worker.py:204-232 | whatever happens, the message is acknowledged and gone, a known claim's record is terminal, and its readers are told every step and a sentinel, or two if the save raised; nothing else changes |
| ApiWorker.TakeTurn | src/claimpilot/api/worker.py:204-232 | for a stream that publishes the steps of its result, the same iteration takes the heap from one idle state of the protocol to the one the worker's steps lead to |
| ApiWorker.TurnIs | src/claimpilot/api/worker.py:204-300 | the protocol's worker steps from idle to idle acknowledge the first message and leave the record and the events the sequential iteration leaves |
| ApiWorker.HandledIsSettled | src/claimpilot/api/worker.py:214-300 | the sequential iteration leaves a claim with the record and the events the protocol's invariant demands, for a stream that ends, a stream that raises and a save that raises |
| Sse.SseStream.Resume | src/claimpilot/api/routes/claims.py:164-214 | resuming the generator on the heap is the protocol's reader step |
| EndToEnd.GroundingChain | src/claimpilot/graph/nodes.py:192-231 | under a confidence threshold above 0.1 an automatic disposition rests on at least one citation, and every cited clause is in the chunk map, put there by chunking an ingested document |
| EndToEnd.PipelineFaultsNamed | src/claimpilot/graph/build_graph.py:241-250 | a retrieval that fails is recorded as an error and never crashes the run |
| EndToEnd.DefaultsAlwaysEscalate | src/claimpilot/infra/settings.py:42-53 | with the default retrieval settings, the in-memory providers (the identity reranker among them) and a confidence threshold above 0.1 every completed run escalates |
| EndToEnd.GraphRunsFit | src/claimpilot/api/worker.py:255-270 | a graph run gives the worker the result, and the events, the protocol expects |
| EndToEnd.GraphRunsCanRepeat | src/claimpilot/api/routes/claims.py:192-203 | a completed graph run has at least eight steps, and a torn timeout can always make its reader repeat one |
| EndToEnd.CompletedWithoutHuman | src/claimpilot/api/worker.py:272-300 | a record completed without a human, in any state of the whole system, stores an error-free run that met all four thresholds and whose trace accounts for every token |
| EndToEnd.DefaultsNeedHumans | src/claimpilot/infra/settings.py:42-53 | with the in-memory defaults nothing is ever completed without a human decision |

## Left out

- Prompts, rationale, recommendation and signal strings, and the compliance agent's citations: text nothing decides on.
- JSON parsing, and integers `float` cannot hold: an LLM answer is an arbitrary already-parsed value or an exception.
- Intake's extraction of facts from the narrative: its result is arbitrary, and only the validators of `ClaimFacts` judge it.
- Floating-point rounding: scores and money are exact; the logarithm is only assumed positive above 1.
- Lone surrogates in keys: Dafny's `char` has none.
- Negative values of `max_tokens`, `k` and `top_k`, which Python's slices would accept.
- Clock, UUIDs and their collisions: latencies are parameters, and a new claim's id is one that is not stored yet.
- A provider that raises halfway through `ingest`, after the chunk map and BM25 are written: the in-memory ones never do.
- ApiWorker.HumanDecision: loads and saves a record in one step, as the in-memory store does; with a store that suspends in between, one decision can overwrite another (`LifecycleTheorems.LateDecisionExactly`).
- Cancelling the worker, redelivery of a message, and a second worker: one message is delivered to one worker once.
- Agent outputs, errors, cost summary, notes and timestamps in the stored record: copied, never read by the protocol.
- `list_claims`, `get_claim`, roles and headers, SSE formatting, logging and spans.
- The Azure providers other than the key codec, LangGraph and FastAPI themselves, the UI and the evaluation scorecard.
- RagPipeline.Retrieve: does not promise that results match the filter, which reaches only the dense side; `RagTheorems.FilterReaches` says what holds.
- StreamsTerminate: counts each replayed item as a step of its own, so its bound includes the length of the stored trace.
- SingleReaderExactlyOnce: says nothing about runs that raise; `SoleReaders.SingleReaderOfRaised` is about those.
