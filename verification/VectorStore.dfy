// The in-memory vector store (infra/providers/fakes/vector_store.py): a dictionary
// of records searched by brute force, ties left in insertion order by a stable sort.

module VectorStore {
  import opened Prelude
  import opened Ranking

  datatype VectorRecord = VectorRecord(id: string, text: string, embedding: seq<real>, metadata: map<string, string>)

  datatype SearchHit = SearchHit(id: string, text: string, score: real, metadata: map<string, string>)

  type Similarity = (seq<real>, seq<real>) -> real

  type Filter = Option<map<string, string>>

  /** An absent or empty filter lets every record through. */
  predicate Passes(rec: VectorRecord, filter: Filter) {
    filter.Some? ==>
      forall k :: k in filter.value ==> k in rec.metadata && rec.metadata[k] == filter.value[k]
  }

  /** A candidate, with the place of its key in the dictionary, so that the sort is stable. */
  datatype Candidate = Candidate(score: real, slot: nat, rec: VectorRecord)

  predicate CandidateBefore(a: Candidate, b: Candidate) {
    a.score > b.score || (a.score == b.score && a.slot < b.slot)
  }

  ghost predicate KeyedById(store: Dict<VectorRecord>) {
    store.Valid() && forall k :: k in store.m ==> store.m[k].id == k
  }

  /** The records among the first `i` keys that pass the filter, scored, in insertion order. */
  function Candidates(store: Dict<VectorRecord>, sim: Similarity, query: seq<real>, filter: Filter,
      i: nat): seq<Candidate>
    requires i <= |store.keys| && forall k :: k in store.keys ==> k in store.m
  {
    if i == 0 then []
    else
      var front := Candidates(store, sim, query, filter, i - 1);
      var rec := store.m[store.keys[i - 1]];
      if Passes(rec, filter) then front + [Candidate(sim(query, rec.embedding), i - 1, rec)] else front
  }

  function HitOf(c: Candidate): SearchHit {
    SearchHit(c.rec.id, c.rec.text, c.score, c.rec.metadata)
  }

  function HitsOf(cs: seq<Candidate>): (r: seq<SearchHit>)
    ensures |r| == |cs|
    ensures forall i :: 0 <= i < |cs| ==> r[i] == HitOf(cs[i])
  {
    seq(|cs|, i requires 0 <= i < |cs| => HitOf(cs[i]))
  }

  /** What a search returns, as a function of the stored dictionary. */
  function DenseSpec(store: Dict<VectorRecord>, sim: Similarity, query: seq<real>, topK: nat,
      filter: Filter): seq<SearchHit>
    requires forall k :: k in store.keys ==> k in store.m
  {
    HitsOf(Take(SortBy(CandidateBefore, Candidates(store, sim, query, filter, |store.keys|)), topK))
  }

  /** `for rec in records: store[rec.id] = rec` */
  function PutAll(store: Dict<VectorRecord>, records: seq<VectorRecord>): Dict<VectorRecord> {
    if records == [] then store
    else
      var n := |records| - 1;
      PutAll(store, records[..n]).Put(records[n].id, records[n])
  }

  /** `records[i]` is the last record written for its id. */
  ghost predicate LastForId(records: seq<VectorRecord>, i: nat) {
    i < |records| && forall j :: i < j < |records| ==> records[j].id != records[i].id
  }

  /** The last record written for an id stays, ids not written keep theirs, and no key changes its place. */
  lemma PutAllKeepsLast(store: Dict<VectorRecord>, records: seq<VectorRecord>)
    ensures store.keys <= PutAll(store, records).keys
    ensures forall i: nat :: LastForId(records, i) ==>
      records[i].id in PutAll(store, records).m && PutAll(store, records).m[records[i].id] == records[i]
    ensures forall k :: k in store.m && (forall i :: 0 <= i < |records| ==> records[i].id != k) ==>
      k in PutAll(store, records).m && PutAll(store, records).m[k] == store.m[k]
  {
    PutAllOrder(store, records);
    forall i: nat | LastForId(records, i)
      ensures records[i].id in PutAll(store, records).m && PutAll(store, records).m[records[i].id] == records[i]
    {
      LastStays(store, records, i);
    }
    forall k | k in store.m && (forall i :: 0 <= i < |records| ==> records[i].id != k)
      ensures k in PutAll(store, records).m && PutAll(store, records).m[k] == store.m[k]
    {
      OthersStay(store, records, k);
    }
  }

  lemma {:induction false} PutAllOrder(store: Dict<VectorRecord>, records: seq<VectorRecord>)
    ensures store.keys <= PutAll(store, records).keys
  {
    if records != [] { PutAllOrder(store, records[..|records| - 1]); }
  }

  lemma {:induction false} LastStays(store: Dict<VectorRecord>, records: seq<VectorRecord>, i: nat)
    requires LastForId(records, i)
    ensures records[i].id in PutAll(store, records).m && PutAll(store, records).m[records[i].id] == records[i]
    decreases |records|
  {
    var n := |records| - 1;
    if i < n {
      assert forall j :: 0 <= j < n ==> records[..n][j] == records[j];
      LastStays(store, records[..n], i);
    }
  }

  lemma {:induction false} OthersStay(store: Dict<VectorRecord>, records: seq<VectorRecord>, k: string)
    requires k in store.m && forall i :: 0 <= i < |records| ==> records[i].id != k
    ensures k in PutAll(store, records).m && PutAll(store, records).m[k] == store.m[k]
  {
    if records != [] {
      var n := |records| - 1;
      assert forall j :: 0 <= j < n ==> records[..n][j] == records[j];
      OthersStay(store, records[..n], k);
    }
  }

  class FakeVectorStore {
    const similarity: Similarity
    var store: Dict<VectorRecord>

    ghost predicate Valid()
      reads this
    {
      KeyedById(store)
    }

    constructor (similarity: Similarity)
      ensures Valid() && store == Dict([], map[]) && this.similarity == similarity
    {
      this.similarity := similarity;
      store := Dict([], map[]);
    }

    method Upsert(records: seq<VectorRecord>)
      requires Valid()
      modifies this
      ensures Valid()
      ensures store == PutAll(old(store), records)
    {
      for i := 0 to |records|
        invariant Valid()
        invariant store == PutAll(old(store), records[..i])
      {
        store := store.Put(records[i].id, records[i]);
        assert records[..i + 1][..i] == records[..i];
      }
      assert records[..|records|] == records;
    }

    method Search(query: seq<real>, topK: nat, filter: Filter) returns (hits: seq<SearchHit>)
      requires Valid()
      ensures hits == DenseSpec(store, similarity, query, topK, filter)
    {
      var candidates: seq<Candidate> := [];
      for i := 0 to |store.keys|
        invariant candidates == Candidates(store, similarity, query, filter, i)
      {
        var rec := store.m[store.keys[i]];
        if Passes(rec, filter) {
          candidates := candidates + [Candidate(similarity(query, rec.embedding), i, rec)];
        }
      }
      hits := HitsOf(Take(SortBy(CandidateBefore, candidates), topK));
    }

    method Delete(ids: seq<string>)
      requires Valid()
      modifies this
      ensures Valid()
      ensures forall k :: k in store.m <==> k in old(store.m) && k !in ids
      ensures forall k :: k in store.m ==> store.m[k] == old(store.m)[k]
    {
      for i := 0 to |ids|
        invariant Valid()
        invariant forall k :: k in store.m <==> k in old(store.m) && k !in ids[..i]
        invariant forall k :: k in store.m ==> store.m[k] == old(store.m)[k]
      {
        store := store.Remove(ids[i]);
        assert ids[..i + 1] == ids[..i] + [ids[i]];
      }
      assert ids[..|ids|] == ids;
    }
  }

  // ----- What a search promises ---------------------------------------------------------

  /** The stored records that pass the filter. */
  ghost function PassingIds(store: Dict<VectorRecord>, filter: Filter): set<string> {
    set k | k in store.m && Passes(store.m[k], filter)
  }

  /** `c` is the candidate for the record under the key at its slot. */
  ghost predicate IsCandidate(store: Dict<VectorRecord>, sim: Similarity, query: seq<real>, filter: Filter,
      c: Candidate) {
    && c.slot < |store.keys|
    && store.keys[c.slot] in store.m
    && c.rec == store.m[store.keys[c.slot]]
    && c.rec.id == store.keys[c.slot]
    && Passes(c.rec, filter)
    && c.score == sim(query, c.rec.embedding)
  }

  /** Candidates for some of the first `i` keys, in key order. */
  ghost predicate AreCandidates(store: Dict<VectorRecord>, sim: Similarity, query: seq<real>, filter: Filter, i: nat,
                                cs: seq<Candidate>)
  {
    && (forall j :: 0 <= j < |cs| ==> IsCandidate(store, sim, query, filter, cs[j]) && cs[j].slot < i)
    && (forall a, b :: 0 <= a < b < |cs| ==> cs[a].slot < cs[b].slot)
  }

  lemma KeyIsCandidate(store: Dict<VectorRecord>, sim: Similarity, query: seq<real>, filter: Filter, i: nat)
    requires KeyedById(store) && i < |store.keys| && Passes(store.m[store.keys[i]], filter)
    ensures
      var rec := store.m[store.keys[i]];
      IsCandidate(store, sim, query, filter, Candidate(sim(query, rec.embedding), i, rec))
  {
    assert store.keys[i] in store.m;
  }

  lemma {:induction false} CandidateAdded(store: Dict<VectorRecord>, sim: Similarity, query: seq<real>,
      filter: Filter, i: nat, cs: seq<Candidate>, c: Candidate)
    requires AreCandidates(store, sim, query, filter, i, cs)
    requires IsCandidate(store, sim, query, filter, c) && c.slot == i
    ensures AreCandidates(store, sim, query, filter, i + 1, cs + [c])
  {
  }

  lemma {:induction false} CandidatesSoFar(store: Dict<VectorRecord>, sim: Similarity, query: seq<real>,
      filter: Filter, i: nat, cs: seq<Candidate>)
    requires AreCandidates(store, sim, query, filter, i, cs)
    ensures AreCandidates(store, sim, query, filter, i + 1, cs)
  {
  }

  lemma {:induction false} CandidatesSound(store: Dict<VectorRecord>, sim: Similarity, query: seq<real>,
      filter: Filter, i: nat)
    requires KeyedById(store) && i <= |store.keys|
    ensures AreCandidates(store, sim, query, filter, i, Candidates(store, sim, query, filter, i))
  {
    if i > 0 {
      var front := Candidates(store, sim, query, filter, i - 1);
      CandidatesSound(store, sim, query, filter, i - 1);
      var rec := store.m[store.keys[i - 1]];
      if Passes(rec, filter) {
        KeyIsCandidate(store, sim, query, filter, i - 1);
        CandidateAdded(store, sim, query, filter, i - 1, front, Candidate(sim(query, rec.embedding), i - 1, rec));
      } else {
        CandidatesSoFar(store, sim, query, filter, i - 1, front);
      }
    }
  }

  lemma {:induction false} CandidatesComplete(store: Dict<VectorRecord>, sim: Similarity, query: seq<real>,
      filter: Filter, i: nat, slot: nat)
    requires KeyedById(store) && slot < i <= |store.keys|
    requires Passes(store.m[store.keys[slot]], filter)
    ensures
      var rec := store.m[store.keys[slot]];
      Candidate(sim(query, rec.embedding), slot, rec) in Candidates(store, sim, query, filter, i)
  {
    if slot < i - 1 { CandidatesComplete(store, sim, query, filter, i - 1, slot); }
  }

  lemma CandidatesSort(store: Dict<VectorRecord>, sim: Similarity, query: seq<real>, filter: Filter)
    requires KeyedById(store)
    ensures
      var cs := Candidates(store, sim, query, filter, |store.keys|);
      var sorted := SortBy(CandidateBefore, cs);
      && StrictlySorted(CandidateBefore, sorted)
      && (forall c :: c in sorted <==> c in cs)
  {
    var cs := Candidates(store, sim, query, filter, |store.keys|);
    CandidatesSound(store, sim, query, filter, |store.keys|);
    SortSorted(CandidateBefore, cs);
    SortMembers(CandidateBefore, cs);
    var sorted := SortBy(CandidateBefore, cs);
    assert forall c :: c in sorted <==> c in multiset(sorted);
    assert forall c :: c in cs <==> c in multiset(cs);
  }

  /** Every hit is a stored record that passes the filter, with its own similarity. */
  lemma HitIsRecord(store: Dict<VectorRecord>, sim: Similarity, query: seq<real>, topK: nat, filter: Filter, i: nat)
    requires KeyedById(store) && i < |DenseSpec(store, sim, query, topK, filter)|
    ensures
      var hit := DenseSpec(store, sim, query, topK, filter)[i];
      && hit.id in PassingIds(store, filter)
      && hit == SearchHit(hit.id, store.m[hit.id].text, sim(query, store.m[hit.id].embedding), store.m[hit.id].metadata)
  {
    CandidatesSort(store, sim, query, filter);
    CandidatesSound(store, sim, query, filter, |store.keys|);
    var sorted := SortBy(CandidateBefore, Candidates(store, sim, query, filter, |store.keys|));
    assert sorted[i] in sorted;
  }

  ghost predicate InsertedBefore(keys: seq<string>, x: string, y: string) {
    exists a, b :: 0 <= a < b < |keys| && keys[a] == x && keys[b] == y
  }

  /** Hits come best first, equally similar ones in insertion order, none twice. */
  lemma HitsOrdered(store: Dict<VectorRecord>, sim: Similarity, query: seq<real>, topK: nat, filter: Filter, i: nat,
      j: nat)
    requires KeyedById(store) && i < j < |DenseSpec(store, sim, query, topK, filter)|
    ensures
      var hits := DenseSpec(store, sim, query, topK, filter);
      && hits[i].id != hits[j].id
      && (hits[i].score > hits[j].score
          || (hits[i].score == hits[j].score && InsertedBefore(store.keys, hits[i].id, hits[j].id)))
  {
    CandidatesSort(store, sim, query, filter);
    CandidatesSound(store, sim, query, filter, |store.keys|);
    var sorted := SortBy(CandidateBefore, Candidates(store, sim, query, filter, |store.keys|));
    assert sorted[i] in sorted && sorted[j] in sorted;
    assert CandidateBefore(sorted[i], sorted[j]);
    assert store.keys[sorted[i].slot] == sorted[i].rec.id && store.keys[sorted[j].slot] == sorted[j].rec.id;
    assert sorted[i].slot != sorted[j].slot;
  }

  /** A passing record is only left out when `topK` hits are at least as similar. */
  lemma LeftOutIsWorse(store: Dict<VectorRecord>, sim: Similarity, query: seq<real>, topK: nat, filter: Filter,
      k: string)
    requires KeyedById(store) && k in PassingIds(store, filter)
    requires
      var hits := DenseSpec(store, sim, query, topK, filter);
      forall i :: 0 <= i < |hits| ==> hits[i].id != k
    ensures
      var hits := DenseSpec(store, sim, query, topK, filter);
      |hits| == topK && forall i :: 0 <= i < |hits| ==> hits[i].score >= sim(query, store.m[k].embedding)
  {
    CandidatesSort(store, sim, query, filter);
    var sorted := SortBy(CandidateBefore, Candidates(store, sim, query, filter, |store.keys|));
    var hits := DenseSpec(store, sim, query, topK, filter);
    var slot :| 0 <= slot < |store.keys| && store.keys[slot] == k;
    CandidatesComplete(store, sim, query, filter, |store.keys|, slot);
    var mine := Candidate(sim(query, store.m[k].embedding), slot, store.m[k]);
    assert mine in sorted;
    var p :| 0 <= p < |sorted| && sorted[p] == mine;
    assert forall i :: 0 <= i < |hits| ==> hits[i] == HitOf(sorted[i]);
    assert p >= |hits|;
    assert forall i :: 0 <= i < |hits| ==> CandidateBefore(sorted[i], sorted[p]);
  }

  /** A hit of a filtered search has every key of the filter in its metadata, with the filter's value. */
  lemma FilteredHit(store: Dict<VectorRecord>, sim: Similarity, query: seq<real>, topK: nat,
      wanted: map<string, string>, i: nat)
    requires KeyedById(store) && i < |DenseSpec(store, sim, query, topK, Some(wanted))|
    ensures
      var metadata := DenseSpec(store, sim, query, topK, Some(wanted))[i].metadata;
      forall key :: key in wanted ==> key in metadata && metadata[key] == wanted[key]
  {
    HitIsRecord(store, sim, query, topK, Some(wanted), i);
  }

  /** Conversely, a stored record that has all of them is found, or `topK` hits are at least as similar; and so is
      every record when there is no filter. */
  lemma MatchFound(store: Dict<VectorRecord>, sim: Similarity, query: seq<real>, topK: nat, filter: Filter, k: string)
    requires KeyedById(store) && k in store.m
    requires filter.None? || forall key :: key in filter.value ==>
      key in store.m[k].metadata && store.m[k].metadata[key] == filter.value[key]
    ensures
      var hits := DenseSpec(store, sim, query, topK, filter);
      || (exists i :: 0 <= i < |hits| && hits[i].id == k)
      || (|hits| == topK && forall i :: 0 <= i < |hits| ==> hits[i].score >= sim(query, store.m[k].embedding))
  {
    var hits := DenseSpec(store, sim, query, topK, filter);
    if forall i :: 0 <= i < |hits| ==> hits[i].id != k {
      LeftOutIsWorse(store, sim, query, topK, filter, k);
    }
  }
}
