// When the clause ids of a corpus cannot collide, judged by its documents and headings alone
// (rag/chunker.py:39-56, rag/pipeline.py:63-85).

module ClauseIds {
  import opened Prelude
  import opened Text
  import opened Chunker
  import opened Rag

  const PART: string := ":part"

  /** No clause id made from one base is one made from the other. */
  ghost predicate Apart(a: string, b: string) {
    a != b && forall n: nat :: a != b + PART + Decimal(n) && b != a + PART + Decimal(n)
  }

  lemma ColonAfterBase(a: string, i: nat)
    ensures
      var id := a + PART + Decimal(i);
      id[|a|] == ':' && forall k :: |a| < k < |id| ==> id[k] != ':'
  {
    DecimalIs(i);
  }

  /** The last colon tells where the base ends. */
  lemma BaseEnds(a: string, i: nat, b: string, j: nat)
    requires a + PART + Decimal(i) == b + PART + Decimal(j)
    ensures |a| >= |b|
  {
    ColonAfterBase(a, i);
    ColonAfterBase(b, j);
  }

  lemma SameBase(a: string, i: nat, b: string, j: nat)
    requires a + PART + Decimal(i) == b + PART + Decimal(j)
    ensures a == b
  {
    BaseEnds(a, i, b, j);
    BaseEnds(b, j, a, i);
    assert (a + PART + Decimal(i))[..|a|] == a && (b + PART + Decimal(j))[..|b|] == b;
  }

  lemma IdsApart(a: string, m: nat, i: nat, b: string, n: nat, j: nat)
    requires Apart(a, b)
    ensures ClauseId(a, m, i) != ClauseId(b, n, j)
  {
    if ClauseId(a, m, i) == ClauseId(b, n, j) && m != 1 && n != 1 {
      SameBase(a, i, b, j);
    }
  }

  // ----- The groups of a corpus ------------------------------------------------------------------

  /** The chunks are numbered from `base`. */
  ghost predicate NumberedFrom(group: seq<Chunk>, base: string) {
    forall i :: 0 <= i < |group| ==> group[i].clauseId == ClauseId(base, |group|, i)
  }

  lemma NumberedDistinct(group: seq<Chunk>, base: string)
    requires NumberedFrom(group, base)
    ensures DistinctIds(group)
  {
    forall i, j | 0 <= i < j < |group| ensures group[i].clauseId != group[j].clauseId {
      if group[i].clauseId == group[j].clauseId {
        assert (base + PART + Decimal(i))[|base + PART|..] == Decimal(i);
        assert (base + PART + Decimal(j))[|base + PART|..] == Decimal(j);
        DecimalInjective(i, j);
      }
    }
  }

  /** The bases of a document's sections. */
  function BasesOf(doc: SourceDoc): (r: seq<string>)
    ensures |r| == |Sections(doc.text, BasePath(doc))|
  {
    var sections := Sections(doc.text, BasePath(doc));
    seq(|sections|, i requires 0 <= i < |sections| => ClauseBase(doc, sections[i].path))
  }

  /** The bases of all sections of a corpus: document ids and section paths, without looking at any chunk. */
  function AllBases(corpus: seq<SourceDoc>): seq<string> {
    if corpus == [] then [] else AllBases(corpus[..|corpus| - 1]) + BasesOf(corpus[|corpus| - 1])
  }

  function AllGroups(corpus: seq<SourceDoc>, config: RagConfig): seq<seq<Chunk>>
    requires CorpusEnds(corpus, config)
  {
    if corpus == [] then []
    else
      var n := |corpus| - 1;
      AllGroups(corpus[..n], config) + SectionGroups(corpus[n], config.chunkTokens, config.chunkOverlap)
  }

  ghost predicate AllNumbered(groups: seq<seq<Chunk>>, bases: seq<string>) {
    |groups| == |bases| && forall g :: 0 <= g < |groups| ==> NumberedFrom(groups[g], bases[g])
  }

  lemma SectionsNumbered(doc: SourceDoc, max: nat, overlap: int)
    requires DocumentEnds(doc, max, overlap)
    ensures AllNumbered(SectionGroups(doc, max, overlap), BasesOf(doc))
  {
    var sections := Sections(doc.text, BasePath(doc));
    forall g | 0 <= g < |sections| ensures NumberedFrom(SectionGroups(doc, max, overlap)[g], BasesOf(doc)[g]) {
      GroupNumbered(doc, sections[g], max, overlap);
    }
  }

  lemma GroupNumbered(doc: SourceDoc, s: Section, max: nat, overlap: int)
    requires SplitEnds(|Words(s.text)|, max, overlap)
    ensures NumberedFrom(SectionChunks(doc, s, max, overlap), ClauseBase(doc, s.path))
  {
  }

  lemma NumberedConcat(a: seq<seq<Chunk>>, b: seq<seq<Chunk>>, s: seq<string>, t: seq<string>)
    requires AllNumbered(a, s) && AllNumbered(b, t)
    ensures AllNumbered(a + b, s + t)
  {
    forall g | 0 <= g < |a + b| ensures NumberedFrom((a + b)[g], (s + t)[g]) {
      if g < |a| {
        assert (a + b)[g] == a[g] && (s + t)[g] == s[g];
      } else {
        assert (a + b)[g] == b[g - |a|] && (s + t)[g] == t[g - |a|];
      }
    }
  }

  lemma {:induction false} CorpusNumbered(corpus: seq<SourceDoc>, config: RagConfig)
    requires CorpusEnds(corpus, config)
    ensures AllNumbered(AllGroups(corpus, config), AllBases(corpus))
  {
    if corpus != [] {
      var n := |corpus| - 1;
      CorpusNumbered(corpus[..n], config);
      SectionsNumbered(corpus[n], config.chunkTokens, config.chunkOverlap);
      NumberedConcat(AllGroups(corpus[..n], config),
        SectionGroups(corpus[n], config.chunkTokens, config.chunkOverlap), AllBases(corpus[..n]), BasesOf(corpus[n]));
    }
  }

  lemma {:induction false} FlattenConcat<T>(a: seq<seq<T>>, b: seq<seq<T>>)
    ensures Flatten(a + b) == Flatten(a) + Flatten(b)
  {
    if a == [] {
      assert a + b == b;
    } else {
      assert (a + b)[1..] == a[1..] + b;
      FlattenConcat(a[1..], b);
      ConcatAssoc(a[0], Flatten(a[1..]), Flatten(b));
    }
  }

  lemma {:induction false} GroupsAreChunks(corpus: seq<SourceDoc>, config: RagConfig)
    requires CorpusEnds(corpus, config)
    ensures Flatten(AllGroups(corpus, config)) == AllChunks(corpus, config)
  {
    if corpus != [] {
      var n := |corpus| - 1;
      GroupsAreChunks(corpus[..n], config);
      FlattenConcat(AllGroups(corpus[..n], config),
        SectionGroups(corpus[n], config.chunkTokens, config.chunkOverlap));
    }
  }

  // ----- No collision ----------------------------------------------------------------------------

  ghost predicate AllApart(bases: seq<string>) {
    forall g, h :: 0 <= g < h < |bases| ==> Apart(bases[g], bases[h])
  }

  lemma GroupsApart(group: seq<Chunk>, base: string, other: seq<Chunk>, otherBase: string, ch: Chunk, c: Chunk)
    requires NumberedFrom(group, base) && NumberedFrom(other, otherBase) && Apart(base, otherBase)
    requires ch in group && c in other
    ensures ch.clauseId != c.clauseId
  {
    var i :| 0 <= i < |group| && group[i] == ch;
    var j :| 0 <= j < |other| && other[j] == c;
    IdsApart(base, |group|, i, otherBase, |other|, j);
  }

  lemma DistinctConcat(a: seq<Chunk>, b: seq<Chunk>)
    requires DistinctIds(a) && DistinctIds(b)
    requires forall x, y :: x in a && y in b ==> x.clauseId != y.clauseId
    ensures DistinctIds(a + b)
  {
    var all := a + b;
    forall i, j | 0 <= i < j < |all| ensures all[i].clauseId != all[j].clauseId {
      if i < |a| <= j { assert a[i] in a && b[j - |a|] in b; }
    }
  }

  lemma {:induction false} GroupsDistinct(groups: seq<seq<Chunk>>, bases: seq<string>)
    requires AllNumbered(groups, bases) && AllApart(bases)
    ensures DistinctIds(Flatten(groups))
  {
    if groups != [] {
      GroupsDistinct(groups[1..], bases[1..]);
      NumberedDistinct(groups[0], bases[0]);
      forall x, y | x in groups[0] && y in Flatten(groups[1..]) ensures x.clauseId != y.clauseId {
        FlattenMember(groups[1..], y);
        var g :| 0 <= g < |groups| - 1 && y in groups[1..][g];
        GroupsApart(groups[0], bases[0], groups[g + 1], bases[g + 1], x, y);
      }
      DistinctConcat(groups[0], Flatten(groups[1..]));
    }
  }

  /** If no section's base (document id and section path) is another's, or another's followed by a part number, no two
      chunks of the corpus share a clause id, whatever the chunk size; so ingest keeps them all. */
  lemma SeparateSectionsKeepAll(corpus: seq<SourceDoc>, config: RagConfig)
    requires CorpusEnds(corpus, config) && AllApart(AllBases(corpus))
    ensures DistinctIds(AllChunks(corpus, config))
    ensures |Indexed(corpus, config).keys| == |AllChunks(corpus, config)|
    ensures
      var all := AllChunks(corpus, config);
      forall i :: 0 <= i < |all| ==> Survives(Indexed(corpus, config).m, all[i])
  {
    CorpusNumbered(corpus, config);
    GroupsAreChunks(corpus, config);
    GroupsDistinct(AllGroups(corpus, config), AllBases(corpus));
    EntriesCountChunks(corpus, config);
    IngestKeepsAllExactly(corpus, config);
  }
}
