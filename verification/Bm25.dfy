// The in-memory BM25 index (rag/bm25.py): document frequencies and the average
// length are kept up to date by every `add`, and `search` scores by them.

module Bm25 {
  import opened Prelude
  import opened Ranking

  const K1: real := 1.5
  const B: real := 0.75

  /** One indexed text: token counts and length. */
  datatype DocEntry = DocEntry(text: string, tf: multiset<string>, length: nat)

  function EntryOf(tokenise: string -> seq<string>, text: string): (e: DocEntry)
    ensures e.length == |e.tf|
  {
    DocEntry(text, multiset(tokenise(text)), |tokenise(text)|)
  }

  // ===== The index rebuilt from its texts ===========================================

  /** The ids of the texts that hold token `t`. */
  ghost function Holders(docs: map<string, DocEntry>, t: string): set<string> {
    set id | id in docs && t in docs[id].tf
  }

  ghost function DocFreq(docs: map<string, DocEntry>, t: string): nat {
    |Holders(docs, t)|
  }

  ghost function Lengths(docs: map<string, DocEntry>): map<string, real> {
    map id | id in docs :: docs[id].length as real
  }

  /** The average length, computed from scratch. */
  ghost function AvgLength(docs: map<string, DocEntry>): real {
    if docs == map[] then 0.0 else MapSum(Lengths(docs)) / |docs| as real
  }

  /** `df` holds the non-zero document frequencies and nothing else. */
  ghost predicate CountsHolders(df: map<string, nat>, docs: map<string, DocEntry>) {
    forall t :: (if t in df then df[t] else 0) == DocFreq(docs, t) && (t in df ==> df[t] > 0)
  }

  /** The whole index built from an id-to-text map. */
  ghost function Rebuilt(tokenise: string -> seq<string>, texts: map<string, string>): map<string, DocEntry> {
    map id | id in texts :: EntryOf(tokenise, texts[id])
  }

  ghost function TextsOf(docs: map<string, DocEntry>): map<string, string> {
    map id | id in docs :: docs[id].text
  }

  lemma TextsPut(docs: map<string, DocEntry>, id: string, e: DocEntry)
    ensures TextsOf(docs[id := e]) == TextsOf(docs)[id := e.text]
  {
    var a, b := TextsOf(docs[id := e]), TextsOf(docs)[id := e.text];
    assert a.Keys == b.Keys;
    forall k | k in a ensures a[k] == b[k] {
    }
  }

  ghost predicate EntriesOf(tokenise: string -> seq<string>, docs: map<string, DocEntry>) {
    forall id :: id in docs ==> docs[id] == EntryOf(tokenise, docs[id].text)
  }

  lemma RebuiltIs(tokenise: string -> seq<string>, docs: map<string, DocEntry>)
    requires EntriesOf(tokenise, docs)
    ensures docs == Rebuilt(tokenise, TextsOf(docs))
  {
  }

  lemma DocFreqBounded(docs: map<string, DocEntry>, t: string)
    ensures DocFreq(docs, t) <= |docs|
  {
    SubsetSize(Holders(docs, t), docs.Keys);
  }

  lemma {:induction false} SubsetSize(a: set<string>, b: set<string>)
    requires a <= b
    ensures |a| <= |b|
  {
    if a != {} {
      var x :| x in a;
      SubsetSize(a - {x}, b - {x});
    }
  }

  /** Replacing one text moves each token's frequency by the texts that gain or lose it. */
  lemma DocFreqPut(docs: map<string, DocEntry>, id: string, e: DocEntry, t: string)
    ensures DocFreq(docs[id := e], t)
         == DocFreq(docs, t) - (if id in docs && t in docs[id].tf then 1 else 0) + (if t in e.tf then 1 else 0)
  {
    var others := Holders(docs, t) - {id};
    if id in docs && t in docs[id].tf {
      assert Holders(docs, t) == others + {id};
    } else {
      assert Holders(docs, t) == others;
    }
    if t in e.tf {
      assert Holders(docs[id := e], t) == others + {id};
    } else {
      assert Holders(docs[id := e], t) == others;
    }
  }

  lemma LengthsNonNegative(docs: map<string, DocEntry>)
    ensures MapSum(Lengths(docs)) >= 0.0
    decreases |docs|
  {
    if docs != map[] {
      var k :| k in docs;
      MapSumRemove(Lengths(docs), k);
      assert Lengths(docs) - {k} == Lengths(docs - {k});
      LengthsNonNegative(docs - {k});
    }
  }

  /** A text with a token makes the average length positive. */
  lemma AvgPositive(docs: map<string, DocEntry>, id: string)
    requires id in docs && docs[id].length > 0
    ensures AvgLength(docs) > 0.0
  {
    MapSumRemove(Lengths(docs), id);
    assert Lengths(docs) - {id} == Lengths(docs - {id});
    LengthsNonNegative(docs - {id});
    var total := MapSum(Lengths(docs));
    assert total >= 1.0 && |docs| as real > 0.0;
    assert total / |docs| as real > 0.0;
  }

  // ===== Scores =====================================================================

  /** The natural logarithm is only used above 1, where it is positive. */
  ghost predicate PositiveAboveOne(ln: real -> real) {
    forall x :: x > 1.0 ==> ln(x) > 0.0
  }

  function IdfArgument(n: nat, df: nat): real {
    (n as real - df as real + 0.5) / (df as real + 0.5) + 1.0
  }

  /** The contribution of one query token to the score of one text. */
  function TermScore(ln: real -> real, n: nat, df: nat, tf: nat, length: nat, avg: real): real
    requires tf > 0 && avg > 0.0
  {
    var numerator := ln(IdfArgument(n, df)) * tf as real * (K1 + 1.0);
    var denominator := tf as real + K1 * (1.0 - B + B * length as real / avg);
    assert B * length as real / avg >= 0.0;
    numerator / denominator
  }

  /** A text holds the token, so it has a length and the average is positive. */
  lemma HolderHasLength(docs: map<string, DocEntry>, id: string, t: string)
    requires id in docs && docs[id].length == |docs[id].tf|
    requires t in docs[id].tf
    ensures AvgLength(docs) > 0.0
  {
    assert docs[id].tf[t] > 0;
    assert |docs[id].tf| > 0;
    AvgPositive(docs, id);
  }

  ghost predicate Measured(docs: map<string, DocEntry>) {
    forall id :: id in docs ==> docs[id].length == |docs[id].tf|
  }

  /** The score of text `id` for the query tokens, from the texts alone. */
  ghost function Score(ln: real -> real, docs: map<string, DocEntry>, tokens: seq<string>, id: string): real
    requires id in docs && Measured(docs)
  {
    if tokens == [] then 0.0
    else
      var n := |tokens| - 1;
      var t := tokens[n];
      Score(ln, docs, tokens[..n], id) +
      if t !in docs[id].tf then 0.0
      else
        HolderHasLength(docs, id, t);
        TermScore(ln, |docs|, DocFreq(docs, t), docs[id].tf[t], docs[id].length, AvgLength(docs))
  }

  /** The texts that score above zero. */
  ghost function Eligible(ln: real -> real, docs: map<string, DocEntry>, tokens: seq<string>): map<string, real>
    requires Measured(docs)
  {
    map id | id in docs && Score(ln, docs, tokens, id) > 0.0 :: Score(ln, docs, tokens, id)
  }

  /** What a search returns, as a function of the id-to-text map. */
  ghost function SearchSpec(tokenise: string -> seq<string>, ln: real -> real, texts: map<string, string>,
                            query: string, topK: nat): seq<Ranked>
  {
    Take(RankingOf(Eligible(ln, Rebuilt(tokenise, texts), tokenise(query))), topK)
  }

  // ----- Arithmetic of the scores -----------------------------------------------------

  /** The argument of the logarithm is (n + 1) / (df + 0.5), which is above 1. */
  lemma IdfArgumentIs(n: nat, df: nat)
    requires df <= n
    ensures IdfArgument(n, df) == (n as real + 1.0) / (df as real + 0.5)
    ensures IdfArgument(n, df) > 1.0
  {
    var d := df as real + 0.5;
    assert d / d == 1.0;
    assert (n as real - df as real + 0.5) / d + d / d == (n as real - df as real + 0.5 + d) / d;
    assert (n as real - df as real + 0.5) / d > 0.0;
  }

  /** One token adds a positive amount, less than (k1 + 1) times its idf. */
  lemma TermScoreBounds(ln: real -> real, n: nat, df: nat, tf: nat, length: nat, avg: real)
    requires PositiveAboveOne(ln)
    requires tf > 0 && avg > 0.0 && df <= n
    ensures 0.0 < TermScore(ln, n, df, tf, length, avg) < (K1 + 1.0) * ln(IdfArgument(n, df))
  {
    IdfArgumentIs(n, df);
    var top := (K1 + 1.0) * ln(IdfArgument(n, df));
    var count := tf as real;
    var denominator := count + K1 * (1.0 - B + B * length as real / avg);
    assert B * length as real / avg >= 0.0;
    assert denominator > count;
    FractionBelow(top, count, denominator);
    assert ln(IdfArgument(n, df)) * count * (K1 + 1.0) == top * count;
  }

  /** What the length adds to the term frequency below the fraction. */
  function LengthPart(length: nat, avg: real): real
    requires avg > 0.0
  {
    0.375 + 1.125 * (length as real / avg)
  }

  lemma LengthPartIs(length: nat, avg: real)
    requires avg > 0.0
    ensures K1 * (1.0 - B + B * length as real / avg) == LengthPart(length, avg) > 0.0
    ensures length as real == avg ==> LengthPart(length, avg) == 1.5
  {
    var share := length as real / avg;
    assert share * avg == length as real;
    assert B * length as real / avg == 0.75 * share;
    if length as real == avg { assert share == avg / avg == 1.0; }
    if share < 0.0 { assert share * avg < 0.0; }
  }

  lemma NumeratorIs(idf: real, count: real)
    ensures idf * count * (K1 + 1.0) == idf * 2.5 * count == idf * count * 2.5
  {
  }

  lemma TermScoreShape(ln: real -> real, n: nat, df: nat, tf: nat, length: nat, avg: real)
    requires tf > 0 && avg > 0.0
    ensures LengthPart(length, avg) > 0.0
    ensures TermScore(ln, n, df, tf, length, avg)
         == ln(IdfArgument(n, df)) * 2.5 * tf as real / (tf as real + LengthPart(length, avg))
  {
    LengthPartIs(length, avg);
    NumeratorIs(ln(IdfArgument(n, df)), tf as real);
  }

  /** ln((n + 1) / (df + 0.5)) times 2.5 tf over tf + 0.375 + 1.125 length / avg. */
  ghost predicate Formula(ln: real -> real, n: nat, df: nat, tf: nat, length: nat, avg: real, score: real)
    requires avg > 0.0
  {
    score * (tf as real + 0.375 + 1.125 * (length as real / avg))
      == ln((n as real + 1.0) / (df as real + 0.5)) * 2.5 * tf as real
  }

  /** The whole formula; at the average length it is 2.5 tf / (tf + 1.5) of the idf. */
  lemma TermScoreIs(ln: real -> real, n: nat, df: nat, tf: nat, length: nat, avg: real)
    requires tf > 0 && avg > 0.0 && df <= n
    ensures Formula(ln, n, df, tf, length, avg, TermScore(ln, n, df, tf, length, avg))
    ensures length as real == avg ==>
      TermScore(ln, n, df, tf, length, avg)
        == ln((n as real + 1.0) / (df as real + 0.5)) * 2.5 * tf as real / (tf as real + 1.5)
  {
    IdfArgumentIs(n, df);
    TermScoreShape(ln, n, df, tf, length, avg);
    LengthPartIs(length, avg);
    QuotientBack(ln(IdfArgument(n, df)) * 2.5 * tf as real, tf as real + LengthPart(length, avg));
  }

  lemma FractionOrder(x: real, y: real, z: real, w: real)
    requires y > 0.0 && w > 0.0
    ensures x * w <= z * y ==> x / y <= z / w
    ensures x * w < z * y ==> x / y < z / w
  {
    var p, q := x / y, z / w;
    assert p * y == x && q * w == z;
    assert (q - p) * (y * w) == q * w * y - p * y * w == z * y - x * w;
    if p >= q { assert (p - q) * (y * w) >= 0.0; }
    if p > q { assert (p - q) * (y * w) > 0.0; }
  }

  lemma ProductOrder(a: real, b: real, s: real, t: real)
    requires 0.0 < a <= b && 0.0 < s <= t
    ensures 0.0 < a * s <= b * t
    ensures a < b || s < t ==> a * s < b * t
  {
    assert b * t - a * s == (b - a) * t + a * (t - s);
    assert (b - a) * t >= 0.0 && a * (t - s) >= 0.0;
    assert a < b ==> (b - a) * t > 0.0;
    assert s < t ==> a * (t - s) > 0.0;
  }

  /** c a / (a + s) grows with `a` and shrinks with `s`. */
  lemma SaturationOrder(c: real, a: real, s: real, a': real, s': real)
    requires c > 0.0 && 0.0 < a <= a' && 0.0 < s' <= s
    ensures c * a / (a + s) <= c * a' / (a' + s')
    ensures a < a' || s' < s ==> c * a / (a + s) < c * a' / (a' + s')
  {
    ProductOrder(a, a', s', s);
    ProductOrder(c, c, a * s', a' * s);
    assert c * a * (a' + s') == c * a * a' + c * (a * s');
    assert c * a' * (a + s) == c * a * a' + c * (a' * s);
    FractionOrder(c * a, a + s, c * a', a' + s');
  }

  lemma ShorterShare(length: nat, length': nat, avg: real)
    requires avg > 0.0 && length <= length'
    ensures 0.0 <= length as real / avg <= length' as real / avg
    ensures length < length' ==> length as real / avg < length' as real / avg
  {
    FractionOrder(length as real, avg, length' as real, avg);
  }

  /** The score is c a / (a + s) for the count `a` and a positive `s` that grows with the length. */
  ghost predicate Saturates(c: real, a: real, s: real, score: real)
    requires a > 0.0 && s > 0.0
  {
    score == c * a / (a + s)
  }

  lemma SaturatedOrder(c: real, a: real, s: real, p: real, a': real, s': real, q: real)
    requires c > 0.0 && 0.0 < a <= a' && 0.0 < s' <= s
    requires Saturates(c, a, s, p) && Saturates(c, a', s', q)
    ensures p <= q && (a < a' || s' < s ==> p < q)
  {
    SaturationOrder(c, a, s, a', s');
  }

  lemma LengthPartOrder(length: nat, length': nat, avg: real)
    requires avg > 0.0 && length' <= length
    ensures 0.0 < LengthPart(length', avg) <= LengthPart(length, avg)
    ensures length' < length ==> LengthPart(length', avg) < LengthPart(length, avg)
  {
    ShorterShare(length', length, avg);
  }

  lemma TermScoreSaturates(ln: real -> real, n: nat, df: nat, tf: nat, length: nat, avg: real)
    requires tf > 0 && avg > 0.0
    ensures LengthPart(length, avg) > 0.0
    ensures Saturates(ln(IdfArgument(n, df)) * 2.5, tf as real, LengthPart(length, avg),
              TermScore(ln, n, df, tf, length, avg))
  {
    TermScoreShape(ln, n, df, tf, length, avg);
  }

  /** More occurrences score more, and as many in a longer text score less. */
  lemma TermScoreOrder(ln: real -> real, n: nat, df: nat, tf: nat, length: nat, tf': nat, length': nat, avg: real)
    requires PositiveAboveOne(ln) && df <= n && avg > 0.0
    requires 0 < tf <= tf' && length' <= length
    ensures TermScore(ln, n, df, tf, length, avg) <= TermScore(ln, n, df, tf', length', avg)
    ensures tf < tf' || length' < length ==>
      TermScore(ln, n, df, tf, length, avg) < TermScore(ln, n, df, tf', length', avg)
  {
    IdfArgumentIs(n, df);
    LengthPartOrder(length, length', avg);
    TermScoreSaturates(ln, n, df, tf, length, avg);
    TermScoreSaturates(ln, n, df, tf', length', avg);
    SaturatedOrder(ln(IdfArgument(n, df)) * 2.5, tf as real, LengthPart(length, avg),
      TermScore(ln, n, df, tf, length, avg), tf' as real, LengthPart(length', avg),
      TermScore(ln, n, df, tf', length', avg));
  }

  lemma FractionBelow(top: real, count: real, denominator: real)
    requires top > 0.0 && 0.0 < count < denominator
    ensures 0.0 < top * count / denominator < top
  {
    assert top * count < top * denominator;
    assert top * count > 0.0;
    DivideBelow(top * count, denominator, top);
  }

  lemma DivideBelow(x: real, d: real, bound: real)
    requires 0.0 < d && 0.0 < x < bound * d
    ensures 0.0 < x / d < bound
  {
    assert (bound * d) / d == bound;
    assert x / d < (bound * d) / d;
  }

  /** Scores add up over the query tokens, repeated ones counted each time. */
  lemma {:induction false} ScoreConcat(ln: real -> real, docs: map<string, DocEntry>, a: seq<string>, b: seq<string>,
      id: string)
    requires id in docs && Measured(docs)
    ensures Score(ln, docs, a + b, id) == Score(ln, docs, a, id) + Score(ln, docs, b, id)
  {
    if b == [] {
      assert a + b == a;
    } else {
      var n := |b| - 1;
      assert (a + b)[..|a + b| - 1] == a + b[..n];
      ScoreConcat(ln, docs, a, b[..n], id);
    }
  }

  lemma OneToken(ln: real -> real, docs: map<string, DocEntry>, t: string, id: string)
    requires id in docs && Measured(docs)
    ensures t !in docs[id].tf ==> Score(ln, docs, [t], id) == 0.0
    ensures t in docs[id].tf ==>
      && AvgLength(docs) > 0.0
      && Score(ln, docs, [t], id)
         == TermScore(ln, |docs|, DocFreq(docs, t), docs[id].tf[t], docs[id].length, AvgLength(docs))
  {
    assert [t][..0] == [] && [t][0] == t;
    if t in docs[id].tf { HolderHasLength(docs, id, t); }
  }

  lemma RebuiltCounts(tokenise: string -> seq<string>, texts: map<string, string>, t: string)
    ensures |Rebuilt(tokenise, texts)| == |texts|
    ensures DocFreq(Rebuilt(tokenise, texts), t) == |set id | id in texts && t in tokenise(texts[id])|
  {
    var docs := Rebuilt(tokenise, texts);
    assert docs.Keys == texts.Keys && |docs| == |docs.Keys| == |texts.Keys| == |texts|;
    assert Holders(docs, t) == set id | id in texts && t in tokenise(texts[id]);
  }

  /** The score of a text for one query token, in terms of the texts: nothing if it does not hold the token, and else
      the whole formula for its own count and length. */
  lemma ScoreOfToken(tokenise: string -> seq<string>, ln: real -> real, texts: map<string, string>, t: string,
      id: string)
    requires id in texts
    ensures t !in tokenise(texts[id]) ==> Score(ln, Rebuilt(tokenise, texts), [t], id) == 0.0
    ensures t in tokenise(texts[id]) ==>
      && AvgLength(Rebuilt(tokenise, texts)) > 0.0
      && Formula(ln, |texts|, |set other | other in texts && t in tokenise(texts[other])|,
           multiset(tokenise(texts[id]))[t], |tokenise(texts[id])|, AvgLength(Rebuilt(tokenise, texts)),
           Score(ln, Rebuilt(tokenise, texts), [t], id))
  {
    var docs := Rebuilt(tokenise, texts);
    RebuiltCounts(tokenise, texts, t);
    assert docs[id] == EntryOf(tokenise, texts[id]);
    OneToken(ln, docs, t, id);
    if t in tokenise(texts[id]) {
      DocFreqBounded(docs, t);
      TermScoreIs(ln, |docs|, DocFreq(docs, t), docs[id].tf[t], docs[id].length, AvgLength(docs));
    }
  }

  lemma AvgTimesCount(docs: map<string, DocEntry>)
    ensures AvgLength(docs) * |docs| as real == MapSum(Lengths(docs))
  {
    if docs == map[] {
      assert Lengths(docs) == map[];
    } else {
      QuotientBack(MapSum(Lengths(docs)), |docs| as real);
    }
  }

  lemma QuotientBack(x: real, d: real)
    requires d != 0.0
    ensures x / d * d == x
  {
  }

  lemma AvgStep(docs: map<string, DocEntry>, more: map<string, DocEntry>, length: nat)
    requires MapSum(Lengths(more)) == MapSum(Lengths(docs)) + length as real
    ensures AvgLength(more) * |more| as real == AvgLength(docs) * |docs| as real + length as real
  {
    AvgTimesCount(docs);
    AvgTimesCount(more);
  }

  /** Of no text the average is 0, and a text more adds its own length to the total. */
  lemma AvgLengthIs(docs: map<string, DocEntry>, more: map<string, DocEntry>, id: string, e: DocEntry)
    requires id !in docs && more == docs[id := e]
    ensures AvgLength(map[]) == 0.0
    ensures AvgLength(more) * |more| as real == AvgLength(docs) * |docs| as real + e.length as real
  {
    LengthsPut(docs, id, e);
    AvgStep(docs, more, e.length);
  }

  /** Text `a` is no longer than `b` and holds every query token at least as often. */
  ghost predicate HoldsNoLess(a: DocEntry, b: DocEntry, tokens: seq<string>) {
    a.length <= b.length && forall t :: t in tokens ==> b.tf[t] <= a.tf[t]
  }

  /** It even holds one of them more often, or is shorter and holds one of them at all. */
  ghost predicate HoldsMore(a: DocEntry, b: DocEntry, tokens: seq<string>) {
    && HoldsNoLess(a, b, tokens)
    && exists t :: t in tokens && (b.tf[t] < a.tf[t] || (a.length < b.length && t in a.tf))
  }

  lemma OneTokenOrder(ln: real -> real, docs: map<string, DocEntry>, t: string, a: string, b: string)
    requires PositiveAboveOne(ln) && Measured(docs) && a in docs && b in docs
    requires docs[a].length <= docs[b].length && docs[b].tf[t] <= docs[a].tf[t]
    ensures Score(ln, docs, [t], b) <= Score(ln, docs, [t], a)
    ensures docs[b].tf[t] < docs[a].tf[t] || (docs[a].length < docs[b].length && t in docs[a].tf) ==>
      Score(ln, docs, [t], b) < Score(ln, docs, [t], a)
  {
    OneToken(ln, docs, t, a);
    OneToken(ln, docs, t, b);
    DocFreqBounded(docs, t);
    if t in docs[a].tf && t !in docs[b].tf {
      TermScoreBounds(ln, |docs|, DocFreq(docs, t), docs[a].tf[t], docs[a].length, AvgLength(docs));
    } else if t in docs[b].tf {
      TermScoreOrder(ln, |docs|, DocFreq(docs, t), docs[b].tf[t], docs[b].length, docs[a].tf[t], docs[a].length,
        AvgLength(docs));
    }
  }

  lemma {:induction false} ScoreOrder(ln: real -> real, docs: map<string, DocEntry>, tokens: seq<string>, a: string,
      b: string)
    requires PositiveAboveOne(ln) && Measured(docs) && a in docs && b in docs
    requires HoldsNoLess(docs[a], docs[b], tokens)
    ensures Score(ln, docs, tokens, b) <= Score(ln, docs, tokens, a)
    ensures HoldsMore(docs[a], docs[b], tokens) ==> Score(ln, docs, tokens, b) < Score(ln, docs, tokens, a)
  {
    if tokens != [] {
      var front, t := tokens[..|tokens| - 1], tokens[|tokens| - 1];
      assert tokens == front + [t];
      ScoreConcat(ln, docs, front, [t], a);
      ScoreConcat(ln, docs, front, [t], b);
      ScoreOrder(ln, docs, front, a, b);
      OneTokenOrder(ln, docs, t, a, b);
    }
  }

  /** The idf of the query tokens the text holds, repeated tokens counted each time. */
  ghost function IdfSum(ln: real -> real, docs: map<string, DocEntry>, tokens: seq<string>, id: string): real
    requires id in docs
  {
    if tokens == [] then 0.0
    else
      var n := |tokens| - 1;
      IdfSum(ln, docs, tokens[..n], id) +
      if tokens[n] in docs[id].tf then ln(IdfArgument(|docs|, DocFreq(docs, tokens[n]))) else 0.0
  }

  ghost predicate Shares(docs: map<string, DocEntry>, tokens: seq<string>, id: string)
    requires id in docs
  {
    exists i :: 0 <= i < |tokens| && tokens[i] in docs[id].tf
  }

  /** A text scores above zero exactly when it shares a token with the query,
      and then below (k1 + 1) times the idf of the shared tokens. */
  lemma {:induction false} ScoreBounds(ln: real -> real, docs: map<string, DocEntry>, tokens: seq<string>, id: string)
    requires PositiveAboveOne(ln) && Measured(docs) && id in docs
    ensures Score(ln, docs, tokens, id) >= 0.0
    ensures Score(ln, docs, tokens, id) > 0.0 <==> Shares(docs, tokens, id)
    ensures Shares(docs, tokens, id) ==> Score(ln, docs, tokens, id) < (K1 + 1.0) * IdfSum(ln, docs, tokens, id)
    ensures !Shares(docs, tokens, id) ==> IdfSum(ln, docs, tokens, id) == 0.0
  {
    if tokens != [] {
      var n := |tokens| - 1;
      var front, t := tokens[..n], tokens[n];
      ScoreBounds(ln, docs, front, id);
      assert Shares(docs, tokens, id) <==> Shares(docs, front, id) || t in docs[id].tf by {
        if Shares(docs, front, id) {
          var i :| 0 <= i < |front| && front[i] in docs[id].tf;
          assert tokens[i] in docs[id].tf;
        }
        if Shares(docs, tokens, id) && t !in docs[id].tf {
          var i :| 0 <= i < |tokens| && tokens[i] in docs[id].tf;
          assert front[i] in docs[id].tf;
        }
      }
      if t in docs[id].tf {
        DocFreqBounded(docs, t);
        HolderHasLength(docs, id, t);
        TermScoreBounds(ln, |docs|, DocFreq(docs, t), docs[id].tf[t], docs[id].length, AvgLength(docs));
        var idf := ln(IdfArgument(|docs|, DocFreq(docs, t)));
        var before := IdfSum(ln, docs, front, id);
        assert (K1 + 1.0) * (before + idf) == (K1 + 1.0) * before + (K1 + 1.0) * idf;
      }
    }
  }

  // ===== The index ==================================================================

  function TokenSet(tf: multiset<string>): set<string> {
    set t | t in tf
  }

  /** `df` counts the holders in `docs`, less the tokens of `lost`, plus those of `gained`. */
  ghost predicate CountsShifted(df: map<string, nat>, docs: map<string, DocEntry>, lost: set<string>,
      gained: set<string>) {
    forall t ::
      && (if t in df then df[t] else 0)
         == DocFreq(docs, t) - (if t in lost then 1 else 0) + (if t in gained then 1 else 0)
      && (t in df ==> df[t] > 0)
  }

  method ForgetTokens(df: map<string, nat>, ghost docs: map<string, DocEntry>, tokens: set<string>)
    returns (r: map<string, nat>)
    requires CountsHolders(df, docs)
    requires forall t :: t in tokens ==> DocFreq(docs, t) > 0
    ensures CountsShifted(r, docs, tokens, {})
  {
    r := df;
    var todo := tokens;
    while todo != {}
      invariant todo <= tokens
      invariant CountsShifted(r, docs, tokens - todo, {})
      decreases todo
    {
      var t :| t in todo;
      assert DocFreq(docs, t) > 0;
      r := if r[t] - 1 <= 0 then r - {t} else r[t := r[t] - 1];
      todo := todo - {t};
    }
  }

  method CountTokens(df: map<string, nat>, ghost docs: map<string, DocEntry>, ghost lost: set<string>,
      tokens: set<string>)
    returns (r: map<string, nat>)
    requires CountsShifted(df, docs, lost, {})
    ensures CountsShifted(r, docs, lost, tokens)
  {
    r := df;
    var todo := tokens;
    while todo != {}
      invariant todo <= tokens
      invariant CountsShifted(r, docs, lost, tokens - todo)
      decreases todo
    {
      var t :| t in todo;
      r := r[t := (if t in r then r[t] else 0) + 1];
      todo := todo - {t};
    }
  }

  /** The two loops of `add`: give back the tokens of the text replaced, count those of the new one. */
  method UpdateCounts(df: map<string, nat>, docs: map<string, DocEntry>, id: string, e: DocEntry)
    returns (r: map<string, nat>)
    requires CountsHolders(df, docs)
    ensures CountsHolders(r, docs[id := e])
  {
    r := df;
    if id in docs {
      forall t | t in docs[id].tf ensures DocFreq(docs, t) > 0 {
        assert id in Holders(docs, t);
      }
      r := ForgetTokens(df, docs, TokenSet(docs[id].tf));
    }
    r := CountTokens(r, docs, if id in docs then TokenSet(docs[id].tf) else {}, TokenSet(e.tf));
    ShiftedCounts(r, docs, id, e);
  }

  lemma EntriesPut(tokenise: string -> seq<string>, docs: map<string, DocEntry>, id: string, text: string)
    requires EntriesOf(tokenise, docs)
    ensures EntriesOf(tokenise, docs[id := EntryOf(tokenise, text)])
  {
  }

  lemma ShiftedCounts(df: map<string, nat>, docs: map<string, DocEntry>, id: string, e: DocEntry)
    requires CountsShifted(df, docs, if id in docs then TokenSet(docs[id].tf) else {}, TokenSet(e.tf))
    ensures CountsHolders(df, docs[id := e])
  {
    forall t ensures (if t in df then df[t] else 0) == DocFreq(docs[id := e], t) && (t in df ==> df[t] > 0) {
      DocFreqPut(docs, id, e, t);
    }
  }

  lemma LengthsPut(docs: map<string, DocEntry>, id: string, e: DocEntry)
    requires id !in docs
    ensures MapSum(Lengths(docs[id := e])) == MapSum(Lengths(docs)) + e.length as real
  {
    assert Lengths(docs[id := e]) == Lengths(docs)[id := e.length as real];
    MapSumPut(Lengths(docs), id, e.length as real);
  }

  ghost function Restricted(docs: map<string, DocEntry>, ids: set<string>): map<string, DocEntry> {
    map id | id in docs && id in ids :: docs[id]
  }

  lemma RestrictedStep(docs: map<string, DocEntry>, ids: set<string>, id: string)
    requires id in docs && id !in ids
    ensures MapSum(Lengths(Restricted(docs, ids + {id})))
         == MapSum(Lengths(Restricted(docs, ids))) + docs[id].length as real
  {
    assert Restricted(docs, ids + {id}) == Restricted(docs, ids)[id := docs[id]];
    LengthsPut(Restricted(docs, ids), id, docs[id]);
  }

  /** The added-up lengths of the first `i` texts. */
  ghost function LengthUpTo(docs: Dict<DocEntry>, i: nat): real
    requires i <= |docs.keys|
  {
    MapSum(Lengths(Restricted(docs.m, KeysUpTo(docs.keys, i))))
  }

  lemma LengthUpToStep(docs: Dict<DocEntry>, i: nat)
    requires docs.Valid() && i < |docs.keys|
    ensures docs.keys[i] in docs.m
    ensures LengthUpTo(docs, i + 1) == LengthUpTo(docs, i) + docs.m[docs.keys[i]].length as real
  {
    KeysStep(docs.keys, i);
    assert docs.keys[i] in docs.keys;
    RestrictedStep(docs.m, KeysUpTo(docs.keys, i), docs.keys[i]);
  }

  lemma LengthUpToEnds(docs: Dict<DocEntry>)
    requires docs.Valid()
    ensures LengthUpTo(docs, 0) == 0.0
    ensures LengthUpTo(docs, |docs.keys|) == MapSum(Lengths(docs.m))
  {
    assert Lengths(Restricted(docs.m, KeysUpTo(docs.keys, 0))) == map[];
    AllKeys(docs);
    assert Restricted(docs.m, docs.m.Keys) == docs.m;
  }

  /** `sum(d.length for d in docs.values())` */
  method TotalLength(docs: Dict<DocEntry>) returns (total: nat)
    requires docs.Valid()
    ensures total as real == MapSum(Lengths(docs.m))
  {
    total := 0;
    LengthUpToEnds(docs);
    for i := 0 to |docs.keys|
      invariant total as real == LengthUpTo(docs, i)
    {
      LengthUpToStep(docs, i);
      total := total + docs.m[docs.keys[i]].length;
    }
  }

  /** `scores` lists those entries of `all` whose id is in `ids`. */
  ghost predicate Collected(found: Dict<real>, scores: seq<Ranked>, all: map<string, real>, ids: set<string>) {
    && found.Valid()
    && found.m.Keys == all.Keys * ids
    && (forall k :: k in found.m ==> found.m[k] == all[k])
    && scores == Items(found)
  }

  lemma CollectStep(found: Dict<real>, scores: seq<Ranked>, all: map<string, real>, ids: set<string>, k: string)
    requires Collected(found, scores, all, ids) && k !in ids
    ensures k in all ==> Collected(found.Put(k, all[k]), scores + [Ranked(k, all[k])], all, ids + {k})
    ensures k !in all ==> Collected(found, scores, all, ids + {k})
  {
    if k in all {
      ItemsPut(found, k, all[k]);
      assert found.m.Keys + {k} == all.Keys * (ids + {k});
    } else {
      assert all.Keys * (ids + {k}) == all.Keys * ids;
    }
  }

  lemma EligibleAt(ln: real -> real, docs: map<string, DocEntry>, tokens: seq<string>, k: string)
    requires Measured(docs) && k in docs
    ensures k in Eligible(ln, docs, tokens) <==> Score(ln, docs, tokens, k) > 0.0
    ensures k in Eligible(ln, docs, tokens) ==> Eligible(ln, docs, tokens)[k] == Score(ln, docs, tokens, k)
    ensures Eligible(ln, docs, tokens).Keys <= docs.Keys
  {
  }

  /** One turn of the loop over the texts: the score decides whether text `i` is collected. */
  lemma CollectTurn(ln: real -> real, docs: Dict<DocEntry>, tokens: seq<string>, found: Dict<real>,
      scores: seq<Ranked>, i: nat)
    requires docs.Valid() && Measured(docs.m) && i < |docs.keys| && docs.keys[i] in docs.m
    requires Collected(found, scores, Eligible(ln, docs.m, tokens), KeysUpTo(docs.keys, i))
    ensures
      var k, all := docs.keys[i], Eligible(ln, docs.m, tokens);
      var score := Score(ln, docs.m, tokens, k);
      if score > 0.0 then
        Collected(found.Put(k, score), scores + [Ranked(k, score)], all, KeysUpTo(docs.keys, i + 1))
      else Collected(found, scores, all, KeysUpTo(docs.keys, i + 1))
  {
    KeysStep(docs.keys, i);
    EligibleAt(ln, docs.m, tokens, docs.keys[i]);
    CollectStep(found, scores, Eligible(ln, docs.m, tokens), KeysUpTo(docs.keys, i), docs.keys[i]);
  }

  lemma CollectedAll(ln: real -> real, docs: Dict<DocEntry>, tokens: seq<string>, found: Dict<real>,
      scores: seq<Ranked>)
    requires docs.Valid() && Measured(docs.m)
    requires Collected(found, scores, Eligible(ln, docs.m, tokens), KeysUpTo(docs.keys, |docs.keys|))
    ensures found.m == Eligible(ln, docs.m, tokens)
  {
    var all := Eligible(ln, docs.m, tokens);
    AllKeys(docs);
    assert all.Keys * docs.m.Keys == all.Keys;
  }

  lemma NothingEligible(ln: real -> real, docs: Dict<DocEntry>, tokens: seq<string>)
    requires docs.Valid() && Measured(docs.m)
    requires tokens == [] || docs.keys == []
    ensures Eligible(ln, docs.m, tokens) == map[]
  {
    forall k ensures k !in Eligible(ln, docs.m, tokens) {
      if tokens != [] {
        assert k !in docs.keys;
        assert k !in docs.m;
      }
    }
  }

  class BM25Index {
    const tokenise: string -> seq<string>
    const ln: real -> real
    var docs: Dict<DocEntry>
    var df: map<string, nat>
    var avgDl: real

    /** The counters are those of an index rebuilt from the stored texts. */
    ghost predicate Valid()
      reads this
    {
      && docs.Valid()
      && EntriesOf(tokenise, docs.m)
      && CountsHolders(df, docs.m)
      && avgDl == AvgLength(docs.m)
    }

    ghost function Texts(): map<string, string>
      reads this
    {
      TextsOf(docs.m)
    }

    constructor (tokenise: string -> seq<string>, ln: real -> real)
      ensures Valid() && Texts() == map[] && docs.keys == []
      ensures this.tokenise == tokenise && this.ln == ln
    {
      this.tokenise := tokenise;
      this.ln := ln;
      docs := Dict([], map[]);
      df := map[];
      avgDl := 0.0;
    }

    method Add(id: string, text: string)
      requires Valid()
      modifies this
      ensures Valid()
      ensures Texts() == old(Texts())[id := text]
      ensures docs.keys == if id in old(docs.m) then old(docs.keys) else old(docs.keys) + [id]
    {
      var entry := EntryOf(tokenise, text);
      df := UpdateCounts(df, docs.m, id, entry);
      TextsPut(docs.m, id, entry);
      EntriesPut(tokenise, docs.m, id, text);
      docs := docs.Put(id, entry);
      RecomputeAvg();
    }

    method RecomputeAvg()
      requires docs.Valid()
      modifies this`avgDl
      ensures avgDl == AvgLength(docs.m)
    {
      KeyCount(docs);
      if docs.keys != [] {
        var total := TotalLength(docs);
        avgDl := total as real / |docs.keys| as real;
      } else {
        avgDl := 0.0;
      }
    }

    method Search(query: string, topK: nat) returns (r: seq<Ranked>)
      requires Valid() && PositiveAboveOne(ln)
      ensures r == SearchSpec(tokenise, ln, Texts(), query, topK)
    {
      var tokens := tokenise(query);
      RebuiltIs(tokenise, docs.m);
      if tokens == [] || docs.keys == [] {
        NothingEligible(ln, docs, tokens);
        EmptyRanking();
        return [];
      }
      ghost var all := Eligible(ln, docs.m, tokens);
      var scores, found := ScoreAll(tokens);
      SortedItemsRank(found);
      RankingUnique(all, SortBy(RankBefore, scores), RankingOf(all));
      r := Take(SortBy(RankBefore, scores), topK);
    }

    /** The outer loop of `search`: the texts that score above zero, in insertion order. */
    method ScoreAll(tokens: seq<string>) returns (scores: seq<Ranked>, ghost found: Dict<real>)
      requires Valid() && PositiveAboveOne(ln)
      ensures found.Valid() && found.m == Eligible(ln, docs.m, tokens)
      ensures scores == Items(found)
    {
      ghost var all := Eligible(ln, docs.m, tokens);
      KeyCount(docs);
      scores, found := [], Dict([], map[]);
      for i := 0 to |docs.keys|
        invariant Collected(found, scores, all, KeysUpTo(docs.keys, i))
      {
        var k := docs.keys[i];
        assert k in docs.m;
        var score := ScoreDoc(tokens, k, |docs.keys|);
        CollectTurn(ln, docs, tokens, found, scores, i);
        if score > 0.0 {
          scores, found := scores + [Ranked(k, score)], found.Put(k, score);
        }
      }
      CollectedAll(ln, docs, tokens, found, scores);
    }

    /** The inner loop of `search`: the score of one stored text. */
    method ScoreDoc(tokens: seq<string>, id: string, n: nat) returns (score: real)
      requires Valid() && id in docs.m && n == |docs.m|
      ensures score == Score(ln, docs.m, tokens, id)
    {
      var doc := docs.m[id];
      score := 0.0;
      for j := 0 to |tokens|
        invariant score == Score(ln, docs.m, tokens[..j], id)
      {
        var t := tokens[j];
        assert tokens[..j + 1][..j] == tokens[..j];
        if t in doc.tf {
          HolderHasLength(docs.m, id, t);
          var df := if t in df then df[t] else 0;
          score := score + TermScore(ln, n, df, doc.tf[t], doc.length, avgDl);
        }
      }
      assert tokens[..|tokens|] == tokens;
    }

    method DocCount() returns (n: nat)
      requires Valid()
      ensures n == |Texts()|
    {
      n := |docs.keys|;
      KeyCount(docs);
      assert Texts().Keys == docs.m.Keys;
    }
  }

  lemma KeyCount<V>(d: Dict<V>)
    requires d.Valid()
    ensures |d.keys| == |d.m|
  {
    DistinctMultiset(d.keys);
    assert (set k | k in d.keys) == d.m.Keys;
    assert |d.keys| == |multiset(d.keys)| == |multiset(d.m.Keys)| == |d.m.Keys|;
  }

  // ===== What every search promises ===================================================

  /** Exactly the texts that share a token with the query are eligible, each with a positive
      score below (k1 + 1) times the idf of the shared tokens. */
  lemma EligibleExactly(ln: real -> real, docs: map<string, DocEntry>, tokens: seq<string>, id: string)
    requires PositiveAboveOne(ln) && Measured(docs)
    ensures id in Eligible(ln, docs, tokens) <==> id in docs && Shares(docs, tokens, id)
    ensures id in Eligible(ln, docs, tokens) ==>
      0.0 < Eligible(ln, docs, tokens)[id] < (K1 + 1.0) * IdfSum(ln, docs, tokens, id)
  {
    if id in docs { ScoreBounds(ln, docs, tokens, id); }
  }

  /** The first `topK` of a ranking: each entry is scored right, better ones come first, and
      whatever is left out comes after all of them. */
  ghost predicate BestOf(scores: map<string, real>, topK: nat, r: seq<Ranked>) {
    && StrictlySorted(RankBefore, r)
    && |r| == (if |scores| < topK then |scores| else topK)
    && (forall i :: 0 <= i < |r| ==> r[i].id in scores && r[i].score == scores[r[i].id])
    && (forall i, id :: 0 <= i < |r| && id in scores && (forall j :: 0 <= j < |r| ==> r[j].id != id) ==>
          RankBefore(r[i], Ranked(id, scores[id])))
  }

  lemma TakeIsBest(scores: map<string, real>, topK: nat)
    ensures BestOf(scores, topK, Take(RankingOf(scores), topK))
  {
    var ranking := RankingOf(scores);
    var r := Take(ranking, topK);
    RankingDistinct(scores, ranking);
    forall i, id | 0 <= i < |r| && id in scores && (forall j :: 0 <= j < |r| ==> r[j].id != id)
      ensures RankBefore(r[i], Ranked(id, scores[id]))
    {
      var p :| 0 <= p < |ranking| && ranking[p].id == id;
      assert ranking[p] == Ranked(id, scores[id]);
      assert forall j :: 0 <= j < |r| ==> r[j] == ranking[j];
      assert p >= |r|;
    }
  }

  /** A search returns the best `topK` of the texts that share a token with the query. */
  lemma SearchMeaning(tokenise: string -> seq<string>, ln: real -> real, texts: map<string, string>,
                      query: string, topK: nat)
    requires PositiveAboveOne(ln)
    ensures
      var docs, tokens := Rebuilt(tokenise, texts), tokenise(query);
      var all := Eligible(ln, docs, tokens);
      && (forall id :: id in all <==> id in texts && Shares(docs, tokens, id))
      && BestOf(all, topK, SearchSpec(tokenise, ln, texts, query, topK))
  {
    var docs, tokens := Rebuilt(tokenise, texts), tokenise(query);
    forall id ensures id in Eligible(ln, docs, tokens) <==> id in texts && Shares(docs, tokens, id) {
      EligibleExactly(ln, docs, tokens, id);
    }
    TakeIsBest(Eligible(ln, docs, tokens), topK);
  }

  /** Of two texts the one that is no longer, holds every query token at least as often and one of them more often
      comes strictly earlier; and so does the shorter of two that hold the query tokens equally often. */
  lemma BetterTextFirst(tokenise: string -> seq<string>, ln: real -> real, texts: map<string, string>, query: string,
      topK: nat, a: string, b: string, j: nat)
    requires PositiveAboveOne(ln) && a in texts && b in texts
    requires
      var ta, tb, tokens := tokenise(texts[a]), tokenise(texts[b]), tokenise(query);
      && |ta| <= |tb| && (forall t :: t in tokens ==> multiset(tb)[t] <= multiset(ta)[t])
      && exists t :: t in tokens && (multiset(tb)[t] < multiset(ta)[t] || (|ta| < |tb| && t in ta))
    requires
      var r := SearchSpec(tokenise, ln, texts, query, topK);
      j < |r| && r[j].id == b
    ensures
      var r := SearchSpec(tokenise, ln, texts, query, topK);
      exists i :: 0 <= i < j && r[i].id == a
  {
    var docs, tokens := Rebuilt(tokenise, texts), tokenise(query);
    var all := Eligible(ln, docs, tokens);
    assert docs[a] == EntryOf(tokenise, texts[a]) && docs[b] == EntryOf(tokenise, texts[b]);
    var t :| t in tokens && (docs[b].tf[t] < docs[a].tf[t] || (docs[a].length < docs[b].length && t in docs[a].tf));
    ScoreOrder(ln, docs, tokens, a, b);
    ScoreBounds(ln, docs, tokens, b);
    HigherScoreFirst(all, RankingOf(all), a, b);
    EarlierOfRanking(all, topK, a, b, j);
  }

  lemma EarlierOfRanking(scores: map<string, real>, topK: nat, a: string, b: string, j: nat)
    requires ComesBefore(RankingOf(scores), a, b)
    requires j < |Take(RankingOf(scores), topK)| && Take(RankingOf(scores), topK)[j].id == b
    ensures exists i :: 0 <= i < j && Take(RankingOf(scores), topK)[i].id == a
  {
    var r := RankingOf(scores);
    RankingDistinct(scores, r);
    var p, q :| 0 <= p < q < |r| && r[p].id == a && r[q].id == b;
    assert r[j] == Take(r, topK)[j];
    assert q == j;
    assert Take(r, topK)[p] == r[p];
  }

  /** The counters carry no trace of how the index was filled: two indices that hold the same
      texts hold the same entries, document frequencies and average length. */
  lemma CountersDetermined(a: BM25Index, b: BM25Index)
    requires a.Valid() && b.Valid()
    requires a.tokenise == b.tokenise && a.Texts() == b.Texts()
    ensures a.docs.m == b.docs.m && a.df == b.df && a.avgDl == b.avgDl
  {
    RebuiltIs(a.tokenise, a.docs.m);
    RebuiltIs(b.tokenise, b.docs.m);
    CountsUnique(a.df, b.df, a.docs.m);
  }

  lemma CountsUnique(a: map<string, nat>, b: map<string, nat>, docs: map<string, DocEntry>)
    requires CountsHolders(a, docs) && CountsHolders(b, docs)
    ensures a == b
  {
    forall t ensures t in a <==> t in b {
      assert (if t in a then a[t] else 0) == DocFreq(docs, t) == (if t in b then b[t] else 0);
    }
    forall t | t in a ensures a[t] == b[t] {
      assert (if t in a then a[t] else 0) == DocFreq(docs, t) == (if t in b then b[t] else 0);
    }
  }
}
