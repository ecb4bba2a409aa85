// Structure-aware chunking (rag/chunker.py): a document is cut at its
// markdown headings, and every long section into overlapping runs of words.

module Chunker {
  import opened Prelude
  import opened Text

  datatype SourceDoc = SourceDoc(docId: string, title: string, text: string, metadata: map<string, string>)

  datatype Chunk = Chunk(clauseId: string, docId: string, title: string, text: string, metadata: map<string, string>)

  function Min(a: int, b: int): int {
    if a < b then a else b
  }

  // ===== _split_by_tokens ==========================================================

  /** The loop of the splitter leaves the text whole or moves forward at every turn. */
  predicate SplitEnds(n: nat, max: nat, overlap: int) {
    n <= max || overlap < max
  }

  /** `start` after one more turn of the loop, over `n` words. */
  function Advance(n: nat, max: nat, overlap: int, start: int): int {
    var end := Min(start + max, n);
    if end < n then end - overlap else end
  }

  /** The runs of words cut from `start` on. */
  function Parts(words: seq<string>, start: nat, max: nat, overlap: int): seq<seq<string>>
    requires overlap < max
    decreases |words| - start
  {
    if start >= |words| then []
    else
      [words[start..Min(start + max, |words|)]] + Parts(words, Advance(|words|, max, overlap, start), max, overlap)
  }

  function JoinAll(parts: seq<seq<string>>): (r: seq<string>)
    ensures |r| == |parts|
    ensures forall i :: 0 <= i < |parts| ==> r[i] == Join(parts[i])
  {
    if parts == [] then [] else [Join(parts[0])] + JoinAll(parts[1..])
  }

  function SplitByTokens(text: string, max: nat, overlap: int): seq<string>
    requires SplitEnds(|Words(text)|, max, overlap)
  {
    if |Words(text)| <= max then [text] else JoinAll(Parts(Words(text), 0, max, overlap))
  }

  lemma SplitStep(words: seq<string>, start: nat, max: nat, overlap: int, done: seq<string>)
    requires overlap < max && start < |words|
    ensures
      done + JoinAll(Parts(words, start, max, overlap))
      == (done + [Join(words[start..Min(start + max, |words|)])])
         + JoinAll(Parts(words, Advance(|words|, max, overlap, start), max, overlap))
  {
    var part := words[start..Min(start + max, |words|)];
    var tail := Parts(words, Advance(|words|, max, overlap, start), max, overlap);
    assert ([part] + tail)[1..] == tail;
    ConcatAssoc(done, [Join(part)], JoinAll(tail));
  }

  method Split(text: string, max: nat, overlap: int) returns (parts: seq<string>)
    requires SplitEnds(|Words(text)|, max, overlap)
    ensures parts == SplitByTokens(text, max, overlap)
  {
    var words := Words(text);
    if |words| <= max {
      return [text];
    }
    parts := CutWords(words, max, overlap);
  }

  method CutWords(words: seq<string>, max: nat, overlap: int) returns (parts: seq<string>)
    requires overlap < max
    ensures parts == JoinAll(Parts(words, 0, max, overlap))
  {
    parts := [];
    var start := 0;
    while start < |words|
      invariant 0 <= start
      invariant parts + JoinAll(Parts(words, start, max, overlap)) == JoinAll(Parts(words, 0, max, overlap))
      decreases |words| - start
    {
      SplitStep(words, start, max, overlap, parts);
      parts := parts + [Join(words[start..Min(start + max, |words|)])];
      start := Advance(|words|, max, overlap, start);
    }
  }

  // ----- When the loop ends -----------------------------------------------------------

  /** The value of `start` after `j` turns of the loop, for any overlap at all. */
  function StartAt(n: nat, max: nat, overlap: int, j: nat): int {
    if j == 0 then 0
    else
      var start := StartAt(n, max, overlap, j - 1);
      if start >= n then start else Advance(n, max, overlap, start)
  }

  ghost predicate LoopEnds(n: nat, max: nat, overlap: int) {
    exists j: nat :: StartAt(n, max, overlap, j) >= n
  }

  lemma {:induction false} StuckStart(n: nat, max: nat, overlap: int, j: nat)
    requires max < n && max <= overlap
    ensures StartAt(n, max, overlap, j) <= 0
  {
    if j > 0 { StuckStart(n, max, overlap, j - 1); }
  }

  lemma {:induction false} StartGrows(n: nat, max: nat, overlap: int, j: nat)
    requires overlap < max
    ensures StartAt(n, max, overlap, j) >= Min(j, n)
  {
    if j > 0 { StartGrows(n, max, overlap, j - 1); }
  }

  /** On a text longer than `max` the loop ends exactly when the overlap is below `max`. */
  lemma SplitEndsExactly(n: nat, max: nat, overlap: int)
    requires max < n
    ensures LoopEnds(n, max, overlap) <==> overlap < max
  {
    if overlap < max {
      StartGrows(n, max, overlap, n);
    } else {
      forall j: nat ensures StartAt(n, max, overlap, j) < n {
        StuckStart(n, max, overlap, j);
      }
    }
  }

  // ----- What each part holds -----------------------------------------------------------

  /** Parts cut from `StartAt(j)` are the parts from the front without the first `j`. */
  lemma {:induction false} PartsSuffix(words: seq<string>, max: nat, overlap: int, j: nat)
    requires overlap < max
    requires j <= |Parts(words, 0, max, overlap)|
    ensures StartAt(|words|, max, overlap, j) >= 0
    ensures Parts(words, StartAt(|words|, max, overlap, j), max, overlap) == Parts(words, 0, max, overlap)[j..]
  {
    if j > 0 {
      PartsSuffix(words, max, overlap, j - 1);
      var s := StartAt(|words|, max, overlap, j - 1);
      assert Parts(words, s, max, overlap) != [];
    }
  }

  /** Part `j` is the run of at most `max` words that begins where turn `j` begins. */
  lemma PartAt(words: seq<string>, max: nat, overlap: int, j: nat)
    requires overlap < max
    requires j < |Parts(words, 0, max, overlap)|
    ensures
      var s := StartAt(|words|, max, overlap, j);
      0 <= s < |words| && Parts(words, 0, max, overlap)[j] == words[s..Min(s + max, |words|)]
  {
    PartsSuffix(words, max, overlap, j);
    var s := StartAt(|words|, max, overlap, j);
    assert Parts(words, s, max, overlap)[0] == Parts(words, 0, max, overlap)[j];
  }

  function CeilDiv(x: int, d: nat): nat
    requires d > 0
  {
    if x <= 0 then 0 else (x + d - 1) / d
  }

  lemma DivStep(y: nat, d: nat)
    requires d > 0
    ensures (y + d) / d == y / d + 1
  {
    var q, r := y / d, y % d;
    assert y + d == (q + 1) * d + r;
    DivUnique(y + d, d, q + 1, r);
  }

  lemma DivUnique(y: nat, d: nat, q: nat, r: nat)
    requires d > 0 && y == q * d + r && r < d
    ensures y / d == q
  {
    QuotientUnique(d, q, r, y / d, y % d);
  }

  lemma QuotientUnique(d: nat, q: nat, r: nat, q': nat, r': nat)
    requires q * d + r == q' * d + r' && r < d && r' < d
    ensures q == q'
  {
    assert (q - q') * d == q * d - q' * d;
    if q > q' {
      MultipleAtLeast(q - q', d);
    } else if q < q' {
      MultipleAtLeast(q' - q, d);
    }
  }

  lemma MultipleAtLeast(k: nat, d: nat)
    requires k > 0
    ensures k * d >= d
  {
    assert k * d == (k - 1) * d + d;
  }

  lemma CeilDivStep(x: int, d: nat)
    requires d > 0 && x > 0
    ensures CeilDiv(x, d) == 1 + CeilDiv(x - d, d)
  {
    if x - d > 0 {
      DivStep(x - 1, d);
      assert x - d + d - 1 == x - 1;
      assert (x - 1 + d) / d == (x - 1) / d + 1;
    } else {
      DivUnique(x + d - 1, d, 1, x - 1);
    }
  }

  function TotalWords(parts: seq<seq<string>>): nat {
    if parts == [] then 0 else |parts[0]| + TotalWords(parts[1..])
  }

  lemma LastPart(words: seq<string>, start: nat, max: nat, overlap: int)
    requires overlap < max && start < |words| <= start + max
    ensures Parts(words, start, max, overlap) == [words[start..]]
  {
    assert Parts(words, |words|, max, overlap) == [];
    assert words[start..|words|] == words[start..];
  }

  lemma FirstPart(words: seq<string>, start: nat, max: nat, overlap: int)
    requires overlap < max && start + max < |words|
    ensures
      var p, q := Parts(words, start, max, overlap), Parts(words, start + max - overlap, max, overlap);
      p == [words[start..start + max]] + q && p[0] == words[start..start + max] && p[1..] == q
  {
  }

  /** One part is cut off: `max` words in it, of which the next one repeats `overlap`. */
  lemma PartsCount(words: seq<string>, start: nat, max: nat, overlap: nat)
    requires overlap < max && start + max < |words|
    ensures |Parts(words, start, max, overlap)| == 1 + |Parts(words, start + max - overlap, max, overlap)|
    ensures TotalWords(Parts(words, start, max, overlap))
         == max + TotalWords(Parts(words, start + max - overlap, max, overlap))
  {
    FirstPart(words, start, max, overlap);
  }

  lemma LastPartCount(words: seq<string>, start: nat, max: nat, overlap: nat)
    requires overlap < max && start < |words| <= start + max
    ensures |Parts(words, start, max, overlap)| == 1
    ensures TotalWords(Parts(words, start, max, overlap)) == |words| - start
  {
    LastPart(words, start, max, overlap);
    assert [words[start..]][1..] == [];
  }

  /** `n` words make 1 + ceil((n - max) / (max - overlap)) parts with n + overlap * (parts - 1) words. */
  ghost predicate CutFrom(p: seq<seq<string>>, n: nat, max: nat, overlap: nat)
    requires overlap < max
  {
    && |p| == 1 + CeilDiv(n - max, max - overlap)
    && TotalWords(p) == n + overlap * (|p| - 1)
  }

  lemma CutFromMore(p: seq<seq<string>>, q: seq<seq<string>>, n: nat, max: nat, overlap: nat)
    requires overlap < max < n && CutFrom(q, n - max + overlap, max, overlap)
    requires |p| == 1 + |q| && TotalWords(p) == max + TotalWords(q)
    ensures CutFrom(p, n, max, overlap)
  {
    var d := max - overlap;
    CeilDivStep(n - max, d);
    assert n - max - d == n - max + overlap - max;
    OnceMore(overlap, |q|);
  }

  lemma OnceMore(x: int, k: int)
    ensures x * (k - 1) + x == x * k
  {
  }

  lemma {:induction false} PartsArithmetic(words: seq<string>, start: nat, max: nat, overlap: nat)
    requires overlap < max && start < |words|
    ensures CutFrom(Parts(words, start, max, overlap), |words| - start, max, overlap)
    decreases |words| - start
  {
    if start + max < |words| {
      var next := start + max - overlap;
      PartsCount(words, start, max, overlap);
      PartsArithmetic(words, next, max, overlap);
      var p, q := Parts(words, start, max, overlap), Parts(words, next, max, overlap);
      CutFromMore(p, q, |words| - start, max, overlap);
    } else {
      LastPartCount(words, start, max, overlap);
    }
  }

  lemma {:induction false} PartSizes(words: seq<string>, start: nat, max: nat, overlap: nat)
    requires overlap < max && start + overlap < |words|
    ensures
      var p := Parts(words, start, max, overlap);
      forall j :: 0 <= j < |p| ==> overlap < |p[j]| <= max
    decreases |words| - start
  {
    if start + max < |words| {
      FirstPart(words, start, max, overlap);
      PartSizes(words, start + max - overlap, max, overlap);
    } else {
      LastPart(words, start, max, overlap);
    }
  }

  /** A long text is cut into 1 + ceil((n - max) / (max - overlap)) parts of at most `max`
      words, each with words the one before lacks, and n + overlap * (parts - 1) words in all. */
  lemma SplitArithmetic(words: seq<string>, max: nat, overlap: nat)
    requires overlap < max < |words|
    ensures
      var p := Parts(words, 0, max, overlap);
      && |p| == 1 + CeilDiv(|words| - max, max - overlap)
      && TotalWords(p) == |words| + overlap * (|p| - 1)
      && forall j :: 0 <= j < |p| ==> overlap < |p[j]| <= max
  {
    PartsArithmetic(words, 0, max, overlap);
    PartSizes(words, 0, max, overlap);
  }

  // ----- No word lost ---------------------------------------------------------------------

  /** All parts end to end, without the first `overlap` words of each. */
  function DropConcat(parts: seq<seq<string>>, overlap: nat): seq<string> {
    if parts == [] then []
    else (if overlap <= |parts[0]| then parts[0][overlap..] else []) + DropConcat(parts[1..], overlap)
  }

  /** The first part, then every later part without the words it repeats. */
  function Stitch(parts: seq<seq<string>>, overlap: nat): seq<string> {
    if parts == [] then [] else parts[0] + DropConcat(parts[1..], overlap)
  }

  lemma CutTwice<T>(s: seq<T>, a: nat, n: nat, b: nat)
    requires a + n <= b <= |s|
    ensures s[a..b][n..] == s[a + n..b] && s[a + n..] == s[a + n..b] + s[b..]
  {
  }

  lemma DropFirst(first: seq<string>, rest: seq<seq<string>>, overlap: nat)
    requires overlap <= |first|
    ensures DropConcat([first] + rest, overlap) == first[overlap..] + DropConcat(rest, overlap)
  {
    assert ([first] + rest)[1..] == rest;
  }

  lemma DropStep(words: seq<string>, start: nat, max: nat, overlap: nat, from: nat)
    requires overlap < max && from == start + overlap && start + max < |words|
    requires DropConcat(Parts(words, start + max - overlap, max, overlap), overlap) == words[start + max..]
    ensures DropConcat(Parts(words, start, max, overlap), overlap) == words[from..]
  {
    FirstPart(words, start, max, overlap);
    DropFirst(words[start..start + max], Parts(words, start + max - overlap, max, overlap), overlap);
    CutTwice(words, start, overlap, start + max);
  }

  lemma DropEnd(words: seq<string>, start: nat, max: nat, overlap: nat, from: nat)
    requires overlap < max && start < |words| <= start + max && from == start + overlap <= |words|
    ensures DropConcat(Parts(words, start, max, overlap), overlap) == words[from..]
  {
    LastPart(words, start, max, overlap);
    DropLast(words[start..], overlap);
    assert words[start..][overlap..] == words[from..];
  }

  /** Later parts without the words they repeat are the words from `from` on. */
  lemma {:induction false} DropConcatParts(words: seq<string>, start: nat, max: nat, overlap: nat, from: nat)
    requires overlap < max && from == start + overlap <= |words|
    ensures DropConcat(Parts(words, start, max, overlap), overlap) == words[from..]
    decreases |words| - start
  {
    if start + max < |words| {
      DropConcatParts(words, start + max - overlap, max, overlap, start + max);
      DropStep(words, start, max, overlap, from);
    } else if start < |words| {
      DropEnd(words, start, max, overlap, from);
    } else {
      assert words[from..] == [];
    }
  }

  lemma DropLast(part: seq<string>, overlap: nat)
    requires overlap <= |part|
    ensures DropConcat([part], overlap) == part[overlap..]
  {
    assert [part][1..] == [] && part[overlap..] + [] == part[overlap..];
  }

  lemma WholeCut<T>(s: seq<T>, n: nat)
    requires n <= |s|
    ensures s[0..n] + s[n..] == s
  {
  }

  lemma StitchParts(words: seq<string>, max: nat, overlap: nat)
    requires overlap < max < |words|
    ensures Stitch(Parts(words, 0, max, overlap), overlap) == words
  {
    FirstPart(words, 0, max, overlap);
    DropConcatParts(words, max - overlap, max, overlap, max);
    WholeCut(words, max);
  }

  function WordsOfEach(texts: seq<string>): (r: seq<seq<string>>)
    ensures |r| == |texts|
    ensures forall i :: 0 <= i < |texts| ==> r[i] == Words(texts[i])
  {
    if texts == [] then [] else [Words(texts[0])] + WordsOfEach(texts[1..])
  }

  lemma {:induction false} PartsAllWords(words: seq<string>, start: nat, max: nat, overlap: int)
    requires overlap < max && AllWords(words)
    ensures forall j :: 0 <= j < |Parts(words, start, max, overlap)| ==> AllWords(Parts(words, start, max, overlap)[j])
    decreases |words| - start
  {
    if start < |words| {
      PartsAllWords(words, Advance(|words|, max, overlap, start), max, overlap);
    }
  }

  /** The words of the sub-texts, stitched at the overlap, are the words of the text. */
  lemma SplitKeepsWords(text: string, max: nat, overlap: nat)
    requires SplitEnds(|Words(text)|, max, overlap)
    ensures SplitByTokens(text, max, overlap) != []
    ensures Stitch(WordsOfEach(SplitByTokens(text, max, overlap)), overlap) == Words(text)
  {
    var words := Words(text);
    var texts := SplitByTokens(text, max, overlap);
    if |words| <= max {
      assert WordsOfEach(texts) == [words];
    } else {
      var p := Parts(words, 0, max, overlap);
      WordsAreWords(text);
      PartsAllWords(words, 0, max, overlap);
      forall i | 0 <= i < |p| ensures WordsOfEach(texts)[i] == p[i] {
        WordsOfJoin(p[i]);
      }
      assert WordsOfEach(texts) == p;
      StitchParts(words, max, overlap);
    }
  }

  /** Word `i` lies in the run of words some turn of the loop cuts. */
  ghost predicate Covered(n: nat, max: nat, overlap: int, i: nat) {
    exists j: nat :: StartAt(n, max, overlap, j) <= i < StartAt(n, max, overlap, j) + max
  }

  lemma {:induction false} CoveredUpTo(n: nat, max: nat, overlap: nat, j: nat, i: nat)
    requires overlap < max && i < n
    requires i < StartAt(n, max, overlap, j) + max
    ensures Covered(n, max, overlap, i)
  {
    var s := StartAt(n, max, overlap, j);
    if s > i {
      CoveredUpTo(n, max, overlap, j - 1, i);
    }
  }

  lemma {:induction false} SkippingStart(n: nat, max: nat, overlap: int, j: nat)
    requires max < n && overlap < 0 && 0 < j
    ensures StartAt(n, max, overlap, j) > max
  {
    if j > 1 {
      SkippingStart(n, max, overlap, j - 1);
    } else {
      assert StartAt(n, max, overlap, 0) == 0;
    }
  }

  /** A loop that ends reaches every word of a long text exactly when the overlap is not negative. */
  lemma CoverageExact(n: nat, max: nat, overlap: int)
    requires overlap < max < n
    ensures (forall i: nat | i < n :: Covered(n, max, overlap, i)) <==> 0 <= overlap
  {
    if 0 <= overlap {
      forall i: nat | i < n ensures Covered(n, max, overlap, i) {
        StartGrows(n, max, overlap, n);
        CoveredUpTo(n, max, overlap, n, i);
      }
    } else {
      forall j: nat ensures !(StartAt(n, max, overlap, j) <= max < StartAt(n, max, overlap, j) + max) {
        if j > 0 { SkippingStart(n, max, overlap, j); }
      }
      assert !Covered(n, max, overlap, max);
    }
  }

  // ===== _HEADING_RE =================================================================

  /** One match of `^(#{1,4})\s+(.+)`: marks, white space, heading text. */
  datatype Heading = Heading(start: nat, markEnd: nat, headStart: nat, end: nat)

  predicate IsHeading(text: string, h: Heading) {
    && h.start < h.markEnd <= h.start + 4
    && h.markEnd < h.headStart < h.end <= |text|
    && (h.start == 0 || text[h.start - 1] == '\n')
    && (h.end == |text| || text[h.end] == '\n')
    && (forall i :: h.start <= i < h.markEnd ==> text[i] == '#')
    && (forall i :: h.markEnd <= i < h.headStart ==> IsSpace(text[i]))
    && (forall i :: h.headStart <= i < h.end ==> text[i] != '\n')
  }

  function MarkEnd(text: string, pos: nat): (e: nat)
    requires pos <= |text|
    ensures pos <= e <= |text|
    ensures forall i :: pos <= i < e ==> text[i] == '#'
    decreases |text| - pos
  {
    if pos < |text| && text[pos] == '#' then MarkEnd(text, pos + 1) else pos
  }

  function SpaceEnd(text: string, pos: nat): (e: nat)
    requires pos <= |text|
    ensures pos <= e <= |text|
    ensures forall i :: pos <= i < e ==> IsSpace(text[i])
    ensures e < |text| ==> !IsSpace(text[e])
    decreases |text| - pos
  {
    if pos < |text| && IsSpace(text[pos]) then SpaceEnd(text, pos + 1) else pos
  }

  function LineEnd(text: string, pos: nat): (e: nat)
    requires pos <= |text|
    ensures pos <= e <= |text|
    ensures forall i :: pos <= i < e ==> text[i] != '\n'
    ensures e < |text| ==> text[e] == '\n'
    decreases |text| - pos
  {
    if pos < |text| && text[pos] != '\n' then LineEnd(text, pos + 1) else pos
  }

  /** The last place in `lo..hi` that does not hold a newline. */
  function LastInLine(text: string, lo: nat, hi: nat): (p: Option<nat>)
    requires hi <= |text|
    ensures p.Some? ==> lo <= p.value < hi && text[p.value] != '\n'
    ensures p.Some? ==> forall i :: p.value < i < hi ==> text[i] == '\n'
    ensures p.None? ==> forall i :: lo <= i < hi ==> text[i] == '\n'
  {
    if hi <= lo then None
    else if text[hi - 1] != '\n' then Some(hi - 1)
    else LastInLine(text, lo, hi - 1)
  }

  /** The match that begins at `pos`. When only white space is left, the greedy `\s+`
      gives back its tail until `.` can match. */
  function HeadingAt(text: string, pos: nat): (h: Option<Heading>)
    requires pos < |text|
    ensures h.Some? ==> IsHeading(text, h.value) && h.value.start == pos
  {
    var markEnd := MarkEnd(text, pos);
    if pos > 0 && text[pos - 1] != '\n' then None
    else if markEnd == pos || markEnd > pos + 4 || markEnd == |text| || !IsSpace(text[markEnd]) then None
    else
      var headStart := SpaceEnd(text, markEnd);
      if headStart < |text| then
        var end := LineEnd(text, headStart);
        assert text[headStart] != '\n';
        Some(Heading(pos, markEnd, headStart, end))
      else
        match LastInLine(text, markEnd + 1, |text|)
        case None => None
        case Some(p) => Some(Heading(pos, markEnd, p, p + 1))
  }

  ghost predicate OrderedHeadings(text: string, ms: seq<Heading>, pos: nat) {
    && (forall i :: 0 <= i < |ms| ==> IsHeading(text, ms[i]) && pos <= ms[i].start)
    && (forall i :: 0 <= i < |ms| - 1 ==> ms[i].end <= ms[i + 1].start)
  }

  /** `finditer` from `pos` on. */
  function FindHeadings(text: string, pos: nat): (ms: seq<Heading>)
    ensures OrderedHeadings(text, ms, pos)
    decreases |text| - pos
  {
    if pos >= |text| then []
    else
      match HeadingAt(text, pos)
      case None => FindHeadings(text, pos + 1)
      case Some(h) => [h] + FindHeadings(text, h.end)
  }

  lemma {:induction false} MarkEndIs(text: string, pos: nat, e: nat)
    requires pos <= e < |text| && text[e] != '#' && forall i :: pos <= i < e ==> text[i] == '#'
    ensures MarkEnd(text, pos) == e
    decreases e - pos
  {
    if pos < e { MarkEndIs(text, pos + 1, e); }
  }

  /** Where the expression can match at all, a match is found. */
  lemma HeadingFound(text: string, h: Heading)
    requires IsHeading(text, h)
    ensures HeadingAt(text, h.start).Some?
  {
    assert IsSpace(text[h.markEnd]);
    MarkEndIs(text, h.start, h.markEnd);
    assert text[h.headStart] != '\n';
  }

  /** One of the matches covers the place. */
  ghost predicate Covers(ms: seq<Heading>, place: nat) {
    exists i :: 0 <= i < |ms| && ms[i].start <= place < ms[i].end
  }

  lemma CoversMore(m: Heading, ms: seq<Heading>, place: nat)
    requires Covers(ms, place) || m.start <= place < m.end
    ensures Covers([m] + ms, place)
  {
    var all := [m] + ms;
    if Covers(ms, place) {
      var i :| 0 <= i < |ms| && ms[i].start <= place < ms[i].end;
      assert all[i + 1] == ms[i];
    } else {
      assert all[0] == m;
    }
  }

  /** No heading is missed: wherever the expression can match, a match found by `finditer` covers the place. */
  lemma {:induction false} NoHeadingMissed(text: string, pos: nat, h: Heading)
    requires IsHeading(text, h) && pos <= h.start
    ensures Covers(FindHeadings(text, pos), h.start)
    decreases |text| - pos
  {
    if pos == h.start { HeadingFound(text, h); }
    match HeadingAt(text, pos)
    case None => NoHeadingMissed(text, pos + 1, h);
    case Some(m) =>
      if h.start >= m.end { NoHeadingMissed(text, m.end, h); }
      CoversMore(m, FindHeadings(text, m.end), h.start);
  }

  /** Of all the ways to match from one place the match found is the one with the longest white space, as the greedy
      expression takes it; marks and line end leave no choice. */
  lemma HeadingIsGreedy(text: string, h: Heading)
    requires IsHeading(text, h)
    ensures
      var m := HeadingAt(text, h.start);
      && m.Some? && m.value.markEnd == h.markEnd && h.headStart <= m.value.headStart
      && (m.value.headStart == h.headStart ==> m.value == h)
  {
    HeadingFound(text, h);
    assert IsSpace(text[h.markEnd]);
    MarkEndIs(text, h.start, h.markEnd);
    assert text[h.headStart] != '\n';
    var m := HeadingAt(text, h.start).value;
    assert IsHeading(text, m);
    if m.headStart == h.headStart { SameLineEnd(text, h.headStart, h.end, m.end); }
  }

  lemma SameLineEnd(text: string, lo: nat, a: nat, b: nat)
    requires lo < a <= |text| && lo < b <= |text|
    requires (a == |text| || text[a] == '\n') && (b == |text| || text[b] == '\n')
    requires forall i :: lo <= i < a ==> text[i] != '\n'
    requires forall i :: lo <= i < b ==> text[i] != '\n'
    ensures a == b
  {
  }

  /** A line of marks, a blank and a letter is a heading if and only if it has one to four marks. */
  lemma OneToFourMarks(text: string, pos: nat, marks: nat)
    requires pos + marks + 1 < |text| && (pos == 0 || text[pos - 1] == '\n')
    requires forall i :: pos <= i < pos + marks ==> text[i] == '#'
    requires text[pos + marks] == ' ' && !IsSpace(text[pos + marks + 1])
    ensures HeadingAt(text, pos).Some? <==> 1 <= marks <= 4
    ensures 1 <= marks <= 4 ==> HeadingAt(text, pos).value.headStart == pos + marks + 1
  {
    MarkEndIs(text, pos, pos + marks);
    assert SpaceEnd(text, pos + marks) == pos + marks + 1;
  }

  lemma {:induction false} FoundAt(text: string, pos: nat, i: nat)
    requires i < |FindHeadings(text, pos)|
    ensures
      var h := FindHeadings(text, pos)[i];
      h.start < |text| && HeadingAt(text, h.start) == Some(h)
    decreases |text| - pos
  {
    match HeadingAt(text, pos)
    case None => FoundAt(text, pos + 1, i);
    case Some(m) => if i > 0 { FoundLater(text, pos, m, i); }
  }

  lemma FoundLater(text: string, pos: nat, m: Heading, i: nat)
    requires pos < |text| && HeadingAt(text, pos) == Some(m) && 0 < i < |FindHeadings(text, pos)|
    ensures
      var h := FindHeadings(text, pos)[i];
      h.start < |text| && HeadingAt(text, h.start) == Some(h)
    decreases |text| - pos, 0
  {
    FoundAt(text, m.end, i - 1);
    assert FindHeadings(text, pos)[i] == FindHeadings(text, m.end)[i - 1];
  }

  /** Every match of `finditer` is the greedy one from its place. */
  lemma HeadingsAreGreedy(text: string, pos: nat, i: nat, h: Heading)
    requires i < |FindHeadings(text, pos)| && IsHeading(text, h) && h.start == FindHeadings(text, pos)[i].start
    ensures h.markEnd == FindHeadings(text, pos)[i].markEnd && h.headStart <= FindHeadings(text, pos)[i].headStart
  {
    FoundAt(text, pos, i);
    HeadingIsGreedy(text, h);
  }

  // ===== _split_sections =============================================================

  datatype Section = Section(path: string, text: string)

  function NextStart(text: string, ms: seq<Heading>, i: nat): (e: nat)
    requires OrderedHeadings(text, ms, 0) && i < |ms|
    ensures ms[i].end <= e <= |text|
  {
    if i + 1 < |ms| then ms[i + 1].start else |text|
  }

  /** The section under a heading: its text begins with the heading's own words. */
  function MakeSection(base: string, rawHead: string, rawBody: string): Section {
    var head, body := Strip(rawHead), Strip(rawBody);
    Section(
      if base != "" then base + "/" + head else head,
      if body != "" then head + "\n" + body else head)
  }

  function SectionOf(text: string, base: string, ms: seq<Heading>, i: nat): Section
    requires OrderedHeadings(text, ms, 0) && i < |ms|
  {
    MakeSection(base, text[ms[i].headStart..ms[i].end], text[ms[i].end..NextStart(text, ms, i)])
  }

  function SectionsUnder(text: string, base: string, ms: seq<Heading>): (r: seq<Section>)
    requires OrderedHeadings(text, ms, 0)
    ensures |r| == |ms|
    ensures forall i :: 0 <= i < |ms| ==> r[i] == SectionOf(text, base, ms, i)
  {
    seq(|ms|, i requires 0 <= i < |ms| => SectionOf(text, base, ms, i))
  }

  function Sections(text: string, base: string): seq<Section> {
    var ms := FindHeadings(text, 0);
    if ms == [] then [Section(base, Strip(text))]
    else
      var preamble := Strip(text[..ms[0].start]);
      (if preamble != "" then [Section(base, preamble)] else []) + SectionsUnder(text, base, ms)
  }

  method SplitSections(text: string, base: string) returns (sections: seq<Section>)
    ensures sections == Sections(text, base)
  {
    var ms := FindHeadings(text, 0);
    if ms == [] {
      return [Section(base, Strip(text))];
    }
    sections := [];
    var preamble := Strip(text[..ms[0].start]);
    if preamble != "" {
      sections := [Section(base, preamble)];
    }
    var headed := HeadedSections(text, base, ms);
    sections := sections + headed;
  }

  method HeadedSections(text: string, base: string, ms: seq<Heading>) returns (sections: seq<Section>)
    requires OrderedHeadings(text, ms, 0)
    ensures sections == SectionsUnder(text, base, ms)
  {
    ghost var all := SectionsUnder(text, base, ms);
    sections := [];
    for i := 0 to |ms|
      invariant sections == all[..i]
    {
      var section := SectionOf(text, base, ms, i);
      PrefixGrows(all, i);
      sections := sections + [section];
    }
  }

  // ----- Sections keep the words -------------------------------------------------------

  function ErasedFrom(text: string, ms: seq<Heading>, i: nat): string
    requires OrderedHeadings(text, ms, 0) && i <= |ms|
    decreases |ms| - i
  {
    if i == |ms| then "" else text[ms[i].markEnd..NextStart(text, ms, i)] + ErasedFrom(text, ms, i + 1)
  }

  function Erased(text: string): string {
    var ms := FindHeadings(text, 0);
    if ms == [] then text else text[..ms[0].start] + ErasedFrom(text, ms, 0)
  }

  ghost predicate InMark(ms: seq<Heading>, p: nat) {
    exists i :: 0 <= i < |ms| && ms[i].start <= p < ms[i].markEnd
  }

  /** The text from `p` on without the characters of heading marks. */
  ghost function Unmarked(text: string, ms: seq<Heading>, p: nat): string
    requires p <= |text|
    decreases |text| - p
  {
    if p == |text| then ""
    else (if InMark(ms, p) then "" else [text[p]]) + Unmarked(text, ms, p + 1)
  }

  /** The text with its heading marks deleted. */
  ghost function WithoutMarks(text: string): string {
    Unmarked(text, FindHeadings(text, 0), 0)
  }

  lemma {:induction false} UnmarkedRun(text: string, ms: seq<Heading>, lo: nat, hi: nat)
    requires lo <= hi <= |text| && forall p :: lo <= p < hi ==> !InMark(ms, p)
    ensures Unmarked(text, ms, lo) == text[lo..hi] + Unmarked(text, ms, hi)
    decreases hi - lo
  {
    if lo < hi {
      UnmarkedRun(text, ms, lo + 1, hi);
      assert text[lo..hi] == [text[lo]] + text[lo + 1..hi];
      ConcatAssoc([text[lo]], text[lo + 1..hi], Unmarked(text, ms, hi));
    }
  }

  lemma {:induction false} MarkSkipped(text: string, ms: seq<Heading>, lo: nat, hi: nat)
    requires lo <= hi <= |text| && forall p :: lo <= p < hi ==> InMark(ms, p)
    ensures Unmarked(text, ms, lo) == Unmarked(text, ms, hi)
    decreases hi - lo
  {
    if lo < hi { MarkSkipped(text, ms, lo + 1, hi); }
  }

  lemma {:induction false} HeadingsApart(text: string, ms: seq<Heading>, i: nat, j: nat)
    requires OrderedHeadings(text, ms, 0) && i < j < |ms|
    ensures ms[i].end <= ms[j].start
    decreases j
  {
    if i + 1 < j {
      HeadingsApart(text, ms, i, j - 1);
      assert IsHeading(text, ms[j - 1]);
    }
  }

  /** No mark between the marks of heading `i` and the next heading, and none before the first. */
  lemma MarkFree(text: string, ms: seq<Heading>, p: nat)
    requires OrderedHeadings(text, ms, 0)
    ensures forall i :: 0 <= i < |ms| && ms[i].markEnd <= p < NextStart(text, ms, i) ==> !InMark(ms, p)
    ensures ms != [] && p < ms[0].start ==> !InMark(ms, p)
  {
    forall i, j | 0 <= i < j < |ms| ensures ms[i].end <= ms[j].start {
      HeadingsApart(text, ms, i, j);
    }
    assert forall i :: 0 <= i < |ms| ==> IsHeading(text, ms[i]);
  }

  lemma {:induction false} ErasedFromIs(text: string, ms: seq<Heading>, i: nat)
    requires OrderedHeadings(text, ms, 0) && i < |ms|
    ensures IsHeading(text, ms[i]) && ErasedFrom(text, ms, i) == Unmarked(text, ms, ms[i].start)
    decreases |ms| - i
  {
    var h, next := ms[i], NextStart(text, ms, i);
    assert IsHeading(text, h);
    MarkSkipped(text, ms, h.start, h.markEnd);
    forall p | h.markEnd <= p < next ensures !InMark(ms, p) {
      MarkFree(text, ms, p);
    }
    UnmarkedRun(text, ms, h.markEnd, next);
    if i + 1 < |ms| {
      ErasedFromIs(text, ms, i + 1);
    }
  }

  lemma ErasedIs(text: string)
    ensures Erased(text) == WithoutMarks(text)
  {
    var ms := FindHeadings(text, 0);
    if ms == [] {
      UnmarkedRun(text, ms, 0, |text|);
    } else {
      forall p | 0 <= p < ms[0].start ensures !InMark(ms, p) {
        MarkFree(text, ms, p);
      }
      ErasedFromIs(text, ms, 0);
      UnmarkedRun(text, ms, 0, ms[0].start);
    }
  }

  function SectionWords(sections: seq<Section>): seq<string> {
    if sections == [] then [] else Words(sections[0].text) + SectionWords(sections[1..])
  }

  lemma MakeSectionWords(base: string, rawHead: string, rawBody: string)
    ensures Words(MakeSection(base, rawHead, rawBody).text) == Words(rawHead) + Words(rawBody)
  {
    var head, body := Strip(rawHead), Strip(rawBody);
    StripWords(rawHead);
    StripWords(rawBody);
    if body != "" {
      assert head + "\n" + body == head + ("\n" + body);
      WordsConcat(head, "\n" + body);
      WordsConcat("\n", body);
      WordsOfSpace("\n");
    }
  }

  lemma SectionKeepsWords(text: string, base: string, ms: seq<Heading>, i: nat)
    requires OrderedHeadings(text, ms, 0) && i < |ms|
    ensures Words(SectionOf(text, base, ms, i).text) == Words(text[ms[i].markEnd..NextStart(text, ms, i)])
  {
    var h, next := ms[i], NextStart(text, ms, i);
    assert IsHeading(text, h);
    HeadingWords(base, text[h.markEnd..h.headStart], text[h.headStart..h.end], text[h.end..next]);
    ThreeSlices(text, h.markEnd, h.headStart, h.end, next);
  }

  lemma ThreeSlices<T>(s: seq<T>, a: nat, b: nat, c: nat, d: nat)
    requires a <= b <= c <= d <= |s|
    ensures s[a..d] == s[a..b] + s[b..c] + s[c..d]
  {
  }

  lemma HeadingWords(base: string, gap: string, head: string, body: string)
    requires AllSpace(gap) && gap != []
    requires body == [] || IsSpace(body[0])
    ensures Words(MakeSection(base, head, body).text) == Words(gap + head + body)
  {
    MakeSectionWords(base, head, body);
    assert Words(gap + head + body) == Words(head) + Words(body) by {
      assert gap + head + body == gap + (head + body);
      SkipGap(gap, head + body);
      WordsConcat(head, body);
    }
  }

  lemma SkipGap(gap: string, rest: string)
    requires AllSpace(gap) && gap != []
    ensures Words(gap + rest) == Words(rest)
  {
    WordsOfSpace(gap);
    WordsConcat(gap, rest);
  }

  lemma ErasedOpensWithSpace(text: string, ms: seq<Heading>, i: nat)
    requires OrderedHeadings(text, ms, 0) && i < |ms|
    ensures ErasedFrom(text, ms, i) != [] && IsSpace(ErasedFrom(text, ms, i)[0])
  {
    assert IsHeading(text, ms[i]);
    assert ErasedFrom(text, ms, i)[0] == text[ms[i].markEnd];
  }

  lemma SectionWordsFirst(sections: seq<Section>, i: nat)
    requires i < |sections|
    ensures SectionWords(sections[i..]) == Words(sections[i].text) + SectionWords(sections[i + 1..])
  {
    assert sections[i..][1..] == sections[i + 1..];
  }

  lemma {:induction false} SectionsUnderKeepWords(text: string, base: string, ms: seq<Heading>, i: nat)
    requires OrderedHeadings(text, ms, 0) && i <= |ms|
    ensures SectionWords(SectionsUnder(text, base, ms)[i..]) == Words(ErasedFrom(text, ms, i))
    decreases |ms| - i
  {
    if i < |ms| {
      SectionKeepsWords(text, base, ms, i);
      SectionsUnderKeepWords(text, base, ms, i + 1);
      SectionWordsFirst(SectionsUnder(text, base, ms), i);
      if i + 1 < |ms| { ErasedOpensWithSpace(text, ms, i + 1); }
      WordsConcat(text[ms[i].markEnd..NextStart(text, ms, i)], ErasedFrom(text, ms, i + 1));
    }
  }

  /** The sections hold the words of the text without its heading marks, in order. */
  lemma SectionsKeepWords(text: string, base: string)
    ensures SectionWords(Sections(text, base)) == Words(WithoutMarks(text))
  {
    ErasedIs(text);
    var ms := FindHeadings(text, 0);
    var s := Sections(text, base);
    if ms == [] {
      StripWords(text);
      assert s[1..] == [];
    } else {
      var before := text[..ms[0].start];
      StripWords(before);
      SectionsUnderKeepWords(text, base, ms, 0);
      ErasedOpensWithSpace(text, ms, 0);
      WordsConcat(before, ErasedFrom(text, ms, 0));
      var headed := SectionsUnder(text, base, ms);
      assert headed[0..] == headed;
      if Strip(before) != "" {
        assert s[1..] == headed;
      } else {
        assert s == headed;
      }
    }
  }

  // ===== chunk_document ================================================================

  function BasePath(doc: SourceDoc): string {
    if "section_path" in doc.metadata then doc.metadata["section_path"] else ""
  }

  function ClauseBase(doc: SourceDoc, path: string): string {
    if path != "" then doc.docId + ":" + path else doc.docId
  }

  function ClauseId(base: string, count: nat, idx: nat): string {
    if count == 1 then base else base + ":part" + Decimal(idx)
  }

  function MakeChunks(doc: SourceDoc, base: string, texts: seq<string>): (r: seq<Chunk>)
    ensures |r| == |texts|
  {
    seq(|texts|, i requires 0 <= i < |texts| =>
      Chunk(ClauseId(base, |texts|, i), doc.docId, doc.title, texts[i], doc.metadata))
  }

  /** Chunking this document ends. */
  predicate DocumentEnds(doc: SourceDoc, max: nat, overlap: int) {
    forall s :: s in Sections(doc.text, BasePath(doc)) ==> SplitEnds(|Words(s.text)|, max, overlap)
  }

  function SectionChunks(doc: SourceDoc, s: Section, max: nat, overlap: int): seq<Chunk>
    requires SplitEnds(|Words(s.text)|, max, overlap)
  {
    MakeChunks(doc, ClauseBase(doc, s.path), SplitByTokens(s.text, max, overlap))
  }

  lemma PrefixGrows<T>(all: seq<T>, i: nat)
    requires i < |all|
    ensures all[..i + 1] == all[..i] + [all[i]]
  {
  }

  function GroupsOf(doc: SourceDoc, sections: seq<Section>, max: nat, overlap: int): (r: seq<seq<Chunk>>)
    requires forall s :: s in sections ==> SplitEnds(|Words(s.text)|, max, overlap)
    ensures |r| == |sections|
    ensures forall i :: 0 <= i < |r| ==> r[i] == SectionChunks(doc, sections[i], max, overlap)
  {
    seq(|sections|, i requires 0 <= i < |sections| => SectionChunks(doc, sections[i], max, overlap))
  }

  function Flatten<T>(groups: seq<seq<T>>): seq<T> {
    if groups == [] then [] else groups[0] + Flatten(groups[1..])
  }

  lemma {:induction false} FlattenSnoc<T>(groups: seq<seq<T>>, g: seq<T>)
    ensures Flatten(groups + [g]) == Flatten(groups) + g
  {
    if groups == [] {
      assert groups + [g] == [g];
    } else {
      assert (groups + [g])[1..] == groups[1..] + [g];
      FlattenSnoc(groups[1..], g);
    }
  }

  lemma FlattenPrefix<T>(groups: seq<seq<T>>, i: nat)
    requires i < |groups|
    ensures Flatten(groups[..i + 1]) == Flatten(groups[..i]) + groups[i]
  {
    assert groups[..i + 1] == groups[..i] + [groups[i]];
    FlattenSnoc(groups[..i], groups[i]);
  }

  /** The chunks of a document, one group a section. */
  function SectionGroups(doc: SourceDoc, max: nat, overlap: int): seq<seq<Chunk>>
    requires DocumentEnds(doc, max, overlap)
  {
    GroupsOf(doc, Sections(doc.text, BasePath(doc)), max, overlap)
  }

  function ChunksOf(doc: SourceDoc, max: nat, overlap: int): seq<Chunk>
    requires DocumentEnds(doc, max, overlap)
  {
    Flatten(SectionGroups(doc, max, overlap))
  }

  method ChunkDocument(doc: SourceDoc, max: nat, overlap: int) returns (chunks: seq<Chunk>)
    requires DocumentEnds(doc, max, overlap)
    ensures chunks == ChunksOf(doc, max, overlap)
  {
    var sections := SplitSections(doc.text, BasePath(doc));
    ghost var groups := SectionGroups(doc, max, overlap);
    chunks := [];
    for i := 0 to |sections|
      invariant chunks == Flatten(groups[..i])
    {
      var group := ChunkSection(doc, sections[i], max, overlap);
      chunks := chunks + group;
      FlattenPrefix(groups, i);
    }
    assert groups[..|sections|] == groups;
  }

  method ChunkSection(doc: SourceDoc, s: Section, max: nat, overlap: int) returns (chunks: seq<Chunk>)
    requires SplitEnds(|Words(s.text)|, max, overlap)
    ensures chunks == SectionChunks(doc, s, max, overlap)
  {
    var base := if s.path != "" then doc.docId + ":" + s.path else doc.docId;
    var texts := Split(s.text, max, overlap);
    ghost var all := MakeChunks(doc, base, texts);
    chunks := [];
    for idx := 0 to |texts|
      invariant chunks == all[..idx]
    {
      PrefixGrows(all, idx);
      var clauseId := if |texts| == 1 then base else base + ":part" + Decimal(idx);
      chunks := chunks + [Chunk(clauseId, doc.docId, doc.title, texts[idx], doc.metadata)];
    }
  }

  // ----- No text lost -------------------------------------------------------------------

  function ChunkTexts(chunks: seq<Chunk>): (r: seq<string>)
    ensures |r| == |chunks|
    ensures forall i :: 0 <= i < |chunks| ==> r[i] == chunks[i].text
  {
    if chunks == [] then [] else [chunks[0].text] + ChunkTexts(chunks[1..])
  }

  /** The words of the chunks, group by group, without the words later sub-chunks repeat. */
  function Recovered(groups: seq<seq<Chunk>>, overlap: nat): seq<string> {
    if groups == [] then []
    else Stitch(WordsOfEach(ChunkTexts(groups[0])), overlap) + Recovered(groups[1..], overlap)
  }

  lemma {:induction false} RecoverSections(doc: SourceDoc, sections: seq<Section>, max: nat, overlap: nat)
    requires forall s :: s in sections ==> SplitEnds(|Words(s.text)|, max, overlap)
    ensures Recovered(GroupsOf(doc, sections, max, overlap), overlap) == SectionWords(sections)
  {
    if sections != [] {
      var groups := GroupsOf(doc, sections, max, overlap);
      SplitKeepsWords(sections[0].text, max, overlap);
      assert ChunkTexts(groups[0]) == SplitByTokens(sections[0].text, max, overlap);
      assert groups[1..] == GroupsOf(doc, sections[1..], max, overlap);
      RecoverSections(doc, sections[1..], max, overlap);
    }
  }

  /** No text is lost: the chunks of a document, stitched within each section, hold the
      document's words without heading marks, in order. */
  lemma NoLostText(doc: SourceDoc, max: nat, overlap: nat)
    requires DocumentEnds(doc, max, overlap)
    ensures ChunksOf(doc, max, overlap) == Flatten(SectionGroups(doc, max, overlap))
    ensures Recovered(SectionGroups(doc, max, overlap), overlap) == Words(WithoutMarks(doc.text))
  {
    var sections := Sections(doc.text, BasePath(doc));
    RecoverSections(doc, sections, max, overlap);
    SectionsKeepWords(doc.text, BasePath(doc));
  }

  // ----- Empty chunks ---------------------------------------------------------------------

  /** A section's text is empty as soon as it has no words. */
  lemma SectionHasWords(text: string, base: string, s: Section)
    requires s in Sections(text, base)
    ensures Words(s.text) == [] <==> s.text == ""
  {
    var ms := FindHeadings(text, 0);
    if ms == [] {
      StrippedHasWords(text);
    } else {
      var headed := SectionsUnder(text, base, ms);
      if s in headed {
        var i :| 0 <= i < |headed| && headed[i] == s;
        HeadedSectionHasWords(text, base, ms, i);
      } else {
        StrippedHasWords(text[..ms[0].start]);
      }
    }
  }

  lemma HeadedSectionHasWords(text: string, base: string, ms: seq<Heading>, i: nat)
    requires OrderedHeadings(text, ms, 0) && i < |ms|
    ensures Words(SectionOf(text, base, ms, i).text) == [] <==> SectionOf(text, base, ms, i).text == ""
  {
    MadeSectionHasWords(base, text[ms[i].headStart..ms[i].end], text[ms[i].end..NextStart(text, ms, i)]);
  }

  lemma MadeSectionHasWords(base: string, head: string, body: string)
    ensures Words(MakeSection(base, head, body).text) == [] <==> MakeSection(base, head, body).text == ""
  {
    StrippedHasWords(head);
    StrippedHasWords(body);
    StripWords(head);
    StripWords(body);
    MakeSectionWords(base, head, body);
  }

  lemma PartIsEmpty(words: seq<string>, max: nat, overlap: int, i: nat)
    requires overlap < max < |words| && AllWords(words) && i < |Parts(words, 0, max, overlap)|
    ensures Join(Parts(words, 0, max, overlap)[i]) == "" <==> max == 0
  {
    PartAt(words, max, overlap, i);
    JoinedIsEmpty(Parts(words, 0, max, overlap)[i]);
  }

  lemma SubTextIsEmpty(text: string, max: nat, overlap: int, i: nat)
    requires SplitEnds(|Words(text)|, max, overlap) && (Words(text) == [] <==> text == "")
    requires i < |SplitByTokens(text, max, overlap)|
    ensures SplitByTokens(text, max, overlap)[i] == "" <==> Words(text) == [] || max == 0
  {
    var words := Words(text);
    if |words| > max {
      WordsAreWords(text);
      assert SplitByTokens(text, max, overlap) == JoinAll(Parts(words, 0, max, overlap));
      PartIsEmpty(words, max, overlap, i);
    }
  }

  /** A chunk is empty exactly when its section has no words (or chunks may hold none at all). */
  lemma ChunkIsEmpty(doc: SourceDoc, s: Section, max: nat, overlap: int, i: nat)
    requires s in Sections(doc.text, BasePath(doc)) && SplitEnds(|Words(s.text)|, max, overlap)
    requires i < |SectionChunks(doc, s, max, overlap)|
    ensures SectionChunks(doc, s, max, overlap)[i].text == "" <==> Words(s.text) == [] || max == 0
  {
    SectionHasWords(doc.text, BasePath(doc), s);
    SubTextIsEmpty(s.text, max, overlap, i);
  }

  // ----- Clause ids ----------------------------------------------------------------------

  /** Sub-chunks of one section never share an id. */
  lemma PartIdsDistinct(doc: SourceDoc, s: Section, max: nat, overlap: int, i: nat, j: nat)
    requires SplitEnds(|Words(s.text)|, max, overlap)
    requires i < |SectionChunks(doc, s, max, overlap)| && j < |SectionChunks(doc, s, max, overlap)|
    requires SectionChunks(doc, s, max, overlap)[i].clauseId == SectionChunks(doc, s, max, overlap)[j].clauseId
    ensures i == j
  {
    var chunks := SectionChunks(doc, s, max, overlap);
    if |chunks| > 1 {
      var stem := ClauseBase(doc, s.path) + ":part";
      assert chunks[i].clauseId == stem + Decimal(i);
      assert chunks[j].clauseId == stem + Decimal(j);
      assert chunks[i].clauseId[|stem|..] == Decimal(i);
      assert chunks[j].clauseId[|stem|..] == Decimal(j);
      DecimalInjective(i, j);
    }
  }

  /** The chunks of a section: `docId:path`, or `docId:path:partN` for the sub-chunks of one that is cut. A section
      within `max` words is one chunk with the section's text. */
  ghost predicate ChunksAt(doc: SourceDoc, path: string, text: string, max: nat, group: seq<Chunk>) {
    var stem := if path == "" then doc.docId else doc.docId + ":" + path;
    && (|group| == 1 ==> group[0].clauseId == stem)
    && (|group| != 1 ==> forall j :: 0 <= j < |group| ==> group[j].clauseId == stem + ":part" + Decimal(j))
    && (|Words(text)| <= max ==> |group| == 1 && group[0].text == text)
  }

  /** The document's `section_path`, if it has one. */
  ghost predicate HasPath(doc: SourceDoc, base: string) {
    if "section_path" in doc.metadata then base == doc.metadata["section_path"] else base == ""
  }

  lemma SectionChunksAt(doc: SourceDoc, s: Section, max: nat, overlap: int)
    requires SplitEnds(|Words(s.text)|, max, overlap)
    ensures ChunksAt(doc, s.path, s.text, max, SectionChunks(doc, s, max, overlap))
  {
  }

  /** The chunks under a heading: their ids hold the document's path and the heading's text, and the text they are cut
      from is the heading's, then a line's end and the body, if there is any. */
  ghost predicate ChunksUnder(doc: SourceDoc, base: string, head: string, body: string, max: nat, group: seq<Chunk>) {
    ChunksAt(doc, if base == "" then head else base + "/" + head, if body == "" then head else head + "\n" + body, max,
      group)
  }

  lemma GroupUnder(doc: SourceDoc, base: string, rawHead: string, rawBody: string, max: nat, overlap: int,
      s: Section)
    requires HasPath(doc, base) && s == MakeSection(BasePath(doc), rawHead, rawBody)
    requires SplitEnds(|Words(s.text)|, max, overlap)
    ensures ChunksUnder(doc, base, Strip(rawHead), Strip(rawBody), max, SectionChunks(doc, s, max, overlap))
  {
    SectionChunksAt(doc, s, max, overlap);
  }

  lemma TailAt<T>(a: seq<T>, b: seq<T>, i: nat)
    requires i < |b|
    ensures (a + b)[|a + b| - |b| + i] == b[i]
  {
  }

  lemma SectionsEnd(text: string, base: string, ms: seq<Heading>) returns (front: seq<Section>)
    requires ms == FindHeadings(text, 0) && ms != []
    ensures Sections(text, base) == front + SectionsUnder(text, base, ms)
  {
    front := if Strip(text[..ms[0].start]) != "" then [Section(base, Strip(text[..ms[0].start]))] else [];
  }

  /** The sections under headings are the last ones. */
  lemma SectionPlace(text: string, base: string, ms: seq<Heading>, i: nat)
    requires ms == FindHeadings(text, 0) && i < |ms|
    ensures |ms| <= |Sections(text, base)|
    ensures Sections(text, base)[|Sections(text, base)| - |ms| + i] == SectionOf(text, base, ms, i)
  {
    var front := SectionsEnd(text, base, ms);
    TailAt(front, SectionsUnder(text, base, ms), i);
  }

  lemma GroupAt(doc: SourceDoc, max: nat, overlap: int, k: nat)
    requires DocumentEnds(doc, max, overlap) && k < |Sections(doc.text, BasePath(doc))|
    ensures |SectionGroups(doc, max, overlap)| == |Sections(doc.text, BasePath(doc))|
    ensures SectionGroups(doc, max, overlap)[k]
         == SectionChunks(doc, Sections(doc.text, BasePath(doc))[k], max, overlap)
  {
  }

  /** The chunks under heading `i`: with what stands on its line and what follows up to the next heading. */
  ghost predicate ChunksOfHeading(doc: SourceDoc, base: string, max: nat, ms: seq<Heading>, i: nat, group: seq<Chunk>)
    requires OrderedHeadings(doc.text, ms, 0) && i < |ms|
  {
    var next := if i + 1 < |ms| then ms[i + 1].start else |doc.text|;
    var head, body := doc.text[ms[i].headStart..ms[i].end], doc.text[ms[i].end..next];
    ChunksUnder(doc, base, Strip(head), Strip(body), max, group)
  }

  lemma HeadingGroup(doc: SourceDoc, base: string, max: nat, overlap: int, ms: seq<Heading>, i: nat, s: Section)
    requires OrderedHeadings(doc.text, ms, 0) && i < |ms| && HasPath(doc, base)
    requires s == SectionOf(doc.text, BasePath(doc), ms, i) && SplitEnds(|Words(s.text)|, max, overlap)
    ensures ChunksOfHeading(doc, base, max, ms, i, SectionChunks(doc, s, max, overlap))
  {
    var head, body := doc.text[ms[i].headStart..ms[i].end], doc.text[ms[i].end..NextStart(doc.text, ms, i)];
    GroupUnder(doc, base, head, body, max, overlap, s);
  }

  lemma HeadingSection(doc: SourceDoc, max: nat, overlap: int, ms: seq<Heading>, groups: seq<seq<Chunk>>, i: nat)
    returns (s: Section)
    requires DocumentEnds(doc, max, overlap) && ms == FindHeadings(doc.text, 0) && i < |ms|
    requires groups == SectionGroups(doc, max, overlap)
    ensures |ms| <= |groups|
    ensures s == SectionOf(doc.text, BasePath(doc), ms, i) && SplitEnds(|Words(s.text)|, max, overlap)
    ensures groups[|groups| - |ms| + i] == SectionChunks(doc, s, max, overlap)
  {
    var sections := Sections(doc.text, BasePath(doc));
    SectionPlace(doc.text, BasePath(doc), ms, i);
    GroupAt(doc, max, overlap, |sections| - |ms| + i);
    s := sections[|sections| - |ms| + i];
  }

  /** The last groups of chunks are those under the headings, in order. */
  lemma HeadingChunks(doc: SourceDoc, base: string, max: nat, overlap: int, ms: seq<Heading>, groups: seq<seq<Chunk>>,
      i: nat)
    requires DocumentEnds(doc, max, overlap) && HasPath(doc, base)
    requires ms == FindHeadings(doc.text, 0) && groups == SectionGroups(doc, max, overlap) && i < |ms|
    ensures |ms| <= |groups|
    ensures ChunksOfHeading(doc, base, max, ms, i, groups[|groups| - |ms| + i])
  {
    var s := HeadingSection(doc, max, overlap, ms, groups, i);
    HeadingGroup(doc, base, max, overlap, ms, i, s);
  }

  /** What comes before the first heading, or the whole text when there is none, goes under the document's path; white
      space before a first heading is dropped. */
  lemma OpeningChunks(doc: SourceDoc, base: string, max: nat, overlap: int)
    requires DocumentEnds(doc, max, overlap) && HasPath(doc, base)
    ensures
      var ms, groups := FindHeadings(doc.text, 0), SectionGroups(doc, max, overlap);
      var opening := Strip(if ms == [] then doc.text else doc.text[..ms[0].start]);
      if ms != [] && opening == "" then |groups| == |ms|
      else |groups| == |ms| + 1 && ChunksAt(doc, base, opening, max, groups[0])
  {
    var ms, sections := FindHeadings(doc.text, 0), Sections(doc.text, BasePath(doc));
    if |sections| == |ms| + 1 { SectionChunksAt(doc, sections[0], max, overlap); }
  }

  /** The chunk carries the document's id, title and metadata, and an id that begins with the document's. */
  ghost predicate Carries(doc: SourceDoc, c: Chunk) {
    c.docId == doc.docId && c.title == doc.title && c.metadata == doc.metadata && doc.docId <= c.clauseId
  }

  lemma SectionProvenance(doc: SourceDoc, s: Section, max: nat, overlap: int)
    requires SplitEnds(|Words(s.text)|, max, overlap)
    ensures forall c :: c in SectionChunks(doc, s, max, overlap) ==> Carries(doc, c)
  {
  }

  lemma {:induction false} FlattenProvenance(doc: SourceDoc, sections: seq<Section>, max: nat, overlap: int)
    requires forall s :: s in sections ==> SplitEnds(|Words(s.text)|, max, overlap)
    ensures forall c :: c in Flatten(GroupsOf(doc, sections, max, overlap)) ==> Carries(doc, c)
  {
    if sections != [] {
      var groups := GroupsOf(doc, sections, max, overlap);
      assert groups[1..] == GroupsOf(doc, sections[1..], max, overlap);
      FlattenProvenance(doc, sections[1..], max, overlap);
      SectionProvenance(doc, sections[0], max, overlap);
      assert Flatten(groups) == groups[0] + Flatten(groups[1..]);
    }
  }

  /** Every chunk of a document carries the document. */
  lemma ChunkProvenance(doc: SourceDoc, max: nat, overlap: int, c: Chunk)
    requires DocumentEnds(doc, max, overlap)
    requires c in ChunksOf(doc, max, overlap)
    ensures c.docId == doc.docId && c.title == doc.title && c.metadata == doc.metadata && doc.docId <= c.clauseId
  {
    FlattenProvenance(doc, Sections(doc.text, BasePath(doc)), max, overlap);
    assert Carries(doc, c);
  }
}
