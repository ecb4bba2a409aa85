// Sorting by a strict order, and the ranking of scored ids by
// (score descending, id ascending) that BM25 and the fusion both use.

module Ranking {
  import opened Prelude

  // ----- Sorting ---------------------------------------------------------------

  ghost predicate Transitive<T(!new)>(before: (T, T) -> bool) {
    forall a, b, c :: before(a, b) && before(b, c) ==> before(a, c)
  }

  ghost predicate Asymmetric<T(!new)>(before: (T, T) -> bool) {
    forall a, b :: before(a, b) ==> !before(b, a)
  }

  /** Any two elements at different places of `s` are ordered one way or the other. */
  ghost predicate ConnectedOn<T>(before: (T, T) -> bool, s: seq<T>) {
    forall i, j :: 0 <= i < j < |s| ==> before(s[i], s[j]) || before(s[j], s[i])
  }

  ghost predicate StrictlySorted<T>(before: (T, T) -> bool, s: seq<T>) {
    forall i, j :: 0 <= i < j < |s| ==> before(s[i], s[j])
  }

  function Insert<T>(before: (T, T) -> bool, x: T, s: seq<T>): seq<T> {
    if s == [] then [x]
    else if before(s[0], x) then [s[0]] + Insert(before, x, s[1..])
    else [x] + s
  }

  /** Python's `sorted` for a key order without ties. */
  function SortBy<T>(before: (T, T) -> bool, s: seq<T>): seq<T> {
    if s == [] then [] else Insert(before, s[0], SortBy(before, s[1..]))
  }

  lemma {:induction false} InsertMembers<T>(before: (T, T) -> bool, x: T, s: seq<T>)
    ensures multiset(Insert(before, x, s)) == multiset(s) + multiset{x}
    ensures |Insert(before, x, s)| == |s| + 1
  {
    if s != [] {
      assert s == [s[0]] + s[1..];
      InsertMembers(before, x, s[1..]);
    }
  }

  lemma {:induction false} InsertSorted<T(!new)>(before: (T, T) -> bool, x: T, s: seq<T>)
    requires Transitive(before) && StrictlySorted(before, s)
    requires forall i :: 0 <= i < |s| ==> before(s[i], x) || before(x, s[i])
    ensures StrictlySorted(before, Insert(before, x, s))
  {
    if s != [] {
      var t := s[1..];
      assert forall i :: 0 <= i < |t| ==> t[i] == s[i + 1];
      if before(s[0], x) {
        InsertSorted(before, x, t);
        InsertMembers(before, x, t);
        var r := Insert(before, x, t);
        forall i | 0 <= i < |r| ensures before(s[0], r[i]) {
          assert r[i] in multiset(r);
          assert r[i] == x || r[i] in t;
        }
      }
    }
  }

  lemma {:induction false} SortMembers<T>(before: (T, T) -> bool, s: seq<T>)
    ensures multiset(SortBy(before, s)) == multiset(s)
    ensures |SortBy(before, s)| == |s|
  {
    if s != [] {
      assert s == [s[0]] + s[1..];
      SortMembers(before, s[1..]);
      InsertMembers(before, s[0], SortBy(before, s[1..]));
    }
  }

  lemma {:induction false} SortSorted<T(!new)>(before: (T, T) -> bool, s: seq<T>)
    requires Transitive(before) && ConnectedOn(before, s)
    ensures StrictlySorted(before, SortBy(before, s))
  {
    if s != [] {
      var t := s[1..];
      assert forall i :: 0 <= i < |t| ==> t[i] == s[i + 1];
      SortSorted(before, t);
      SortMembers(before, t);
      var r := SortBy(before, t);
      forall i | 0 <= i < |r| ensures before(r[i], s[0]) || before(s[0], r[i]) {
        assert r[i] in multiset(r);
        assert r[i] in t;
      }
      InsertSorted(before, s[0], r);
    }
  }

  lemma HeadAndTail<T>(s: seq<T>)
    requires s != []
    ensures multiset(s[1..]) == multiset(s) - multiset{s[0]}
  {
    assert s == [s[0]] + s[1..];
  }

  lemma FirstIsLeast<T(!new)>(before: (T, T) -> bool, s: seq<T>, x: T)
    requires StrictlySorted(before, s) && x in s
    ensures x == s[0] || before(s[0], x)
  {
    var i :| 0 <= i < |s| && s[i] == x;
    if i > 0 { assert before(s[0], s[i]); }
  }

  /** Sorted sequences of the same elements begin with the same one. */
  lemma SameHead<T(!new)>(before: (T, T) -> bool, a: seq<T>, b: seq<T>)
    requires Asymmetric(before) && a != [] && b != []
    requires StrictlySorted(before, a) && StrictlySorted(before, b)
    requires multiset(a) == multiset(b)
    ensures a[0] == b[0]
  {
    assert a[0] in multiset(b) && b[0] in multiset(a);
    FirstIsLeast(before, a, b[0]);
    FirstIsLeast(before, b, a[0]);
  }

  /** A strict order leaves one way only to sort given elements. */
  lemma {:induction false} SortedUnique<T(!new)>(before: (T, T) -> bool, a: seq<T>, b: seq<T>)
    requires Asymmetric(before)
    requires StrictlySorted(before, a) && StrictlySorted(before, b)
    requires multiset(a) == multiset(b)
    ensures a == b
  {
    assert |a| == |multiset(a)| == |multiset(b)| == |b|;
    if a == [] {
    } else {
      SameHead(before, a, b);
      HeadAndTail(a);
      HeadAndTail(b);
      SortedUnique(before, a[1..], b[1..]);
      assert a == [a[0]] + a[1..] && b == [b[0]] + b[1..];
    }
  }

  // ----- Strings in code-point order ---------------------------------------------

  predicate StrLess(a: string, b: string) {
    b != [] && (a == [] || a[0] < b[0] || (a[0] == b[0] && StrLess(a[1..], b[1..])))
  }

  lemma {:induction false} StrLessAsymmetric(a: string, b: string)
    requires StrLess(a, b)
    ensures !StrLess(b, a) && a != b
  {
    if a != [] && a[0] == b[0] { StrLessAsymmetric(a[1..], b[1..]); }
  }

  lemma {:induction false} StrLessTransitive(a: string, b: string, c: string)
    requires StrLess(a, b) && StrLess(b, c)
    ensures StrLess(a, c)
  {
    if a != [] && a[0] == b[0] == c[0] { StrLessTransitive(a[1..], b[1..], c[1..]); }
  }

  lemma {:induction false} StrLessTotal(a: string, b: string)
    ensures a == b || StrLess(a, b) || StrLess(b, a)
  {
    if a != [] && b != [] && a[0] == b[0] {
      StrLessTotal(a[1..], b[1..]);
      assert a == [a[0]] + a[1..] && b == [b[0]] + b[1..];
    }
  }

  /** The first place where the strings differ decides, the end of one coming before any character. */
  ghost predicate FirstDifferenceLess(a: string, b: string) {
    exists k: nat :: DifferAt(a, b, k)
  }

  ghost predicate DifferAt(a: string, b: string, k: nat) {
    k <= |a| && k < |b| && a[..k] == b[..k] && (k == |a| || a[k] < b[k])
  }

  lemma DifferLater(a: string, b: string, k: nat)
    requires a != [] && b != [] && a[0] == b[0]
    ensures DifferAt(a, b, k + 1) <==> DifferAt(a[1..], b[1..], k)
  {
    if k < |a| && k + 1 < |b| {
      assert a[..k + 1] == [a[0]] + a[1..][..k];
      assert b[..k + 1] == [b[0]] + b[1..][..k];
    }
  }

  lemma DifferFirst(a: string, b: string)
    ensures DifferAt(a, b, 0) <==> b != [] && (a == [] || a[0] < b[0])
    ensures forall k: nat :: k > 0 && DifferAt(a, b, k) ==> a != [] && b != [] && a[0] == b[0]
  {
    assert a[..0] == b[..0];
    forall k: nat | k > 0 && DifferAt(a, b, k) ensures a != [] && b != [] && a[0] == b[0] {
      assert a[..k][0] == b[..k][0];
    }
  }

  /** The order of ids is the lexicographic order of code points. */
  lemma {:induction false} StrLessIs(a: string, b: string)
    ensures StrLess(a, b) <==> FirstDifferenceLess(a, b)
  {
    DifferFirst(a, b);
    if a != [] && b != [] && a[0] == b[0] {
      StrLessIs(a[1..], b[1..]);
      forall k: nat ensures DifferAt(a, b, k + 1) <==> DifferAt(a[1..], b[1..], k) {
        DifferLater(a, b, k);
      }
      if FirstDifferenceLess(a, b) {
        var k: nat :| DifferAt(a, b, k);
        assert DifferAt(a[1..], b[1..], k - 1);
      }
      if FirstDifferenceLess(a[1..], b[1..]) {
        var k: nat :| DifferAt(a[1..], b[1..], k);
        assert DifferAt(a, b, k + 1);
      }
    } else if FirstDifferenceLess(a, b) {
      var k: nat :| DifferAt(a, b, k);
      assert k == 0;
    }
  }

  // ----- Rankings of scored ids ------------------------------------------------------

  datatype Ranked = Ranked(id: string, score: real)

  /** The sort key `(-score, id)`. */
  predicate RankBefore(a: Ranked, b: Ranked) {
    a.score > b.score || (a.score == b.score && StrLess(a.id, b.id))
  }

  lemma RankBeforeIsStrict()
    ensures Transitive(RankBefore) && Asymmetric(RankBefore)
  {
    forall a, b, c | RankBefore(a, b) && RankBefore(b, c) ensures RankBefore(a, c) {
      if a.score == b.score == c.score { StrLessTransitive(a.id, b.id, c.id); }
    }
    forall a, b | RankBefore(a, b) ensures !RankBefore(b, a) {
      if a.score == b.score { StrLessAsymmetric(a.id, b.id); }
    }
  }

  lemma RankBeforeConnected(a: Ranked, b: Ranked)
    requires a.id != b.id
    ensures RankBefore(a, b) || RankBefore(b, a)
  {
    StrLessTotal(a.id, b.id);
  }

  /** `r` lists the entries of `scores`, each once, best first. */
  ghost predicate IsRanking(scores: map<string, real>, r: seq<Ranked>) {
    && StrictlySorted(RankBefore, r)
    && (forall i :: 0 <= i < |r| ==> r[i].id in scores && r[i].score == scores[r[i].id])
    && (forall id :: id in scores ==> exists i :: 0 <= i < |r| && r[i].id == id)
  }

  /** A ranking lists the higher score first, and of equal ones the id that is first in code-point order. */
  lemma RankingOrder(scores: map<string, real>, r: seq<Ranked>, i: nat, j: nat)
    requires IsRanking(scores, r) && i < j < |r|
    ensures scores[r[i].id] > scores[r[j].id]
         || (scores[r[i].id] == scores[r[j].id] && FirstDifferenceLess(r[i].id, r[j].id))
  {
    assert RankBefore(r[i], r[j]);
    StrLessIs(r[i].id, r[j].id);
  }

  lemma RankingDistinct(scores: map<string, real>, r: seq<Ranked>)
    requires IsRanking(scores, r)
    ensures forall i, j :: 0 <= i < j < |r| ==> r[i].id != r[j].id
    ensures |r| == |scores|
  {
    RankBeforeIsStrict();
    forall i, j | 0 <= i < j < |r| ensures r[i].id != r[j].id {
      assert RankBefore(r[i], r[j]) && !RankBefore(r[j], r[i]);
    }
    RankingSize(r, scores.Keys);
    assert |scores| == |scores.Keys|;
  }

  lemma {:induction false} RankingSize(r: seq<Ranked>, ids: set<string>)
    requires forall i, j :: 0 <= i < j < |r| ==> r[i].id != r[j].id
    requires forall i :: 0 <= i < |r| ==> r[i].id in ids
    requires forall id :: id in ids ==> exists i :: 0 <= i < |r| && r[i].id == id
    ensures |r| == |ids|
  {
    if r == [] {
      assert ids == {};
    } else {
      var n := |r| - 1;
      var rest := ids - {r[n].id};
      forall id | id in rest ensures exists i :: 0 <= i < n && r[..n][i].id == id {
        var i :| 0 <= i < |r| && r[i].id == id;
        assert r[..n][i].id == id;
      }
      RankingSize(r[..n], rest);
    }
  }

  /** At most one sequence ranks a given score map. */
  lemma RankingUnique(scores: map<string, real>, a: seq<Ranked>, b: seq<Ranked>)
    requires IsRanking(scores, a) && IsRanking(scores, b)
    ensures a == b
  {
    RankBeforeIsStrict();
    RankingDistinct(scores, a);
    RankingDistinct(scores, b);
    RankingMultiset(scores, a);
    RankingMultiset(scores, b);
    SortedUnique(RankBefore, a, b);
  }

  ghost function Entries(scores: map<string, real>): set<Ranked> {
    set id | id in scores :: Ranked(id, scores[id])
  }

  lemma RankingMultiset(scores: map<string, real>, r: seq<Ranked>)
    requires IsRanking(scores, r)
    ensures multiset(r) == multiset(Entries(scores))
  {
    RankingDistinct(scores, r);
    DistinctMultiset(r);
    assert (set x | x in r) == Entries(scores) by {
      forall e | e in Entries(scores) ensures e in r {
        var i :| 0 <= i < |r| && r[i].id == e.id;
        assert r[i] == e;
      }
      forall e | e in r ensures e in Entries(scores) {
        var i :| 0 <= i < |r| && r[i] == e;
        assert r[i].id in scores;
      }
    }
  }

  lemma {:induction false} DistinctMultiset<T>(r: seq<T>)
    requires Distinct(r)
    ensures multiset(r) == multiset(set x | x in r)
  {
    if r != [] {
      var n := |r| - 1;
      DistinctMultiset(r[..n]);
      assert r == r[..n] + [r[n]];
      assert (set x | x in r) == (set x | x in r[..n]) + {r[n]};
      assert r[n] !in r[..n];
    }
  }

  /** The items of a score dictionary, as `dict.items()` lists them. */
  function Items(scores: Dict<real>): (r: seq<Ranked>)
    requires forall k :: k in scores.keys ==> k in scores.m
    ensures |r| == |scores.keys|
  {
    seq(|scores.keys|, i requires 0 <= i < |scores.keys| => Ranked(scores.keys[i], scores.m[scores.keys[i]]))
  }

  lemma ItemsPut(scores: Dict<real>, k: string, v: real)
    requires scores.Valid() && k !in scores.m
    ensures Items(scores.Put(k, v)) == Items(scores) + [Ranked(k, v)]
  {
  }

  /** Sorting the items of a dictionary by `(-score, id)` ranks it, whatever its key order. */
  lemma SortedItemsRank(scores: Dict<real>)
    requires scores.Valid()
    ensures IsRanking(scores.m, SortBy(RankBefore, Items(scores)))
  {
    var items := Items(scores);
    RankBeforeIsStrict();
    forall i, j | 0 <= i < j < |items| ensures RankBefore(items[i], items[j]) || RankBefore(items[j], items[i]) {
      RankBeforeConnected(items[i], items[j]);
    }
    SortSorted(RankBefore, items);
    SortMembers(RankBefore, items);
    var r := SortBy(RankBefore, items);
    forall i | 0 <= i < |r| ensures r[i].id in scores.m && r[i].score == scores.m[r[i].id] {
      assert r[i] in multiset(r);
      assert r[i] in items;
    }
    forall id | id in scores.m ensures exists i :: 0 <= i < |r| && r[i].id == id {
      var k :| 0 <= k < |scores.keys| && scores.keys[k] == id;
      assert items[k] in multiset(items);
      assert items[k] in multiset(r);
      var i :| 0 <= i < |r| && r[i] == items[k];
    }
  }

  lemma {:induction false} RankingExists(scores: map<string, real>)
    ensures exists r :: IsRanking(scores, r)
  {
    var d := DictOf(scores);
    SortedItemsRank(d);
  }

  ghost function DictOf(scores: map<string, real>): (d: Dict<real>)
    ensures d.Valid() && d.m == scores
  {
    if scores == map[] then EmptyScores()
    else
      var k :| k in scores;
      assert (scores - {k})[k := scores[k]] == scores;
      DictOf(scores - {k}).Put(k, scores[k])
  }

  ghost function EmptyScores(): (d: Dict<real>)
    ensures d.Valid() && d.m == map[]
  {
    Dict([], map[])
  }

  /** The one ranking of `scores`. */
  ghost function RankingOf(scores: map<string, real>): (r: seq<Ranked>)
    ensures IsRanking(scores, r)
  {
    RankingExists(scores);
    var r :| IsRanking(scores, r);
    r
  }

  ghost predicate ComesBefore(r: seq<Ranked>, a: string, b: string) {
    exists i, j :: 0 <= i < j < |r| && r[i].id == a && r[j].id == b
  }

  lemma HigherScoreFirst(scores: map<string, real>, r: seq<Ranked>, a: string, b: string)
    requires IsRanking(scores, r)
    requires a in scores && b in scores && scores[a] > scores[b]
    ensures ComesBefore(r, a, b)
  {
    var i :| 0 <= i < |r| && r[i].id == a;
    var j :| 0 <= j < |r| && r[j].id == b;
    assert forall p, q :: 0 <= p < q < |r| ==> RankBefore(r[p], r[q]);
    assert i < j;
  }

  lemma EmptyRanking()
    ensures RankingOf(map[]) == []
  {
    RankingDistinct(map[], RankingOf(map[]));
  }

  function Take<T>(s: seq<T>, n: nat): (r: seq<T>)
    ensures |r| <= n && r <= s
  {
    if n <= |s| then s[..n] else s
  }
}
