// The cosine similarity of the in-memory vector store (infra/providers/fakes/vector_store.py:51-58), over
// exact arithmetic with the square root as a parameter.

module Cosine {
  import opened Prelude
  import opened VectorStore

  function Dot(a: seq<real>, b: seq<real>): real
    requires |a| == |b|
  {
    if a == [] then 0.0 else Dot(a[..|a| - 1], b[..|b| - 1]) + a[|a| - 1] * b[|b| - 1]
  }

  /** `math.sqrt` on exact numbers. */
  ghost predicate IsSqrt(sqrt: real -> real) {
    forall x: real :: x >= 0.0 ==> sqrt(x) >= 0.0 && sqrt(x) * sqrt(x) == x
  }

  /** `None` is the error of a strict zip over vectors of different lengths; a zero vector has similarity 0. */
  function Cosine(sqrt: real -> real, a: seq<real>, b: seq<real>): Option<real> {
    if |a| != |b| then None
    else
      Some(Ratio(Dot(a, b), sqrt(Dot(a, a)), sqrt(Dot(b, b))))
  }

  function Ratio(dot: real, normA: real, normB: real): real {
    if normA == 0.0 || normB == 0.0 then 0.0 else dot / (normA * normB)
  }

  method CosineSimilarity(sqrt: real -> real, a: seq<real>, b: seq<real>) returns (r: Option<real>)
    ensures r == Cosine(sqrt, a, b)
  {
    if |a| != |b| {
      return None;
    }
    var dot, squaresA, squaresB := 0.0, 0.0, 0.0;
    for i := 0 to |a|
      invariant dot == Dot(a[..i], b[..i]) && squaresA == Dot(a[..i], a[..i]) && squaresB == Dot(b[..i], b[..i])
    {
      assert a[..i + 1][..i] == a[..i] && b[..i + 1][..i] == b[..i];
      dot := dot + a[i] * b[i];
      squaresA := squaresA + a[i] * a[i];
      squaresB := squaresB + b[i] * b[i];
    }
    assert a[..|a|] == a && b[..|b|] == b;
    r := Some(Ratio(dot, sqrt(squaresA), sqrt(squaresB)));
  }

  lemma {:induction false} SquaresNonNegative(a: seq<real>)
    ensures Dot(a, a) >= 0.0
  {
    if a != [] {
      SquaresNonNegative(a[..|a| - 1]);
      SquareNonNegative(a[|a| - 1]);
    }
  }

  lemma SquareNonNegative(x: real)
    ensures x * x >= 0.0
  {
  }

  /** From |x| >= 0 and x * x >= y * y it follows that x >= y. */
  lemma RootOrder(x: real, y: real)
    requires x >= 0.0 && x * x >= y * y
    ensures -x <= y <= x
  {
    assert y * y - x * x == (y - x) * (y + x) == (-y - x) * (-y + x);
    if y > x {
      PositiveProduct(y - x, y + x);
    } else if y < -x {
      PositiveProduct(-y - x, -y + x);
    }
  }

  lemma PositiveProduct(a: real, b: real)
    requires a > 0.0 && b > 0.0
    ensures a * b > 0.0
  {
  }

  /** The step of the Cauchy-Schwarz inequality: one more coordinate. */
  lemma CauchyStep(s: real, t: real, d: real, x: real, y: real)
    requires s >= 0.0 && t >= 0.0 && d * d <= s * t
    ensures (d + x * y) * (d + x * y) <= (s + x * x) * (t + y * y)
  {
    var cross, mixed := 2.0 * d * (x * y), s * (y * y) + t * (x * x);
    CrossBelowMixed(s, t, d, x, y);
    assert (d + x * y) * (d + x * y) == d * d + cross + (x * y) * (x * y);
    assert (s + x * x) * (t + y * y) == s * t + mixed + (x * x) * (y * y);
    assert (x * y) * (x * y) == (x * x) * (y * y);
  }

  lemma CrossBelowMixed(s: real, t: real, d: real, x: real, y: real)
    requires s >= 0.0 && t >= 0.0 && d * d <= s * t
    ensures 2.0 * d * (x * y) <= s * (y * y) + t * (x * x)
  {
    var p, q, c := s * (y * y), t * (x * x), 2.0 * d * (x * y);
    SquareNonNegative(x);
    SquareNonNegative(y);
    SquareNonNegative(x * y);
    SquareNonNegative(p - q);
    Product(s, y * y);
    Product(t, x * x);
    assert c * c == 4.0 * ((d * d) * ((x * y) * (x * y)));
    MulOrder(d * d, s * t, (x * y) * (x * y));
    assert (s * t) * ((x * y) * (x * y)) == p * q;
    assert (p + q) * (p + q) == (p - q) * (p - q) + 4.0 * (p * q);
    RootOrder(p + q, c);
  }

  lemma Product(a: real, b: real)
    requires a >= 0.0 && b >= 0.0
    ensures a * b >= 0.0
  {
  }

  lemma MulOrder(a: real, b: real, k: real)
    requires a <= b && k >= 0.0
    ensures a * k <= b * k
  {
    Product(b - a, k);
    assert (b - a) * k == b * k - a * k;
  }

  /** Cauchy-Schwarz. */
  lemma {:induction false} CauchySchwarz(a: seq<real>, b: seq<real>)
    requires |a| == |b|
    ensures Dot(a, b) * Dot(a, b) <= Dot(a, a) * Dot(b, b)
  {
    if a != [] {
      var n := |a| - 1;
      CauchySchwarz(a[..n], b[..n]);
      SquaresNonNegative(a[..n]);
      SquaresNonNegative(b[..n]);
      CauchyStep(Dot(a[..n], a[..n]), Dot(b[..n], b[..n]), Dot(a[..n], b[..n]), a[n], b[n]);
    }
  }

  lemma RatioBounds(dot: real, normA: real, normB: real)
    requires normA >= 0.0 && normB >= 0.0 && dot * dot <= (normA * normA) * (normB * normB)
    ensures -1.0 <= Ratio(dot, normA, normB) <= 1.0
  {
    if normA > 0.0 && normB > 0.0 {
      var d, r := normA * normB, Ratio(dot, normA, normB);
      PositiveProduct(normA, normB);
      assert d * d == (normA * normA) * (normB * normB);
      RootOrder(d, dot);
      assert r * d == dot;
      assert (r - 1.0) * d == r * d - d && (-1.0 - r) * d == -d - r * d;
      if r > 1.0 {
        PositiveProduct(r - 1.0, d);
      } else if r < -1.0 {
        PositiveProduct(-1.0 - r, d);
      }
    }
  }

  /** A similarity lies between -1 and 1. */
  lemma CosineBounds(sqrt: real -> real, a: seq<real>, b: seq<real>)
    requires IsSqrt(sqrt) && |a| == |b|
    ensures Cosine(sqrt, a, b).Some? && -1.0 <= Cosine(sqrt, a, b).value <= 1.0
  {
    SquaresNonNegative(a);
    SquaresNonNegative(b);
    CauchySchwarz(a, b);
    RatioBounds(Dot(a, b), sqrt(Dot(a, a)), sqrt(Dot(b, b)));
  }

  /** A vector that is not zero has similarity 1 with itself. */
  lemma CosineSelf(sqrt: real -> real, a: seq<real>)
    requires IsSqrt(sqrt)
    ensures Cosine(sqrt, a, a) == Some(if Dot(a, a) == 0.0 then 0.0 else 1.0)
  {
    SquaresNonNegative(a);
    var d, n := Dot(a, a), sqrt(Dot(a, a));
    assert n * n == d;
    if d > 0.0 {
      assert n != 0.0;
      assert Ratio(d, n, n) == d / d && d / d == 1.0;
    } else if n > 0.0 {
      PositiveProduct(n, n);
    }
  }

  /** Dot products add up over the coordinates. */
  lemma {:induction false} DotConcat(a: seq<real>, b: seq<real>, c: seq<real>, d: seq<real>)
    requires |a| == |b| && |c| == |d|
    ensures Dot(a + c, b + d) == Dot(a, b) + Dot(c, d)
  {
    if c == [] {
      assert a + c == a && b + d == b;
    } else {
      var n := |c| - 1;
      assert (a + c)[..|a + c| - 1] == a + c[..n] && (b + d)[..|b + d| - 1] == b + d[..n];
      DotConcat(a, b, c[..n], d[..n]);
    }
  }

  /** Of one coordinate each the dot product is the product. */
  lemma DotOne(x: real, y: real)
    ensures Dot([x], [y]) == x * y
  {
    assert [x][..0] == [] && [y][..0] == [];
  }

  lemma RatioIs(dot: real, normA: real, normB: real)
    requires normA > 0.0 && normB > 0.0
    ensures Ratio(dot, normA, normB) * (normA * normB) == dot
    ensures dot >= 0.0 <==> Ratio(dot, normA, normB) >= 0.0
  {
    PositiveProduct(normA, normB);
    var r, d := Ratio(dot, normA, normB), normA * normB;
    assert r * d == dot;
    if r < 0.0 {
      PositiveProduct(-r, d);
    } else {
      Product(r, d);
    }
  }

  lemma RootPositive(root: real, x: real)
    requires root >= 0.0 && root * root == x
    ensures x == 0.0 <==> root == 0.0
  {
    if root > 0.0 { assert x / root == root; }
  }

  lemma SquareOfProduct(r: real, p: real, q: real)
    ensures (r * (p * q)) * (r * (p * q)) == r * r * ((p * p) * (q * q))
  {
    assert (p * q) * (p * q) == (p * p) * (q * q);
    assert (r * (p * q)) * (r * (p * q)) == r * r * ((p * q) * (p * q));
  }

  /** The dot product over the norms, without roots: the square of the similarity times both squared norms is the
      squared dot product, and it has the dot product's sign. With a zero vector it is 0. */
  ghost predicate LawOfCosine(c: real, dot: real, squaresA: real, squaresB: real) {
    if squaresA == 0.0 || squaresB == 0.0 then c == 0.0
    else c * c * (squaresA * squaresB) == dot * dot && (c >= 0.0 <==> dot >= 0.0)
  }

  lemma RatioSquared(dot: real, p: real, q: real)
    requires p > 0.0 && q > 0.0
    ensures LawOfCosine(Ratio(dot, p, q), dot, p * p, q * q)
  {
    RatioIs(dot, p, q);
    SquareOfProduct(Ratio(dot, p, q), p, q);
  }

  lemma RootsOut(dot: real, p: real, q: real, squaresA: real, squaresB: real)
    requires p >= 0.0 && q >= 0.0 && p * p == squaresA && q * q == squaresB
    ensures LawOfCosine(Ratio(dot, p, q), dot, squaresA, squaresB)
  {
    RootPositive(p, squaresA);
    RootPositive(q, squaresB);
    if p > 0.0 && q > 0.0 { RatioSquared(dot, p, q); }
  }

  /** What the similarity is: 0 with a zero vector, and else the dot product over the norms. */
  lemma CosineIs(sqrt: real -> real, a: seq<real>, b: seq<real>)
    requires IsSqrt(sqrt) && |a| == |b|
    ensures Cosine(sqrt, a, b).Some?
    ensures LawOfCosine(Cosine(sqrt, a, b).value, Dot(a, b), Dot(a, a), Dot(b, b))
  {
    SquaresNonNegative(a);
    SquaresNonNegative(b);
    var dot, squaresA, squaresB := Dot(a, b), Dot(a, a), Dot(b, b);
    RootsOut(dot, sqrt(squaresA), sqrt(squaresB), squaresA, squaresB);
  }

  // ----- Searching by cosine ------------------------------------------------------------------

  /** The similarity the store searches by, where all embeddings have one length. */
  function CosineOf(sqrt: real -> real): Similarity {
    (a: seq<real>, b: seq<real>) => var r := Cosine(sqrt, a, b); if r.Some? then r.value else 0.0
  }

  ghost predicate SameLength(store: Dict<VectorRecord>, query: seq<real>) {
    forall k :: k in store.m ==> |store.m[k].embedding| == |query|
  }

  /** Every hit scores its record's cosine similarity with the query, between -1 and 1. */
  lemma CosineHits(sqrt: real -> real, store: Dict<VectorRecord>, query: seq<real>, topK: nat, filter: Filter, i: nat)
    requires IsSqrt(sqrt) && KeyedById(store) && SameLength(store, query)
    requires i < |DenseSpec(store, CosineOf(sqrt), query, topK, filter)|
    ensures
      var hit := DenseSpec(store, CosineOf(sqrt), query, topK, filter)[i];
      && hit.id in store.m && Cosine(sqrt, query, store.m[hit.id].embedding) == Some(hit.score)
      && -1.0 <= hit.score <= 1.0
  {
    HitIsRecord(store, CosineOf(sqrt), query, topK, filter, i);
    var hit := DenseSpec(store, CosineOf(sqrt), query, topK, filter)[i];
    CosineBounds(sqrt, query, store.m[hit.id].embedding);
  }

  /** A record embedded like the query brings a hit of similarity 1 to the top. */
  lemma SameEmbeddingOnTop(sqrt: real -> real, store: Dict<VectorRecord>, query: seq<real>, topK: nat, filter: Filter,
      k: string)
    requires IsSqrt(sqrt) && KeyedById(store) && SameLength(store, query) && topK > 0
    requires k in PassingIds(store, filter) && store.m[k].embedding == query && Dot(query, query) != 0.0
    ensures
      var hits := DenseSpec(store, CosineOf(sqrt), query, topK, filter);
      hits != [] && hits[0].score == 1.0
  {
    var sim := CosineOf(sqrt);
    var hits := DenseSpec(store, sim, query, topK, filter);
    CosineSelf(sqrt, query);
    if forall i :: 0 <= i < |hits| ==> hits[i].id != k {
      LeftOutIsWorse(store, sim, query, topK, filter, k);
    } else {
      var i :| 0 <= i < |hits| && hits[i].id == k;
      HitIsRecord(store, sim, query, topK, filter, i);
      if i > 0 { HitsOrdered(store, sim, query, topK, filter, 0, i); }
    }
    CosineHits(sqrt, store, query, topK, filter, 0);
  }
}
