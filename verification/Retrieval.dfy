/**
 Similarity and ranking of src/ai/retrievalService.ts in exact reals. `Math.sqrt` is a parameter, taken to return the
 nonnegative root of every nonnegative number.
 */
module Retrieval {
  import opened Sorting

  type Vector = seq<real>

  ghost predicate IsSqrt(sqrt: real -> real) {
    forall x :: x >= 0.0 ==> sqrt(x) >= 0.0 && sqrt(x) * sqrt(x) == x
  }

  // ---- Inner products ----

  function Times(x: real, y: real): real {
    x * y
  }

  function Dot(a: Vector, b: Vector): real
    requires |a| == |b|
  {
    if a == [] then 0.0 else Dot(a[..|a| - 1], b[..|b| - 1]) + Times(a[|a| - 1], b[|b| - 1])
  }

  lemma SameSign(x: real, y: real)
    requires (x > 0.0 && y > 0.0) || (x < 0.0 && y < 0.0)
    ensures Times(x, y) > 0.0
  {
    if x < 0.0 {
      assert (-x) * (-y) > 0.0;
      assert x * y == (-x) * (-y);
    }
  }

  lemma SquareSign(x: real)
    ensures x == 0.0 ==> Times(x, x) == 0.0
    ensures x != 0.0 ==> Times(x, x) > 0.0
  {
    if x != 0.0 {
      SameSign(x, x);
    }
  }

  lemma {:induction false} SquaresNonnegative(a: Vector)
    ensures Dot(a, a) >= 0.0
  {
    hide Times;
    if a != [] {
      SquaresNonnegative(a[..|a| - 1]);
      SquareSign(a[|a| - 1]);
    }
  }

  lemma {:induction false} NormZero(a: Vector, i: nat)
    requires i < |a| && Dot(a, a) == 0.0
    ensures a[i] == 0.0
  {
    hide Times;
    var k := |a| - 1;
    SquaresNonnegative(a[..k]);
    SquareSign(a[k]);
    if i < k {
      NormZero(a[..k], i);
    }
  }

  lemma {:induction false} ZeroDot(a: Vector, b: Vector)
    requires |a| == |b| && forall i :: 0 <= i < |a| ==> a[i] == 0.0
    ensures Dot(a, b) == 0.0
  {
    if a != [] {
      ZeroDot(a[..|a| - 1], b[..|b| - 1]);
    }
  }

  // ---- Linear combinations ----

  function Linear(x: real, u: real, y: real, v: real): real {
    x * u + y * v
  }

  function Combine(a: Vector, b: Vector, x: real, y: real): (r: Vector)
    requires |a| == |b|
    ensures |r| == |a| && forall i :: 0 <= i < |r| ==> r[i] == Linear(x, a[i], y, b[i])
  {
    seq(|a|, i requires 0 <= i < |a| => Linear(x, a[i], y, b[i]))
  }

  /** The square of a combination whose squares are `n` and `m` and whose product is `d`. */
  function Quadratic(x: real, y: real, n: real, d: real, m: real): real {
    x * x * n + 2.0 * (x * y) * d + y * y * m
  }

  lemma QuadraticAdds(x: real, y: real, n: real, d: real, m: real, u: real, v: real)
    ensures Quadratic(x, y, n + Times(u, u), d + Times(u, v), m + Times(v, v)) ==
            Quadratic(x, y, n, d, m) + Times(Linear(x, u, y, v), Linear(x, u, y, v))
  {
    Distribute(x * x, n, u * u);
    Distribute(2.0 * (x * y), d, u * v);
    Distribute(y * y, m, v * v);
    BinomialSquare(x * u, y * v);
    assert (x * u) * (x * u) == x * x * (u * u);
    assert (x * u) * (y * v) == (x * y) * (u * v);
    assert (y * v) * (x * u) == (x * y) * (u * v);
    assert (y * v) * (y * v) == y * y * (v * v);
  }

  lemma Distribute(c: real, p: real, q: real)
    ensures c * (p + q) == c * p + c * q
  {
  }

  lemma BinomialSquare(p: real, q: real)
    ensures (p + q) * (p + q) == p * p + p * q + q * p + q * q
  {
  }

  lemma {:induction false} CombineExpands(a: Vector, b: Vector, x: real, y: real)
    requires |a| == |b|
    ensures Dot(Combine(a, b, x, y), Combine(a, b, x, y)) == Quadratic(x, y, Dot(a, a), Dot(a, b), Dot(b, b))
  {
    hide Times, Linear, Quadratic;
    if a == [] {
      QuadraticZero(x, y);
    } else {
      var k := |a| - 1;
      CombineExpands(a[..k], b[..k], x, y);
      var c := Combine(a, b, x, y);
      assert c[..k] == Combine(a[..k], b[..k], x, y);
      QuadraticAdds(x, y, Dot(a[..k], a[..k]), Dot(a[..k], b[..k]), Dot(b[..k], b[..k]), a[k], b[k]);
    }
  }

  lemma QuadraticZero(x: real, y: real)
    ensures Quadratic(x, y, 0.0, 0.0, 0.0) == 0.0
  {
  }

  /** Cauchy-Schwarz for the accumulators of the loop. */
  lemma CauchySchwarz(a: Vector, b: Vector)
    requires |a| == |b|
    ensures Dot(a, b) * Dot(a, b) <= Dot(a, a) * Dot(b, b)
  {
    hide Dot, Quadratic;
    var d, n, m := Dot(a, b), Dot(a, a), Dot(b, b);
    SquaresNonnegative(a);
    if n == 0.0 {
      forall i | 0 <= i < |a|
        ensures a[i] == 0.0
      {
        NormZero(a, i);
      }
      ZeroDot(a, b);
    } else {
      CombineExpands(a, b, d, -n);
      SquaresNonnegative(Combine(a, b, d, -n));
      AtMinusNorm(d, n, m);
      if n * m - d * d < 0.0 {
        NegativeProduct(n, n * m - d * d);
      }
    }
  }

  lemma AtMinusNorm(d: real, n: real, m: real)
    ensures Quadratic(d, -n, n, d, m) == n * (n * m - d * d)
  {
    assert 2.0 * (d * (-n)) * d == -2.0 * (d * d * n);
    assert (-n) * (-n) * m == n * (n * m);
    assert d * d * n == n * (d * d);
    Distribute(n, n * m, -(d * d));
  }

  lemma NegativeProduct(p: real, q: real)
    requires p > 0.0 && q < 0.0
    ensures p * q < 0.0
  {
  }

  // ---- Cosine similarity ----

  function Similarity(a: Vector, b: Vector, sqrt: real -> real): real {
    if a == [] || |a| != |b| || Dot(a, a) == 0.0 || Dot(b, b) == 0.0
       || sqrt(Dot(a, a)) * sqrt(Dot(b, b)) == 0.0 then 0.0
    else Dot(a, b) / (sqrt(Dot(a, a)) * sqrt(Dot(b, b)))
  }

  method CosineSimilarity(a: Vector, b: Vector, sqrt: real -> real) returns (r: real)
    requires IsSqrt(sqrt)
    ensures r == Similarity(a, b, sqrt)
  {
    hide Dot;
    DotNothing();
    if |a| == 0 || |b| == 0 || |a| != |b| {
      return 0.0;
    }
    var dot, normA, normB := 0.0, 0.0, 0.0;
    var i := 0;
    while i < |a|
      invariant 0 <= i <= |a|
      invariant dot == Dot(a[..i], b[..i]) && normA == Dot(a[..i], a[..i]) && normB == Dot(b[..i], b[..i])
    {
      DotSnoc(a, b, i);
      DotSnoc(a, a, i);
      DotSnoc(b, b, i);
      dot := dot + a[i] * b[i];
      normA := normA + a[i] * a[i];
      normB := normB + b[i] * b[i];
      i := i + 1;
    }
    assert a[..i] == a && b[..i] == b;
    if normA == 0.0 || normB == 0.0 {
      return 0.0;
    }
    RootsPositive(a, b, sqrt);
    r := dot / (sqrt(normA) * sqrt(normB));
  }

  lemma DotNothing()
    ensures Dot([], []) == 0.0
  {
  }

  lemma DotSnoc(a: Vector, b: Vector, i: nat)
    requires i < |a| == |b|
    ensures Dot(a[..i + 1], b[..i + 1]) == Dot(a[..i], b[..i]) + a[i] * b[i]
  {
    assert a[..i + 1][..i] == a[..i] && b[..i + 1][..i] == b[..i];
  }

  lemma RootPositive(x: real, sqrt: real -> real)
    requires IsSqrt(sqrt) && x > 0.0
    ensures sqrt(x) > 0.0 && sqrt(x) * sqrt(x) == x
  {
    assert sqrt(x) * sqrt(x) == x;
  }

  lemma RootsPositive(a: Vector, b: Vector, sqrt: real -> real)
    requires IsSqrt(sqrt) && Dot(a, a) != 0.0 && Dot(b, b) != 0.0
    ensures Dot(a, a) > 0.0 && Dot(b, b) > 0.0
    ensures sqrt(Dot(a, a)) * sqrt(Dot(b, b)) > 0.0
    ensures (sqrt(Dot(a, a)) * sqrt(Dot(b, b))) * (sqrt(Dot(a, a)) * sqrt(Dot(b, b))) == Dot(a, a) * Dot(b, b)
  {
    SquaresNonnegative(a);
    SquaresNonnegative(b);
    RootPositive(Dot(a, a), sqrt);
    RootPositive(Dot(b, b), sqrt);
    SquareOfProduct(sqrt(Dot(a, a)), sqrt(Dot(b, b)), Dot(a, a), Dot(b, b));
  }

  lemma SquareOfProduct(s: real, t: real, n: real, m: real)
    requires s > 0.0 && t > 0.0 && s * s == n && t * t == m
    ensures s * t > 0.0 && (s * t) * (s * t) == n * m
  {
    assert (s * t) * (s * t) == (s * s) * (t * t);
  }

  /** The similarity of any two vectors lies between -1 and 1. */
  lemma SimilarityRange(a: Vector, b: Vector, sqrt: real -> real)
    requires IsSqrt(sqrt)
    ensures -1.0 <= Similarity(a, b, sqrt) <= 1.0
  {
    hide Dot;
    if a != [] && |a| == |b| && Dot(a, a) != 0.0 && Dot(b, b) != 0.0 {
      RootsPositive(a, b, sqrt);
      CauchySchwarz(a, b);
      QuotientInRange(Dot(a, b), sqrt(Dot(a, a)) * sqrt(Dot(b, b)));
    }
  }

  lemma QuotientInRange(d: real, p: real)
    requires p > 0.0 && d * d <= p * p
    ensures -1.0 <= d / p <= 1.0
  {
    if d > p {
      SquareGrows(p, d);
    }
    if -d > p {
      SquareGrows(p, -d);
    }
    Divide(d, p);
  }

  lemma SquareGrows(p: real, q: real)
    requires 0.0 < p < q
    ensures p * p < q * q
  {
    assert p * p < p * q < q * q;
  }

  lemma Divide(d: real, p: real)
    requires p > 0.0 && -p <= d <= p
    ensures -1.0 <= d / p <= 1.0
  {
  }

  lemma {:induction false} DotSymmetric(a: Vector, b: Vector)
    requires |a| == |b|
    ensures Dot(a, b) == Dot(b, a)
  {
    if a != [] {
      DotSymmetric(a[..|a| - 1], b[..|b| - 1]);
    }
  }

  lemma SimilaritySymmetric(a: Vector, b: Vector, sqrt: real -> real)
    ensures Similarity(a, b, sqrt) == Similarity(b, a, sqrt)
  {
    hide Dot;
    if |a| == |b| {
      DotSymmetric(a, b);
    }
  }

  /** A vector that is not zero is at similarity 1 with itself. */
  lemma SimilarityOfSelf(a: Vector, sqrt: real -> real)
    requires IsSqrt(sqrt) && exists i :: 0 <= i < |a| && a[i] != 0.0
    ensures Similarity(a, a, sqrt) == 1.0
  {
    hide Dot;
    var i :| 0 <= i < |a| && a[i] != 0.0;
    SquaresNonnegative(a);
    if Dot(a, a) == 0.0 {
      NormZero(a, i);
    }
    RootPositive(Dot(a, a), sqrt);
    OverItself(Dot(a, a));
  }

  lemma OverItself(x: real)
    requires x > 0.0
    ensures x / x == 1.0
  {
  }

  // ---- Ranking ----

  /** A row with its parsed embedding, and what is returned for it. */
  datatype ChunkRow = ChunkRow(id: string, documentId: string, content: string, embedding: Vector)

  datatype Chunk = Chunk(id: string, documentId: string, content: string, similarity: real)

  const BY_SIMILARITY: (Chunk, Chunk) -> bool := (x: Chunk, y: Chunk) => x.similarity >= y.similarity

  /** `.sort((a, b) => b.similarity - a.similarity).slice(0, limit)` */
  function TopChunks(rows: seq<Chunk>, limit: nat): seq<Chunk> {
    var sorted := Sort(rows, BY_SIMILARITY);
    if limit < |sorted| then sorted[..limit] else sorted
  }

  lemma CutDescends(top: seq<Chunk>)
    requires SortedBy(top, BY_SIMILARITY)
    ensures forall i, j :: 0 <= i < j < |top| ==> top[i].similarity >= top[j].similarity
  {
    forall i, j | 0 <= i < j < |top|
      ensures top[i].similarity >= top[j].similarity
    {
      assert BY_SIMILARITY(top[i], top[j]);
    }
  }

  /** The cut keeps `min(limit, n)` rows, best first, and no dropped row beats a kept one. */
  lemma TopChunksAreBest(rows: seq<Chunk>, limit: nat) returns (dropped: seq<Chunk>)
    ensures |TopChunks(rows, limit)| == if limit < |rows| then limit else |rows|
    ensures multiset(TopChunks(rows, limit)) + multiset(dropped) == multiset(rows)
    ensures var top := TopChunks(rows, limit);
            forall i, j :: 0 <= i < j < |top| ==> top[i].similarity >= top[j].similarity
    ensures forall x, y :: x in TopChunks(rows, limit) && y in dropped ==> x.similarity >= y.similarity
  {
    hide Sort, SortedBy;
    var sorted := Sort(rows, BY_SIMILARITY);
    SortSorts(rows, BY_SIMILARITY);
    assert |multiset(sorted)| == |sorted| && |multiset(rows)| == |rows|;
    var n := if limit < |sorted| then limit else |sorted|;
    dropped := sorted[n..];
    assert TopChunks(rows, limit) == sorted[..n];
    CutSorted(sorted, n, BY_SIMILARITY);
    CutDescends(sorted[..n]);
    forall x, y | x in sorted[..n] && y in dropped
      ensures x.similarity >= y.similarity
    {
      assert BY_SIMILARITY(x, y);
    }
  }

  function Ranked(query: Vector, row: ChunkRow, sqrt: real -> real): Chunk {
    Chunk(row.id, row.documentId, row.content, Similarity(query, row.embedding, sqrt))
  }

  function AllRanked(query: Vector, rows: seq<ChunkRow>, sqrt: real -> real): (r: seq<Chunk>)
    ensures |r| == |rows| && forall i :: 0 <= i < |r| ==> r[i] == Ranked(query, rows[i], sqrt)
  {
    seq(|rows|, i requires 0 <= i < |rows| => Ranked(query, rows[i], sqrt))
  }

  /** `retrieveTopKnowledgeChunks`, from the query's embedding and the fetched rows on. */
  function RetrieveTop(query: Vector, rows: seq<ChunkRow>, limit: nat, sqrt: real -> real): seq<Chunk> {
    TopChunks(AllRanked(query, rows, sqrt), limit)
  }

  /**
   Every returned chunk is a row with its own similarity, between -1 and 1, and a row that is not returned is no more
   similar to the query than any that is.
   */
  lemma RetrievedAreNearest(query: Vector, rows: seq<ChunkRow>, limit: nat, sqrt: real -> real)
    requires IsSqrt(sqrt)
    ensures var top := RetrieveTop(query, rows, limit, sqrt);
            && |top| == (if limit < |rows| then limit else |rows|)
            && (forall c :: c in top ==>
                  -1.0 <= c.similarity <= 1.0 && exists i :: 0 <= i < |rows| && c == Ranked(query, rows[i], sqrt))
            && forall i, c :: 0 <= i < |rows| && Ranked(query, rows[i], sqrt) !in top && c in top
                 ==> c.similarity >= Similarity(query, rows[i].embedding, sqrt)
  {
    hide TopChunks, Similarity, IsSqrt;
    var all, top := AllRanked(query, rows, sqrt), RetrieveTop(query, rows, limit, sqrt);
    var dropped := TopChunksAreBest(all, limit);
    forall c | c in top
      ensures -1.0 <= c.similarity <= 1.0 && exists i :: 0 <= i < |rows| && c == Ranked(query, rows[i], sqrt)
    {
      assert c in multiset(top) && c in multiset(all);
      var i :| 0 <= i < |all| && all[i] == c;
      SimilarityRange(query, rows[i].embedding, sqrt);
    }
    forall i, c | 0 <= i < |rows| && Ranked(query, rows[i], sqrt) !in top && c in top
      ensures c.similarity >= Similarity(query, rows[i].embedding, sqrt)
    {
      assert all[i] in multiset(all) && all[i] in multiset(dropped);
    }
  }

  /** The law of cosines: the similarity is the cosine of the angle between the two vectors. */
  lemma LawOfCosines(a: Vector, b: Vector, sqrt: real -> real)
    requires IsSqrt(sqrt) && |a| == |b| && Dot(a, a) != 0.0 && Dot(b, b) != 0.0
    ensures var c := Combine(a, b, 1.0, -1.0);
            Dot(c, c) == Dot(a, a) + Dot(b, b) - 2.0 * (Similarity(a, b, sqrt) * (sqrt(Dot(a, a)) * sqrt(Dot(b, b))))
  {
    hide Dot;
    RootsPositive(a, b, sqrt);
    CombineExpands(a, b, 1.0, -1.0);
    var p := sqrt(Dot(a, a)) * sqrt(Dot(b, b));
    assert a != [] by { NoEntries(); }
    assert Dot(a, b) / p * p == Dot(a, b);
    OneMinusOne(Dot(a, a), Dot(a, b), Dot(b, b));
  }

  lemma NoEntries()
    ensures Dot([], []) == 0.0
  {
  }

  lemma OneMinusOne(n: real, d: real, m: real)
    ensures Quadratic(1.0, -1.0, n, d, m) == n - 2.0 * d + m
  {
  }

  /** `Dot(a, a)` is the sum of the squares, entry by entry. */
  lemma NormSnoc(a: Vector, x: real)
    ensures Dot([], []) == 0.0 && Dot(a + [x], a + [x]) == Dot(a, a) + x * x
  {
    assert (a + [x])[..|a|] == a;
  }
}
