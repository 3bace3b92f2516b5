/** The in-memory vector store: embeddings of one dimension, cosine similarity
    over exact reals, and search for the k most similar documents. The library
    square root is a parameter; each result says what it needs of it. */
module VectorStore {
  import opened Sorting
  import opened Vectors

  /** All that a search needs of the root: no division by zero. */
  ghost predicate IsPositive(root: real -> real) {
    forall x: real :: x > 0.0 ==> root(x) > 0.0
  }

  /** The root at x is not too small, as rounding up or stopping early leaves it. */
  predicate NotBelow(root: real -> real, x: real) {
    Sq(root(x)) >= x
  }

  predicate ExactAt(root: real -> real, x: real) {
    Sq(root(x)) == x
  }

  /** The loop runs to the end of the shorter vector. */
  function Overlap(a: Vector, b: Vector): nat {
    if |a| < |b| then |a| else |b|
  }

  function Quotient(root: real -> real, dot: real, p: real, q: real): real
    requires IsPositive(root) && p > 0.0 && q > 0.0
  {
    Ratio(dot, root(p), root(q))
  }

  function Similarity(root: real -> real, a: Vector, b: Vector): real
    requires IsPositive(root) && |a| == |b|
  {
    if NormSq(a) <= 0.0 || NormSq(b) <= 0.0 then 0.0 else Quotient(root, Dot(a, b), NormSq(a), NormSq(b))
  }

  function Cosine(root: real -> real, a: Vector, b: Vector): real
    requires IsPositive(root)
  {
    var n := Overlap(a, b);
    Similarity(root, a[..n], b[..n])
  }

  method CosineSimilarity(root: real -> real, a: Vector, b: Vector) returns (sim: real)
    requires IsPositive(root)
    ensures sim == Cosine(root, a, b)
  {
    var dotProduct, normA, normB := 0.0, 0.0, 0.0;
    var i := 0;
    while i < |a| && i < |b|
      invariant i <= Overlap(a, b)
      invariant dotProduct == Dot(a[..i], b[..i]) && normA == NormSq(a[..i]) && normB == NormSq(b[..i])
    {
      assert a[..i + 1][..i] == a[..i] && b[..i + 1][..i] == b[..i];
      dotProduct := dotProduct + a[i] * b[i];
      normA := normA + a[i] * a[i];
      normB := normB + b[i] * b[i];
      i := i + 1;
    }
    NormSqNonNegative(a[..i]);
    NormSqNonNegative(b[..i]);
    if normA == 0.0 || normB == 0.0 { return 0.0; }
    sim := Quotient(root, dotProduct, normA, normB);
  }

  // ----- what the similarity means -----

  /** The similarity times the two roots is the dot product of the common prefixes;
      it is 0 when either prefix has no length. */
  lemma CosineTimesRoots(root: real -> real, a: Vector, b: Vector)
    requires IsPositive(root)
    ensures var n := if |a| < |b| then |a| else |b|;
      var p, q := Dot(a[..n], a[..n]), Dot(b[..n], b[..n]);
      if p > 0.0 && q > 0.0 then Mul(Cosine(root, a, b), Mul(root(p), root(q))) == Dot(a[..n], b[..n])
      else Cosine(root, a, b) == 0.0
  {
    var n := Overlap(a, b);
    var p, q := NormSq(a[..n]), NormSq(b[..n]);
    if p > 0.0 && q > 0.0 { RatioTimes(Dot(a[..n], b[..n]), root(p), root(q)); }
  }

  /** A vector with some length is as similar to itself as can be. */
  lemma SelfCosine(root: real -> real, a: Vector)
    requires IsPositive(root) && Dot(a, a) > 0.0 && ExactAt(root, Dot(a, a))
    ensures Cosine(root, a, a) == 1.0
  {
    assert a[..|a|] == a;
    RatioOfSquare(NormSq(a), root(NormSq(a)));
  }

  lemma SimilarityBounded(root: real -> real, a: Vector, b: Vector)
    requires IsPositive(root) && |a| == |b| && NotBelow(root, NormSq(a)) && NotBelow(root, NormSq(b))
    ensures -1.0 <= Similarity(root, a, b) <= 1.0
  {
    var p, q := NormSq(a), NormSq(b);
    if p > 0.0 && q > 0.0 {
      CauchySchwarz(a, b);
      RatioWithin(Dot(a, b), p, q, root(p), root(q));
    }
  }

  /** For vectors of any length and a root never below the true one the similarity lies in [-1, 1]. */
  lemma CosineBounded(root: real -> real, a: Vector, b: Vector)
    requires IsPositive(root)
    requires NotBelow(root, NormSq(a[..Overlap(a, b)])) && NotBelow(root, NormSq(b[..Overlap(a, b)]))
    ensures -1.0 <= Cosine(root, a, b) <= 1.0
  {
    SimilarityBounded(root, a[..Overlap(a, b)], b[..Overlap(a, b)]);
  }

  lemma MulSymmetric(x: real, y: real)
    ensures Mul(x, y) == Mul(y, x)
  {}

  lemma CosineSymmetric(root: real -> real, a: Vector, b: Vector)
    requires IsPositive(root)
    ensures Cosine(root, a, b) == Cosine(root, b, a)
  {
    var n := Overlap(a, b);
    DotSymmetric(a[..n], b[..n]);
    MulSymmetric(root(NormSq(a[..n])), root(NormSq(b[..n])));
  }

  lemma {:induction false} ScalePrefix(c: real, a: Vector, n: nat)
    requires n <= |a|
    ensures Scale(c, a)[..n] == Scale(c, a[..n])
  {
    if n < |a| {
      ScalePrefix(c, a[..|a| - 1], n);
      assert a[..|a| - 1][..n] == a[..n];
      assert Scale(c, a)[..n] == Scale(c, a[..|a| - 1])[..n];
    } else {
      assert a[..n] == a && Scale(c, a)[..n] == Scale(c, a);
    }
  }

  lemma NormOfScale(c: real, a: Vector)
    ensures NormSq(Scale(c, a)) == Sq(c) * NormSq(a)
  {
    DotScale(c, a, Scale(c, a));
    DotSymmetric(a, Scale(c, a));
    DotScale(c, a, a);
  }

  lemma RootOfScaled(root: real -> real, c: real, p: real, scaled: real)
    requires IsPositive(root) && c > 0.0 && p > 0.0 && scaled == Sq(c) * p && ExactAt(root, p) && ExactAt(root, scaled)
    ensures scaled > 0.0 && root(scaled) == Mul(c, root(p))
  {
    SqPositive(c);
    Positive(Sq(c), p);
    MulPositive(c, root(p));
    SqOfProduct(c, root(p));
    BelowRoot(root(scaled), Mul(c, root(p)));
    BelowRoot(Mul(c, root(p)), root(scaled));
  }

  lemma CancelFactor(c: real, dot: real, scaled: real, x: real, y: real)
    requires c > 0.0 && x > 0.0 && y > 0.0 && scaled == c * dot
    ensures Mul(c, x) > 0.0 && Ratio(scaled, Mul(c, x), y) == Ratio(dot, x, y)
  {
    MulPositive(c, x);
    MulPositive(Mul(c, x), y);
    MulPositive(x, y);
    assert Mul(Mul(c, x), y) == c * Mul(x, y);
    Positive(c, Mul(x, y));
  }

  lemma TimesZero(x: real, y: real)
    requires y == 0.0
    ensures x * y == 0.0
  {}

  lemma SimilarityScales(root: real -> real, c: real, a: Vector, b: Vector)
    requires IsPositive(root) && c > 0.0 && |a| == |b| && ExactAt(root, NormSq(a)) && ExactAt(root, NormSq(Scale(c, a)))
    ensures Similarity(root, Scale(c, a), b) == Similarity(root, a, b)
  {
    var p, q := NormSq(a), NormSq(b);
    NormOfScale(c, a);
    DotScale(c, a, b);
    NormSqNonNegative(a);
    if p <= 0.0 {
      TimesZero(Sq(c), p);
    } else if q > 0.0 {
      RootOfScaled(root, c, p, NormSq(Scale(c, a)));
      CancelFactor(c, Dot(a, b), Dot(Scale(c, a), b), root(p), root(q));
    }
  }

  /** With an exact root stretching a vector does not change the similarity. */
  lemma CosineScales(root: real -> real, c: real, a: Vector, b: Vector)
    requires IsPositive(root) && c > 0.0
    requires var n := Overlap(a, b); ExactAt(root, NormSq(a[..n])) && ExactAt(root, NormSq(Scale(c, a)[..n]))
    ensures Cosine(root, Scale(c, a), b) == Cosine(root, a, b)
  {
    ScalePrefix(c, a, Overlap(a, b));
    SimilarityScales(root, c, a[..Overlap(a, b)], b[..Overlap(a, b)]);
  }

  // ----- the store -----

  datatype Sop = Sop(id: string, title: string, content: string)

  datatype Hit = Hit(id: string, doc: Sop)

  type ScoredHit = Scored<Hit>

  /** The library sort promises a descending permutation and nothing about ties. */
  method SortSlice(s: seq<ScoredHit>) returns (r: seq<ScoredHit>)
    ensures multiset(r) == multiset(s) && IsDesc(r)
  {
    r := SortDesc(s);
    SortDescPermutes(s);
  }

  /** One entry for every stored vector. */
  ghost function Entries(root: real -> real, query: Vector, vectors: map<string, Vector>, documents: map<string, Sop>): set<ScoredHit>
    requires IsPositive(root) && vectors.Keys == documents.Keys
  {
    set id | id in vectors :: Scored(Cosine(root, query, vectors[id]), Hit(id, documents[id]))
  }

  /** The first k of some descending arrangement of all the entries, or all of them. */
  ghost predicate TopK(entries: set<ScoredHit>, k: nat, hits: seq<ScoredHit>) {
    exists full :: IsDesc(full) && multiset(full) == multiset(entries)
                   && hits == full[..if k < |full| then k else |full|]
  }

  /** The documents of such hits. */
  ghost predicate TopDocs(entries: set<ScoredHit>, k: nat, docs: seq<Sop>) {
    exists hits: seq<ScoredHit> :: TopK(entries, k, hits) && |docs| == |hits| && forall i :: 0 <= i < |docs| ==> docs[i] == hits[i].item.doc
  }

  lemma MultisetOfSetSize<T>(s: set<T>)
    ensures |multiset(s)| == |s|
  {
    if s != {} {
      var x :| x in s;
      MultisetOfSetSize(s - {x});
      assert multiset(s) == multiset(s - {x}) + multiset{x};
    }
  }

  /** Hence min(k, n) different hits, in descending order, and nothing left out
      scores higher than anything returned. */
  lemma TopKMeans(entries: set<ScoredHit>, k: nat, hits: seq<ScoredHit>)
    requires TopK(entries, k, hits)
    ensures |hits| == (if k < |entries| then k else |entries|) && IsDesc(hits)
    ensures forall i, j :: 0 <= i < j < |hits| ==> hits[i] != hits[j]
    ensures forall h :: h in hits ==> h in entries
    ensures forall h, e :: h in hits && e in entries && e !in hits ==> e.score <= h.score
  {
    var full :| IsDesc(full) && multiset(full) == multiset(entries) && hits == full[..if k < |full| then k else |full|];
    MultisetOfSetSize(entries);
    assert |multiset(full)| == |full|;
    forall i, j | 0 <= i < j < |full| ensures full[i] != full[j] {
      NoRepeats(full, entries, i, j);
    }
    forall h | h in hits ensures h in entries {
      assert h in multiset(full);
    }
    forall e | e in entries ensures e in hits || LaterIn(full, |hits|, e) {
      assert e in multiset(full);
      var j :| 0 <= j < |full| && full[j] == e;
      if j < |hits| { assert hits[j] == e; }
    }
  }

  /** Searching for a stored vector finds a hit of score 1, if rounding never makes
      a root too small. */
  lemma StoredQueryFound(root: real -> real, query: Vector, vectors: map<string, Vector>,
                         documents: map<string, Sop>, id: string, k: nat, hits: seq<ScoredHit>)
    requires IsPositive(root) && vectors.Keys == documents.Keys
    requires forall i :: i in vectors ==> |vectors[i]| == |query|
    requires id in vectors && vectors[id] == query && Dot(query, query) > 0.0 && ExactAt(root, Dot(query, query))
    requires forall i :: i in vectors ==> NotBelow(root, Dot(vectors[i], vectors[i]))
    requires k > 0 && TopK(Entries(root, query, vectors, documents), k, hits)
    ensures hits != [] && hits[0].score == 1.0
  {
    var entries := Entries(root, query, vectors, documents);
    TopKMeans(entries, k, hits);
    SelfCosine(root, query);
    var own := Scored(Cosine(root, query, vectors[id]), Hit(id, documents[id]));
    assert own in entries;
    assert hits[0] in entries;
    var best :| best in vectors && hits[0] == Scored(Cosine(root, query, vectors[best]), Hit(best, documents[best]));
    assert query[..|query|] == query && vectors[best][..|query|] == vectors[best];
    CosineBounded(root, query, vectors[best]);
    if own in hits {
      var i :| 0 <= i < |hits| && hits[i] == own;
    }
  }

  predicate LaterIn(full: seq<ScoredHit>, from: nat, e: ScoredHit) {
    exists j :: from <= j < |full| && full[j] == e
  }

  lemma NoRepeats<T>(full: seq<T>, entries: set<T>, i: nat, j: nat)
    requires multiset(full) == multiset(entries) && i < j < |full|
    ensures full[i] != full[j]
  {
    assert full == full[..j] + [full[j]] + full[j + 1..];
    assert multiset(entries)[full[j]] <= 1;
    assert full[..j][i] == full[i];
    assert full[i] in multiset(full[..j]);
  }

  lemma NoEntries(root: real -> real, query: Vector, vectors: map<string, Vector>, documents: map<string, Sop>, k: nat)
    requires IsPositive(root) && vectors.Keys == documents.Keys && |vectors| == 0
    ensures TopK(Entries(root, query, vectors, documents), k, [])
    ensures TopDocs(Entries(root, query, vectors, documents), k, [])
  {
    var full: seq<ScoredHit> := [];
    assert Entries(root, query, vectors, documents) == {};
    assert IsDesc(full) && multiset(full) == multiset(Entries(root, query, vectors, documents)) && full[..0] == [];
  }

  class VectorStore {
    var vectors: map<string, Vector>
    var documents: map<string, Sop>
    const dimension: nat

    ghost predicate Valid()
      reads this
    {
      vectors.Keys == documents.Keys && forall id :: id in vectors ==> |vectors[id]| == dimension
    }

    constructor (dimension: nat)
      ensures Valid() && vectors == map[] && documents == map[] && this.dimension == dimension
    {
      vectors, documents := map[], map[];
      this.dimension := dimension;
    }

    /** An embedding of another dimension is skipped without a word. */
    method Add(id: string, embedding: Vector, doc: Sop)
      requires Valid()
      modifies this
      ensures Valid()
      ensures |embedding| == dimension ==> vectors == old(vectors)[id := embedding] && documents == old(documents)[id := doc]
      ensures |embedding| != dimension ==> vectors == old(vectors) && documents == old(documents)
    {
      if |embedding| != dimension { return; }
      vectors := vectors[id := embedding];
      documents := documents[id := doc];
    }

    /** The scoring loop over the map and the sort. */
    method Rank(root: real -> real, query: Vector) returns (results: seq<ScoredHit>)
      requires Valid() && IsPositive(root)
      ensures IsDesc(results) && multiset(results) == multiset(Entries(root, query, vectors, documents))
    {
      results := [];
      var todo := vectors.Keys;
      ghost var seen: set<ScoredHit> := {};
      while todo != {}
        invariant todo <= vectors.Keys && multiset(results) == multiset(seen)
        invariant seen == set id | id in vectors && id !in todo :: Scored(Cosine(root, query, vectors[id]), Hit(id, documents[id]))
        decreases todo
      {
        var id :| id in todo;
        todo := todo - {id};
        var sim := CosineSimilarity(root, query, vectors[id]);
        var entry := Scored(sim, Hit(id, documents[id]));
        assert entry !in seen;
        assert multiset(seen + {entry}) == multiset(seen) + multiset{entry};
        results, seen := results + [entry], seen + {entry};
      }
      assert seen == Entries(root, query, vectors, documents);
      results := SortSlice(results);
    }

    method SearchWithScores(root: real -> real, query: Vector, topK: nat) returns (hits: seq<ScoredHit>)
      requires Valid() && IsPositive(root)
      ensures |query| == dimension ==> TopK(Entries(root, query, vectors, documents), topK, hits)
      ensures |query| != dimension ==> hits == []
    {
      if |query| != dimension || |vectors| == 0 {
        if |vectors| == 0 { NoEntries(root, query, vectors, documents, topK); }
        return [];
      }
      var results := Rank(root, query);
      var k := topK;
      if k > |results| { k := |results|; }
      hits := results[..k];
    }

    /** The same ranking, returned as documents only. */
    method Search(root: real -> real, query: Vector, topK: nat) returns (docs: seq<Sop>)
      requires Valid() && IsPositive(root)
      ensures |query| == dimension ==> TopDocs(Entries(root, query, vectors, documents), topK, docs)
      ensures |query| != dimension ==> docs == []
    {
      docs := [];
      if |query| != dimension || |vectors| == 0 {
        if |vectors| == 0 { NoEntries(root, query, vectors, documents, topK); }
        return;
      }
      var results := Rank(root, query);
      var k := topK;
      if k > |results| { k := |results|; }
      for i := 0 to k
        invariant |docs| == i && forall j :: 0 <= j < i ==> docs[j] == results[j].item.doc
      {
        docs := docs + [results[i].item.doc];
      }
      assert TopK(Entries(root, query, vectors, documents), topK, results[..k]);
    }
  }
}
