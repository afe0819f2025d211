/**
  jaccard_similarity of compare_texts.py (lines 206-215):
  len(set(x) & set(y)) / len(set(x) | set(y)), computed exactly.
*/
module Jaccard {
  import opened Results
  import opened Relabelling

  /** set(s) */
  function Elems<T>(s: seq<T>): (r: set<T>)
    ensures forall k :: 0 <= k < |s| ==> s[k] in r
    ensures forall a :: a in r ==> a in s
    ensures |r| <= |s|
  {
    ElemsSize(s);
    set a | a in s
  }

  /** A list has at most as many distinct elements as it has elements. */
  lemma {:induction false} ElemsSize<T>(s: seq<T>)
    ensures |set a | a in s| <= |s|
  {
    if s != [] {
      var init := s[..|s| - 1];
      ElemsSize(init);
      assert (set a | a in s) == (set a | a in init) + {s[|s| - 1]};
    }
  }

  /**
    The Jaccard similarity of the element sets of x and y; Python's division
    raises ZeroDivisionError when the union is empty, that is when both lists are.
  */
  function JaccardSimilarity<T(==)>(x: seq<T>, y: seq<T>): (r: Result<real>)
    ensures r.Failure? <==> x == [] && y == []
    ensures r.Success? ==> 0.0 <= r.value <= 1.0
    ensures r.Success? ==> (r.value == 1.0 <==> Elems(x) == Elems(y))
    ensures r.Success? ==> (r.value == 0.0 <==> Elems(x) !! Elems(y))
  {
    var X, Y := Elems(x), Elems(y);
    var intersection := X * Y;
    var union := X + Y;
    assert x != [] ==> x[0] in union;
    assert y != [] ==> y[0] in union;
    CardinalityFacts(X, Y);
    if |union| == 0 then Failure(ZeroDivisionError)
    else
      RatioFacts(|intersection|, |union|);
      Success((|intersection| as real) / (|union| as real))
  }

  /** p / q for 0 <= p <= q lies in [0, 1], is 1 exactly when p == q and 0 exactly when p == 0. */
  lemma RatioFacts(p: nat, q: nat)
    requires 0 < q && p <= q
    ensures 0.0 <= (p as real) / (q as real) <= 1.0
    ensures (p as real) / (q as real) == 1.0 <==> p == q
    ensures (p as real) / (q as real) == 0.0 <==> p == 0
  {
    var r := (p as real) / (q as real);
    assert r * (q as real) == p as real;
  }

  /** |X * Y| <= |X + Y|, with equality exactly when X == Y, and |X * Y| == 0 exactly when X !! Y. */
  lemma CardinalityFacts<T>(X: set<T>, Y: set<T>)
    ensures |X * Y| <= |X + Y|
    ensures |X * Y| == |X + Y| <==> X == Y
    ensures |X * Y| == 0 <==> X !! Y
  {
    assert X + Y == (X - Y) + (Y - X) + (X * Y);
    assert |(X - Y) + (Y - X)| == |X - Y| + |Y - X|;
    if |X * Y| == |X + Y| {
      assert |X - Y| == 0 && |Y - X| == 0;
      assert X - Y == {} && Y - X == {};
      assert X == (X - Y) + (X * Y);
      assert Y == (Y - X) + (X * Y);
    }
    if |X * Y| == 0 {
      assert X * Y == {};
    }
  }

  /** The score depends on set(x) and set(y) alone: order and duplicates do not matter. */
  lemma SetsOnly<T>(x: seq<T>, x': seq<T>, y: seq<T>, y': seq<T>)
    requires Elems(x) == Elems(x') && Elems(y) == Elems(y')
    ensures JaccardSimilarity(x, y) == JaccardSimilarity(x', y')
  {
  }

  /** The score is symmetric. */
  lemma Symmetric<T>(x: seq<T>, y: seq<T>)
    ensures JaccardSimilarity(x, y) == JaccardSimilarity(y, x)
  {
    assert Elems(x) * Elems(y) == Elems(y) * Elems(x);
    assert Elems(x) + Elems(y) == Elems(y) + Elems(x);
  }

  // ---------------------------------------------------------------------------
  // Relabelling: only equality between elements matters
  // ---------------------------------------------------------------------------

  lemma ElemsOfMap<T, U>(f: T -> U, s: seq<T>)
    ensures Elems(MapSeq(f, s)) == Image(f, Elems(s))
  {
    var r := MapSeq(f, s);
    forall b | b in Image(f, Elems(s))
      ensures b in Elems(r)
    {
      var a :| a in Elems(s) && f(a) == b;
      var k :| 0 <= k < |s| && s[k] == a;
      assert r[k] == b;
    }
  }

  /** Renaming the elements injectively does not change the score. */
  lemma Relabel<T, U>(f: T -> U, x: seq<T>, y: seq<T>)
    requires InjectiveOn(f, Elems(x) + Elems(y))
    ensures JaccardSimilarity(MapSeq(f, x), MapSeq(f, y)) == JaccardSimilarity(x, y)
  {
    var X, Y := Elems(x), Elems(y);
    ElemsOfMap(f, x);
    ElemsOfMap(f, y);
    assert Image(f, X) * Image(f, Y) == Image(f, X * Y);
    assert Image(f, X) + Image(f, Y) == Image(f, X + Y);
    ImageSize(f, X * Y);
    ImageSize(f, X + Y);
  }
}
