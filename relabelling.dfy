/**
  Renaming the elements of a list: the list comprehension [f(a) for a in s]
  and what it means for a renaming to tell elements apart. compare_texts.py
  renames tokens to vocabulary ids (lines 250-253); the scores only see
  which elements are equal, so an injective renaming leaves them unchanged.
*/
module Relabelling {

  /** [f(a) for a in s] */
  function MapSeq<T, U>(f: T -> U, s: seq<T>): (r: seq<U>)
    ensures |r| == |s|
    ensures forall k :: 0 <= k < |s| ==> r[k] == f(s[k])
  {
    seq(|s|, k requires 0 <= k < |s| => f(s[k]))
  }

  /** f tells apart any two distinct elements of D. */
  ghost predicate InjectiveOn<T, U>(f: T -> U, D: set<T>) {
    forall a, b :: a in D && b in D && f(a) == f(b) ==> a == b
  }

  ghost function Image<T, U>(f: T -> U, D: set<T>): set<U> {
    set a | a in D :: f(a)
  }

  lemma {:induction false} ImageSize<T, U>(f: T -> U, D: set<T>)
    requires InjectiveOn(f, D)
    ensures |Image(f, D)| == |D|
    decreases |D|
  {
    if D != {} {
      var a :| a in D;
      var D' := D - {a};
      ImageSize(f, D');
      assert Image(f, D) == Image(f, D') + {f(a)};
      assert f(a) !in Image(f, D');
    }
  }
}
