/**
  find_ngrams of compare_texts.py (line 203): zip(*[l[i:] for i in range(n)]),
  the contiguous windows of length n of a token list.
*/
module NGrams {

  /** Python's slice l[i:]: empty once i is past the end. */
  function Drop<T>(l: seq<T>, i: nat): (r: seq<T>)
    ensures |r| == if i <= |l| then |l| - i else 0
    ensures forall k :: 0 <= k < |r| ==> r[k] == l[i + k]
  {
    if i <= |l| then l[i..] else []
  }

  /** [l[i:] for i in range(n)]: no lists at all when n <= 0. */
  function Shifted<T>(l: seq<T>, n: int): (lists: seq<seq<T>>)
    ensures |lists| == if n <= 0 then 0 else n
    ensures forall i :: 0 <= i < |lists| ==> lists[i] == Drop(l, i)
  {
    seq(if n <= 0 then 0 else n, i requires 0 <= i => Drop(l, i))
  }

  /**
    zip(*lists): the i-th tuple holds the i-th element of every list; it stops
    at the shortest list, and zip() of no lists yields nothing.
  */
  function Zip<T>(lists: seq<seq<T>>): (r: seq<seq<T>>)
    ensures lists == [] ==> r == []
    ensures forall k :: 0 <= k < |lists| ==> |r| <= |lists[k]|
    ensures lists != [] ==> exists k :: 0 <= k < |lists| && |lists[k]| == |r|
    ensures forall i :: 0 <= i < |r| ==> |r[i]| == |lists|
    ensures forall i, k :: 0 <= i < |r| && 0 <= k < |lists| ==> r[i][k] == lists[k][i]
    decreases if lists == [] then 0 else |lists[0]|
  {
    if lists == [] then []
    else if exists k :: 0 <= k < |lists| && lists[k] == [] then []
    else
      var heads := seq(|lists|, k requires 0 <= k < |lists| => lists[k][0]);
      var tails := seq(|lists|, k requires 0 <= k < |lists| => lists[k][1..]);
      var rest := Zip(tails);
      assert forall k :: 0 <= k < |lists| ==> |tails[k]| == |lists[k]| - 1;
      assert forall i, k :: 0 <= i < |rest| && 0 <= k < |lists| ==> rest[i][k] == lists[k][i + 1];
      [heads] + rest
  }

  /** find_ngrams(l, n) as the source writes it; it yields one window per start position i with i + n <= |l|. */
  function FindNGrams<T>(l: seq<T>, n: int): (r: seq<seq<T>>)
    ensures |r| == if n <= 0 || |l| < n then 0 else |l| - n + 1
  {
    var lists := Shifted(l, n);
    assert n > 0 ==> |lists[n - 1]| == if n - 1 <= |l| then |l| - (n - 1) else 0;
    Zip(lists)
  }

  /** The i-th n-gram is the window l[i..i+n]: the windows come left to right, each of length n. */
  lemma Windows<T>(l: seq<T>, n: int)
    ensures forall i :: 0 <= i < |FindNGrams(l, n)| ==> FindNGrams(l, n)[i] == l[i..i + n]
  {
    forall i | 0 <= i < |FindNGrams(l, n)|
      ensures FindNGrams(l, n)[i] == l[i..i + n]
    {
      WindowAt(l, n, i);
    }
  }

  lemma WindowAt<T>(l: seq<T>, n: int, i: nat)
    requires i < |FindNGrams(l, n)|
    ensures FindNGrams(l, n)[i] == l[i..i + n]
  {
    var lists := Shifted(l, n);
    var w := Zip(lists)[i];
    assert |w| == n && i + n <= |l|;
    forall k | 0 <= k < n
      ensures w[k] == l[i + k]
    {
      assert w[k] == lists[k][i];
    }
  }
}
