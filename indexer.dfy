/**
  The vocabulary indexer of compare_texts.py (lines 245-253): number the
  distinct tokens of both lists 0..k-1 and replace every token by its number.
*/
module Indexer {
  import opened Jaccard
  import opened Relabelling

  predicate NoDuplicates(s: seq<string>) {
    forall i, j :: 0 <= i < j < |s| ==> s[i] != s[j]
  }

  /**
    The distinct tokens of s, each once, in order of first occurrence. Python
    enumerates the set {x for x in x_tokens + y_tokens} in hash order instead;
    no property below depends on which token gets which number.
  */
  function Distinct(s: seq<string>): (r: seq<string>)
    ensures Elems(r) == Elems(s)
    ensures NoDuplicates(r)
  {
    if s == [] then []
    else
      var init := s[..|s| - 1];
      var last := s[|s| - 1];
      var r := Distinct(init);
      assert s == init + [last];
      assert Elems(s) == Elems(init) + {last};
      assert Elems(r + [last]) == Elems(r) + {last};
      if last in r then r else r + [last]
  }

  /** {v: k for k, v in enumerate(order)}: each listed token maps to its position. */
  function Enumerate(order: seq<string>): (ix: map<string, nat>)
    requires NoDuplicates(order)
    ensures ix.Keys == Elems(order)
    ensures forall t :: t in ix ==> ix[t] < |order| && order[ix[t]] == t
  {
    map i | 0 <= i < |order| :: order[i] := i
  }

  /**
    indexer[t] as a function value. Python raises KeyError for a token that is
    not a key; IndexTokens looks up only tokens of the two lists, which are all
    keys, so the fallback value 0 is never used there.
  */
  function IdOf(ix: map<string, nat>): (f: string -> nat)
    ensures forall t :: t in ix ==> f(t) == ix[t]
  {
    t => if t in ix then ix[t] else 0
  }

  /**
    Lines 246-253: the shared numbering of both token lists. Equal tokens get
    equal numbers and different tokens different ones, across both lists, and
    the numbers used are exactly 0..k-1 for k distinct tokens.
  */
  function IndexTokens(x: seq<string>, y: seq<string>): (r: (seq<nat>, seq<nat>))
    ensures |r.0| == |x| && |r.1| == |y|
    ensures forall i, j :: 0 <= i < |x + y| && 0 <= j < |x + y| ==>
              ((r.0 + r.1)[i] == (r.0 + r.1)[j] <==> (x + y)[i] == (x + y)[j])
    ensures forall id: nat :: id in r.0 + r.1 <==> id < |Elems(x + y)|
  {
    var order := Distinct(x + y);
    var ix := Enumerate(order);
    var f := IdOf(ix);
    var r := (MapSeq(f, x), MapSeq(f, y));
    IdsAgree(x, y, ix, r.0 + r.1);
    NoDuplicatesSize(order);
    IdsCover(x + y, order, ix, r.0 + r.1);
    r
  }

  lemma IdsAgree(x: seq<string>, y: seq<string>, ix: map<string, nat>, u: seq<nat>)
    requires forall i :: 0 <= i < |x + y| ==> (x + y)[i] in ix
    requires forall s, t :: s in ix && t in ix && ix[s] == ix[t] ==> s == t
    requires |u| == |x + y| && forall i :: 0 <= i < |u| ==> u[i] == ix[(x + y)[i]]
    ensures forall i, j :: 0 <= i < |x + y| && 0 <= j < |x + y| ==> (u[i] == u[j] <==> (x + y)[i] == (x + y)[j])
  {
  }

  lemma {:induction false} NoDuplicatesSize(s: seq<string>)
    requires NoDuplicates(s)
    ensures |Elems(s)| == |s|
  {
    if s != [] {
      var init := s[..|s| - 1];
      NoDuplicatesSize(init);
      assert Elems(s) == Elems(init) + {s[|s| - 1]};
    }
  }

  lemma IdsCover(w: seq<string>, order: seq<string>, ix: map<string, nat>, u: seq<nat>)
    requires Elems(order) == Elems(w) && |Elems(w)| == |order| && NoDuplicates(order)
    requires ix.Keys == Elems(order)
    requires forall t :: t in ix ==> ix[t] < |order| && order[ix[t]] == t
    requires |u| == |w| && forall i :: 0 <= i < |u| ==> u[i] == IdOf(ix)(w[i])
    ensures forall id: nat :: id in u <==> id < |Elems(w)|
  {
    forall id: nat | id < |order|
      ensures id in u
    {
      var t := order[id];
      assert t in Elems(w);
      var i :| 0 <= i < |w| && w[i] == t;
      assert order[ix[t]] == t;
      assert u[i] == id;
    }
    forall id: nat | id in u
      ensures id < |order|
    {
      var k :| 0 <= k < |u| && u[k] == id;
      assert w[k] in Elems(w);
    }
  }

  /** The numbering is a renaming of the tokens by a function that tells distinct tokens apart. */
  lemma IndexIsRelabelling(x: seq<string>, y: seq<string>)
    ensures var f := IdOf(Enumerate(Distinct(x + y)));
            && InjectiveOn(f, Elems(x) + Elems(y))
            && IndexTokens(x, y) == (MapSeq(f, x), MapSeq(f, y))
  {
    var order := Distinct(x + y);
    var ix := Enumerate(order);
    assert Elems(x + y) == Elems(x) + Elems(y);
    forall s, t | s in Elems(x) + Elems(y) && t in Elems(x) + Elems(y) && IdOf(ix)(s) == IdOf(ix)(t)
      ensures s == t
    {
      assert order[ix[s]] == s && order[ix[t]] == t;
    }
  }
}
