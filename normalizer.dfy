/**
  The optional filters of compare_texts.py (lines 235-243): list comprehensions
  that keep the tokens not found in the punctuation list or the stopword list.
*/
module Normalizer {
  import Lexicon

  /** The members of `tokens` that are not in `removed`, in order: [t for t in tokens if t not in removed]. */
  function Filter(tokens: seq<string>, removed: set<string>): (r: seq<string>)
    ensures IsSubsequence(r, tokens)
    ensures forall k :: 0 <= k < |r| ==> r[k] !in removed
    ensures forall t :: multiset(r)[t] == if t in removed then 0 else multiset(tokens)[t]
  {
    if tokens == [] then []
    else
      assert tokens == [tokens[0]] + tokens[1..];
      if tokens[0] in removed then Filter(tokens[1..], removed)
      else [tokens[0]] + Filter(tokens[1..], removed)
  }

  /** a can be obtained from b by deleting elements (order and multiplicity of what is kept are preserved). */
  predicate IsSubsequence(a: seq<string>, b: seq<string>) {
    if a == [] then true
    else if b == [] then false
    else if a[0] == b[0] then IsSubsequence(a[1..], b[1..])
    else IsSubsequence(a, b[1..])
  }

  /** Lines 236-243: punctuation removal first, then stopword removal, each only when requested. */
  function Normalize(tokens: seq<string>, removeStopwords: bool, removePunctuation: bool): (r: seq<string>)
    ensures IsSubsequence(r, tokens)
    ensures forall k :: 0 <= k < |r| ==>
              (removePunctuation ==> r[k] !in Lexicon.Punctuation) && (removeStopwords ==> r[k] !in Lexicon.Stopwords)
  {
    var afterPunctuation := if removePunctuation then Filter(tokens, Lexicon.Punctuation) else tokens;
    var afterStopwords := if removeStopwords then Filter(afterPunctuation, Lexicon.Stopwords) else afterPunctuation;
    assert removePunctuation && removeStopwords ==>
             afterStopwords == Filter(tokens, Lexicon.Punctuation + Lexicon.Stopwords) by {
      FilterCompose(tokens, Lexicon.Punctuation, Lexicon.Stopwords);
    }
    assert IsSubsequence(tokens, tokens) by {
      SubsequenceReflexive(tokens);
    }
    afterStopwords
  }

  /** Every surviving token occurs as often as in the input; every dropped one not at all. */
  lemma NormalizeKeepsCounts(tokens: seq<string>, removeStopwords: bool, removePunctuation: bool, t: string)
    ensures multiset(Normalize(tokens, removeStopwords, removePunctuation))[t] ==
              if (removePunctuation && t in Lexicon.Punctuation) || (removeStopwords && t in Lexicon.Stopwords) then 0
              else multiset(tokens)[t]
  {
    if removePunctuation && removeStopwords {
      FilterCompose(tokens, Lexicon.Punctuation, Lexicon.Stopwords);
    }
  }

  lemma {:induction false} SubsequenceReflexive(a: seq<string>)
    ensures IsSubsequence(a, a)
  {
    if a != [] {
      SubsequenceReflexive(a[1..]);
    }
  }

  /** Filtering is idempotent: a second pass with the same list removes nothing more. */
  lemma {:induction false} FilterTwice(tokens: seq<string>, removed: set<string>)
    ensures Filter(Filter(tokens, removed), removed) == Filter(tokens, removed)
  {
    if tokens != [] {
      FilterTwice(tokens[1..], removed);
    }
  }

  /** Two filters in a row are one filter with the union of the lists. */
  lemma {:induction false} FilterCompose(tokens: seq<string>, a: set<string>, b: set<string>)
    ensures Filter(Filter(tokens, a), b) == Filter(tokens, a + b)
  {
    if tokens != [] {
      FilterCompose(tokens[1..], a, b);
    }
  }

  /** The two filters commute. */
  lemma FilterCommute(tokens: seq<string>, a: set<string>, b: set<string>)
    ensures Filter(Filter(tokens, a), b) == Filter(Filter(tokens, b), a)
  {
    FilterCompose(tokens, a, b);
    FilterCompose(tokens, b, a);
    assert a + b == b + a;
  }

  /** Normalizing twice with the same flags equals normalizing once. */
  lemma NormalizeIdempotent(tokens: seq<string>, removeStopwords: bool, removePunctuation: bool)
    ensures var once := Normalize(tokens, removeStopwords, removePunctuation);
            Normalize(once, removeStopwords, removePunctuation) == once
  {
    var p, s := Lexicon.Punctuation, Lexicon.Stopwords;
    if removePunctuation && removeStopwords {
      FilterCompose(tokens, p, s);
      FilterCompose(Filter(tokens, p + s), p, s);
      FilterTwice(tokens, p + s);
    } else if removePunctuation {
      FilterTwice(tokens, p);
    } else if removeStopwords {
      FilterTwice(tokens, s);
    }
  }

  /** Removing stopwords before punctuation would give the same tokens as the source's order. */
  lemma NormalizeOrderIrrelevant(tokens: seq<string>, removeStopwords: bool, removePunctuation: bool)
    ensures var first := if removeStopwords then Filter(tokens, Lexicon.Stopwords) else tokens;
            Normalize(tokens, removeStopwords, removePunctuation)
              == if removePunctuation then Filter(first, Lexicon.Punctuation) else first
  {
    if removeStopwords && removePunctuation {
      FilterCommute(tokens, Lexicon.Punctuation, Lexicon.Stopwords);
    }
  }

  /** A subsequence is no longer than the list it is taken from, and each of its elements occurs there. */
  lemma {:induction false} SubsequenceFacts(a: seq<string>, b: seq<string>)
    requires IsSubsequence(a, b)
    ensures |a| <= |b|
    ensures forall k :: 0 <= k < |a| ==> a[k] in b
  {
    if a != [] {
      if a[0] == b[0] {
        SubsequenceFacts(a[1..], b[1..]);
        assert forall k :: 1 <= k < |a| ==> a[k] == a[1..][k - 1];
      } else {
        SubsequenceFacts(a, b[1..]);
      }
    }
  }
}
