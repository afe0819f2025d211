/**
  compare_texts of compare_texts.py (lines 218-289): tokenize and filter both
  texts, number their tokens with a shared vocabulary, and score them by the
  Jaccard similarity of the tokens, multiplied by the Jaccard similarity of
  their n-grams when word order is to be taken into account.
*/
module Similarity {
  import opened Results
  import opened Jaccard
  import opened Relabelling
  import Tokenizer
  import Normalizer
  import Lexicon
  import Indexer
  import NGrams

  /** Lines 228-243 for one text: tokenize, lowercase, then apply the requested filters. */
  function Prepare(s: string, removeStopwords: bool, removePunctuation: bool): (r: seq<string>)
    ensures Normalizer.IsSubsequence(r, Tokenizer.Tokenize(s))
    ensures forall k :: 0 <= k < |r| ==>
              (removePunctuation ==> r[k] !in Lexicon.Punctuation) && (removeStopwords ==> r[k] !in Lexicon.Stopwords)
    ensures |r| <= |Tokenizer.NonSpace(s)|
    ensures forall k :: 0 <= k < |r| ==> |r[k]| > 0 && Tokenizer.SpaceFree(r[k]) && Tokenizer.IsLowerCase(r[k])
  {
    var tokens := Tokenizer.Tokenize(s);
    var r := Normalizer.Normalize(tokens, removeStopwords, removePunctuation);
    Tokenizer.TokenCount(s);
    Normalizer.SubsequenceFacts(r, tokens);
    r
  }

  /** Preparation drops exactly the tokens an active filter lists: every other token keeps its count. */
  lemma PrepareKeepsCounts(s: string, removeStopwords: bool, removePunctuation: bool, t: string)
    ensures multiset(Prepare(s, removeStopwords, removePunctuation))[t] ==
              if (removePunctuation && t in Lexicon.Punctuation) || (removeStopwords && t in Lexicon.Stopwords) then 0
              else multiset(Tokenizer.Tokenize(s))[t]
  {
    Normalizer.NormalizeKeepsCounts(Tokenizer.Tokenize(s), removeStopwords, removePunctuation, t);
  }

  /** prep_texts: the two token-id lists, numbered with one vocabulary shared by both texts. */
  function PrepTexts(x: string, y: string, removeStopwords: bool, removePunctuation: bool): (r: (seq<nat>, seq<nat>))
    ensures var xt, yt := Prepare(x, removeStopwords, removePunctuation), Prepare(y, removeStopwords, removePunctuation);
            && |r.0| == |xt| && |r.1| == |yt|
            && (forall i, j :: 0 <= i < |xt + yt| && 0 <= j < |xt + yt| ==>
                  ((r.0 + r.1)[i] == (r.0 + r.1)[j] <==> (xt + yt)[i] == (xt + yt)[j]))
            && (forall id: nat :: id in r.0 + r.1 <==> id < |Elems(xt + yt)|)
  {
    Indexer.IndexTokens(Prepare(x, removeStopwords, removePunctuation), Prepare(y, removeStopwords, removePunctuation))
  }

  /**
    Lines 276-289 over any token type: both n-gram lists and BOTH Jaccard
    scores are computed before the flag is looked at, so the score fails when
    either pair of lists is empty, whatever preserveOrder says.
  */
  function Score<T(==)>(xs: seq<T>, ys: seq<T>, n: int, preserveOrder: bool): (r: Result<real>)
    ensures r.Failure? <==> n <= 0 || (|xs| < n && |ys| < n)
    ensures r.Success? ==> 0.0 <= r.value <= 1.0
    ensures r.Success? ==>
              (r.value == 1.0 <==>
                 Elems(xs) == Elems(ys)
                 && (preserveOrder ==> Elems(NGrams.FindNGrams(xs, n)) == Elems(NGrams.FindNGrams(ys, n))))
    ensures r.Success? ==>
              (r.value == 0.0 <==>
                 Elems(xs) !! Elems(ys)
                 || (preserveOrder && Elems(NGrams.FindNGrams(xs, n)) !! Elems(NGrams.FindNGrams(ys, n))))
  {
    var xNGrams := NGrams.FindNGrams(xs, n);
    var yNGrams := NGrams.FindNGrams(ys, n);
    var tokenSimilarity := JaccardSimilarity(xs, ys);
    var ngramSimilarity := JaccardSimilarity(xNGrams, yNGrams);
    if tokenSimilarity.Failure? then tokenSimilarity
    else if ngramSimilarity.Failure? then ngramSimilarity
    else if preserveOrder then
      Success(Product(tokenSimilarity.value, ngramSimilarity.value))
    else tokenSimilarity
  }

  /** compare_texts(x, y, ngram_length, preserve_order, remove_stopwords, remove_punctuation). */
  function CompareTexts(x: string, y: string, ngramLength: int, preserveOrder: bool,
                        removeStopwords: bool, removePunctuation: bool): (r: Result<real>)
    ensures var xt, yt := Prepare(x, removeStopwords, removePunctuation), Prepare(y, removeStopwords, removePunctuation);
            r.Failure? <==> ngramLength <= 0 || (|xt| < ngramLength && |yt| < ngramLength)
    ensures r.Success? ==> 0.0 <= r.value <= 1.0
  {
    var ids := PrepTexts(x, y, removeStopwords, removePunctuation);
    Score(ids.0, ids.1, ngramLength, preserveOrder)
  }

  // ---------------------------------------------------------------------------
  // Helpers
  // ---------------------------------------------------------------------------

  /** Line 285: the product of two scores, which is 1 only when both are and 0 as soon as one is. */
  function Product(a: real, b: real): (p: real)
    requires 0.0 <= a <= 1.0 && 0.0 <= b <= 1.0
    ensures 0.0 <= p <= a && p <= b
    ensures p == 1.0 <==> a == 1.0 && b == 1.0
    ensures p == 0.0 <==> a == 0.0 || b == 0.0
  {
    MulSign(a, b);
    MulSign(a, 1.0 - b);
    MulSign(1.0 - a, b);
    assert a * (1.0 - b) == a - a * b;
    assert (1.0 - a) * b == b - a * b;
    a * b
  }

  /** The product of two non-negative reals is non-negative, and zero only when a factor is. */
  lemma MulSign(x: real, y: real)
    requires 0.0 <= x && 0.0 <= y
    ensures 0.0 <= x * y
    ensures x * y == 0.0 <==> x == 0.0 || y == 0.0
  {
  }

  // ---------------------------------------------------------------------------
  // The numbering of the vocabulary does not matter
  // ---------------------------------------------------------------------------

  /** Taking n-grams commutes with renaming the elements. */
  lemma NGramsRelabel<T, U>(f: T -> U, l: seq<T>, n: int)
    ensures NGrams.FindNGrams(MapSeq(f, l), n) == MapSeq((w: seq<T>) => MapSeq(f, w), NGrams.FindNGrams(l, n))
  {
    var lhs := NGrams.FindNGrams(MapSeq(f, l), n);
    var rhs := MapSeq((w: seq<T>) => MapSeq(f, w), NGrams.FindNGrams(l, n));
    forall i | 0 <= i < |lhs|
      ensures lhs[i] == rhs[i]
    {
      RenamedWindow(f, l, n, i);
    }
  }

  lemma RenamedWindow<T, U>(f: T -> U, l: seq<T>, n: int, i: nat)
    requires i < |NGrams.FindNGrams(l, n)|
    ensures NGrams.FindNGrams(MapSeq(f, l), n)[i] == MapSeq(f, NGrams.FindNGrams(l, n)[i])
  {
    NGrams.WindowAt(MapSeq(f, l), n, i);
    NGrams.WindowAt(l, n, i);
    assert MapSeq(f, l)[i..i + n] == MapSeq(f, l[i..i + n]);
  }

  /** Windows over elements that f tells apart are told apart by renaming them element-wise. */
  lemma WindowsInjective<T, U>(f: T -> U, x: seq<T>, y: seq<T>, n: int)
    requires InjectiveOn(f, Elems(x) + Elems(y))
    ensures InjectiveOn((w: seq<T>) => MapSeq(f, w),
                        Elems(NGrams.FindNGrams(x, n)) + Elems(NGrams.FindNGrams(y, n)))
  {
    var D := Elems(x) + Elems(y);
    var W := Elems(NGrams.FindNGrams(x, n)) + Elems(NGrams.FindNGrams(y, n));
    forall v, w | v in W && w in W && MapSeq(f, v) == MapSeq(f, w)
      ensures v == w
    {
      WindowOver(x, y, n, v);
      WindowOver(x, y, n, w);
      RenamedEqual(f, D, v, w);
    }
  }

  /** A window of x or of y has length n and is made of elements of x and y. */
  lemma WindowOver<T>(x: seq<T>, y: seq<T>, n: int, v: seq<T>)
    requires v in Elems(NGrams.FindNGrams(x, n)) + Elems(NGrams.FindNGrams(y, n))
    ensures |v| == n && forall k :: 0 <= k < |v| ==> v[k] in Elems(x) + Elems(y)
  {
    if v in Elems(NGrams.FindNGrams(x, n)) { WindowElems(x, n, v); } else { WindowElems(y, n, v); }
  }

  /** Two lists over D of equal length with equal renamings are equal when f is injective on D. */
  lemma RenamedEqual<T, U>(f: T -> U, D: set<T>, v: seq<T>, w: seq<T>)
    requires InjectiveOn(f, D) && |v| == |w|
    requires forall k :: 0 <= k < |v| ==> v[k] in D && w[k] in D
    requires MapSeq(f, v) == MapSeq(f, w)
    ensures v == w
  {
    forall k | 0 <= k < |v|
      ensures v[k] == w[k]
    {
      assert MapSeq(f, v)[k] == f(v[k]) && MapSeq(f, w)[k] == f(w[k]);
    }
  }

  lemma WindowElems<T>(l: seq<T>, n: int, w: seq<T>)
    requires w in Elems(NGrams.FindNGrams(l, n))
    ensures |w| == n && forall k :: 0 <= k < |w| ==> w[k] in Elems(l)
  {
    var nl := NGrams.FindNGrams(l, n);
    var i :| 0 <= i < |nl| && nl[i] == w;
    NGrams.WindowAt(l, n, i);
    forall k | 0 <= k < |w|
      ensures w[k] in Elems(l)
    {
      assert w[k] == l[i + k];
    }
  }

  /** Renaming the tokens injectively does not change the score. */
  lemma ScoreRelabel<T, U>(f: T -> U, xs: seq<T>, ys: seq<T>, n: int, preserveOrder: bool)
    requires InjectiveOn(f, Elems(xs) + Elems(ys))
    ensures Score(MapSeq(f, xs), MapSeq(f, ys), n, preserveOrder) == Score(xs, ys, n, preserveOrder)
  {
    var g := (w: seq<T>) => MapSeq(f, w);
    Relabel(f, xs, ys);
    NGramsRelabel(f, xs, n);
    NGramsRelabel(f, ys, n);
    WindowsInjective(f, xs, ys, n);
    Relabel(g, NGrams.FindNGrams(xs, n), NGrams.FindNGrams(ys, n));
  }

  /** The score of two texts is the score of their filtered token strings: the vocabulary ids are only a renaming. */
  lemma CompareTextsIgnoresNumbering(x: string, y: string, ngramLength: int, preserveOrder: bool,
                                     removeStopwords: bool, removePunctuation: bool)
    ensures CompareTexts(x, y, ngramLength, preserveOrder, removeStopwords, removePunctuation)
         == Score(Prepare(x, removeStopwords, removePunctuation), Prepare(y, removeStopwords, removePunctuation),
                  ngramLength, preserveOrder)
  {
    var xt, yt := Prepare(x, removeStopwords, removePunctuation), Prepare(y, removeStopwords, removePunctuation);
    Indexer.IndexIsRelabelling(xt, yt);
    var f := Indexer.IdOf(Indexer.Enumerate(Indexer.Distinct(xt + yt)));
    ScoreRelabel(f, xt, yt, ngramLength, preserveOrder);
  }

  // ---------------------------------------------------------------------------
  // Properties of the combination rule
  // ---------------------------------------------------------------------------

  /**
    Both Jaccard terms are evaluated whatever preserveOrder says, so the flag
    decides only the value, never whether the call raises; taking order into
    account can only lower the score.
  */
  lemma {:induction false} OrderFlagOnlyLowers<T>(xs: seq<T>, ys: seq<T>, n: int)
    ensures Score(xs, ys, n, true).Failure? == Score(xs, ys, n, false).Failure?
    ensures Score(xs, ys, n, true).Success? ==> Score(xs, ys, n, true).value <= Score(xs, ys, n, false).value
  {
    var tokenSimilarity := JaccardSimilarity(xs, ys);
    var ngramSimilarity := JaccardSimilarity(NGrams.FindNGrams(xs, n), NGrams.FindNGrams(ys, n));
    if tokenSimilarity.Success? && ngramSimilarity.Success? {
      assert Score(xs, ys, n, true).value == Product(tokenSimilarity.value, ngramSimilarity.value);
    }
  }

  /** A text compared with itself scores 1 whenever the comparison does not raise. */
  lemma SelfSimilarity(x: string, ngramLength: int, preserveOrder: bool, removeStopwords: bool, removePunctuation: bool)
    ensures var r := CompareTexts(x, x, ngramLength, preserveOrder, removeStopwords, removePunctuation);
            r.Success? ==> r.value == 1.0
  {
    CompareTextsIgnoresNumbering(x, x, ngramLength, preserveOrder, removeStopwords, removePunctuation);
  }

  /**
    Word order matters only through the n-gram factor: "a b c d" against
    "b c d a" with bigrams. The token sets agree, so the token score is 1, but
    the pair (a, b) occurs in the first text only, so the combined score is
    below 1.
  */
  lemma OrderSensitivity()
    ensures CompareTexts("a b c d", "b c d a", 2, false, false, false) == Success(1.0)
    ensures CompareTexts("a b c d", "b c d a", 2, true, false, false).Success?
    ensures CompareTexts("a b c d", "b c d a", 2, true, false, false).value < 1.0
  {
    PreparedRotation();
    TextRotation("a b c d", "b c d a", "a", "b", "c", "d");
  }

  lemma PreparedRotation()
    ensures Prepare("a b c d", false, false) == ["a", "b", "c", "d"]
    ensures Prepare("b c d a", false, false) == ["b", "c", "d", "a"]
  {
    PreparedLetters('a', 'b', 'c', 'd');
    PreparedLetters('b', 'c', 'd', 'a');
  }

  /** With nothing filtered, the prepared tokens of four lowercase one-letter words are those words. */
  lemma PreparedLetters(a: char, b: char, c: char, d: char)
    requires 'a' <= a <= 'z' && 'a' <= b <= 'z' && 'a' <= c <= 'z' && 'a' <= d <= 'z'
    ensures Prepare([a, ' ', b, ' ', c, ' ', d], false, false) == [[a], [b], [c], [d]]
  {
    Tokenizer.LetterTokens(a, b, c, d);
  }

  /** Two texts whose tokens are a b c d and b c d a score as those token lists do. */
  lemma TextRotation(x: string, y: string, a: string, b: string, c: string, d: string)
    requires Prepare(x, false, false) == [a, b, c, d] && Prepare(y, false, false) == [b, c, d, a]
    requires a != b && a != c
    ensures CompareTexts(x, y, 2, false, false, false) == Success(1.0)
    ensures CompareTexts(x, y, 2, true, false, false).Success?
    ensures CompareTexts(x, y, 2, true, false, false).value < 1.0
  {
    CompareTextsIgnoresNumbering(x, y, 2, false, false, false);
    CompareTextsIgnoresNumbering(x, y, 2, true, false, false);
    RotationScore(a, b, c, d);
  }

  /** Rotating a b c d to b c d a keeps the token score at 1 and lowers the bigram-aware score. */
  lemma RotationScore<T>(a: T, b: T, c: T, d: T)
    requires a != b && a != c
    ensures Score([a, b, c, d], [b, c, d, a], 2, false) == Success(1.0)
    ensures Score([a, b, c, d], [b, c, d, a], 2, true).Success?
    ensures Score([a, b, c, d], [b, c, d, a], 2, true).value < 1.0
  {
    var xs, ys := [a, b, c, d], [b, c, d, a];
    assert Elems(xs) == Elems(ys) by {
      assert forall t :: t in xs <==> t in ys;
    }
    FirstBigramOnlyLeft(xs, ys);
  }

  /** The bigram a b of the first list is not a bigram of the second. */
  lemma FirstBigramOnlyLeft<T>(xs: seq<T>, ys: seq<T>)
    requires |xs| == 4 && ys == xs[1..] + [xs[0]] && xs[0] != xs[1] && xs[0] != xs[2]
    ensures Elems(NGrams.FindNGrams(xs, 2)) != Elems(NGrams.FindNGrams(ys, 2))
  {
    var nx, ny := NGrams.FindNGrams(xs, 2), NGrams.FindNGrams(ys, 2);
    NGrams.WindowAt(xs, 2, 0);
    assert nx[0] in Elems(nx);
    forall i | 0 <= i < |ny|
      ensures ny[i] != nx[0]
    {
      NGrams.WindowAt(ys, 2, i);
      assert ny[i][0] == ys[i] && ny[i][1] == ys[i + 1];
    }
  }

  // ---------------------------------------------------------------------------
  // The evidently intended short-circuit
  // ---------------------------------------------------------------------------

  /**
    The evidently intended rule: the n-gram term is evaluated only when word
    order is to be taken into account. The command line (line 308) compares
    with trigrams and order ignored, and as written would raise for any two
    texts left with fewer than three tokens each.
  */
  function ScoreIntended<T(==)>(xs: seq<T>, ys: seq<T>, n: int, preserveOrder: bool): (r: Result<real>)
    ensures !preserveOrder ==> (r.Failure? <==> xs == [] && ys == [])
    ensures preserveOrder ==> (r.Failure? <==> n <= 0 || (|xs| < n && |ys| < n))
    ensures r.Success? ==> 0.0 <= r.value <= 1.0
    ensures Score(xs, ys, n, preserveOrder).Success? ==> r == Score(xs, ys, n, preserveOrder)
  {
    if preserveOrder then Score(xs, ys, n, true) else JaccardSimilarity(xs, ys)
  }

  /** compare_texts with the intended short-circuit. */
  function CompareTextsIntended(x: string, y: string, ngramLength: int, preserveOrder: bool,
                                removeStopwords: bool, removePunctuation: bool): (r: Result<real>)
    ensures var xt, yt := Prepare(x, removeStopwords, removePunctuation), Prepare(y, removeStopwords, removePunctuation);
            !preserveOrder ==> (r.Failure? <==> xt == [] && yt == [])
    ensures r.Success? ==> 0.0 <= r.value <= 1.0
    ensures CompareTexts(x, y, ngramLength, preserveOrder, removeStopwords, removePunctuation).Success? ==>
              r == CompareTexts(x, y, ngramLength, preserveOrder, removeStopwords, removePunctuation)
  {
    var ids := PrepTexts(x, y, removeStopwords, removePunctuation);
    ScoreIntended(ids.0, ids.1, ngramLength, preserveOrder)
  }

  /**
    Two one-word texts, compared as the command line does (trigrams, order
    ignored), make compare_texts raise ZeroDivisionError: neither text has a
    trigram, and the unused n-gram score is still computed. The token score
    alone is well defined.
  */
  lemma ShortTextsRaise()
    ensures CompareTexts("ab", "cd", 3, false, false, false) == Failure(ZeroDivisionError)
    ensures CompareTextsIntended("ab", "cd", 3, false, false, false).Success?
  {
    OneWordKept("ab");
    OneWordKept("cd");
  }

  lemma OneWordKept(s: string)
    requires |s| == 2 && !Tokenizer.IsSpace(s[0]) && !Tokenizer.IsSpace(s[1])
    ensures 0 < |Prepare(s, false, false)| < 3
  {
    assert Tokenizer.NonSpace(s[1..]) == s[1..];
    assert Tokenizer.NonSpace(s) == s;
    Tokenizer.TokenCount(s);
  }

  /** A capitalised stopword is removed: "The" is lowercased to "the" before the stopword filter sees it. */
  lemma CapitalStopwordRemoved()
    ensures Prepare("The", true, false) == []
  {
    Tokenizer.ExampleCapitalWord();
    assert "the" in Lexicon.StopwordBlock5;
    assert Normalizer.Filter(["the"], Lexicon.Stopwords) == [];
  }
}
