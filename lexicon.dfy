/**
  The fixed word lists of compare_texts.py: tokens that the optional filters
  drop. Python keeps them as lists and tests `token not in list`; only
  membership matters, so they are sets here.
*/
module Lexicon {
  import Tokenizer

  /** Lines 10-17: punctuation marks removed when punctuation removal is requested (a token must equal one exactly). */
  const Punctuation: set<string> := {",", ".", "!", "?", "-", ":", ";"}

  /**
    Lines 20-194: English function words and contractions removed when
    stopword removal is requested, in the source's order, in blocks of 25.
  */
  const Stopwords: set<string> :=
    StopwordBlock1 + StopwordBlock2 + StopwordBlock3 + StopwordBlock4 + StopwordBlock5 + StopwordBlock6 + StopwordBlock7

  /** Lines 20-44. */
  const StopwordBlock1: set<string> := {
    "a", "about", "above", "after", "again", "against", "all", "am",
    "an", "and", "any", "are", "aren't", "as", "at", "be",
    "because", "been", "before", "being", "below", "between", "both", "but",
    "by"
  }

  /** Lines 45-69. */
  const StopwordBlock2: set<string> := {
    "can't", "cannot", "could", "couldn't", "did", "didn't", "do", "does",
    "doesn't", "doing", "don't", "down", "during", "each", "few", "for",
    "from", "further", "had", "hadn't", "has", "hasn't", "have", "haven't",
    "having"
  }

  /** Lines 70-94. */
  const StopwordBlock3: set<string> := {
    "he", "he'd", "he'll", "he's", "her", "here", "here's", "hers",
    "herself", "him", "himself", "his", "how", "how's", "i", "i'd",
    "i'll", "i'm", "i've", "if", "in", "into", "is", "isn't",
    "it"
  }

  /** Lines 95-119. */
  const StopwordBlock4: set<string> := {
    "it's", "its", "itself", "let's", "me", "more", "most", "mustn't",
    "my", "myself", "no", "nor", "not", "of", "off", "on",
    "once", "only", "or", "other", "ought", "our", "ours", "ourselves",
    "out"
  }

  /** Lines 120-144. */
  const StopwordBlock5: set<string> := {
    "over", "own", "same", "shan't", "she", "she'd", "she'll", "she's",
    "should", "shouldn't", "so", "some", "such", "than", "that", "that's",
    "the", "their", "theirs", "them", "themselves", "then", "there", "there's",
    "these"
  }

  /** Lines 145-169. */
  const StopwordBlock6: set<string> := {
    "they", "they'd", "they'll", "they're", "they've", "this", "those", "through",
    "to", "too", "under", "until", "up", "very", "was", "wasn't",
    "we", "we'd", "we'll", "we're", "we've", "were", "weren't", "what",
    "what's"
  }

  /** Lines 170-193. */
  const StopwordBlock7: set<string> := {
    "when", "when's", "where", "where's", "which", "while", "who", "who's",
    "whom", "why", "why's", "with", "won't", "would", "wouldn't", "you",
    "you'd", "you'll", "you're", "you've", "your", "yours", "yourself", "yourselves"
  }

  /** Every punctuation mark is a single character that the pattern matches as a whole token. */
  lemma PunctuationMarksAreTokens()
    ensures forall p :: p in Punctuation ==> |p| == 1 && Tokenizer.IsLexeme(p)
  {
  }

  /**
    Every stopword is lowercase. The stopword filter runs after lowercasing,
    so a listed word is removed whatever its case in the text.
  */
  lemma StopwordsAreLowercase()
    ensures forall w :: w in Stopwords ==> Tokenizer.IsLowerCase(w)
  {
    BlockIsLowercase1();
    BlockIsLowercase2();
    BlockIsLowercase3();
    BlockIsLowercase4();
    BlockIsLowercase5();
    BlockIsLowercase6();
    BlockIsLowercase7();
  }

  lemma BlockIsLowercase1()
    ensures forall w :: w in StopwordBlock1 ==> Tokenizer.IsLowerCase(w)
  {
  }

  lemma BlockIsLowercase2()
    ensures forall w :: w in StopwordBlock2 ==> Tokenizer.IsLowerCase(w)
  {
  }

  lemma BlockIsLowercase3()
    ensures forall w :: w in StopwordBlock3 ==> Tokenizer.IsLowerCase(w)
  {
  }

  lemma BlockIsLowercase4()
    ensures forall w :: w in StopwordBlock4 ==> Tokenizer.IsLowerCase(w)
  {
  }

  lemma BlockIsLowercase5()
    ensures forall w :: w in StopwordBlock5 ==> Tokenizer.IsLowerCase(w)
  {
  }

  lemma BlockIsLowercase6()
    ensures forall w :: w in StopwordBlock6 ==> Tokenizer.IsLowerCase(w)
  {
  }

  lemma BlockIsLowercase7()
    ensures forall w :: w in StopwordBlock7 ==> Tokenizer.IsLowerCase(w)
  {
  }
}
