# Text similarity (compare_texts.py) in Dafny

This project models `python/compare_texts.py`. The script scores how similar two
texts are with the Jaccard index. Each text goes through the same steps:

1. It is split into tokens with the regular expression
   `\w+(?:[-']\w+)*|'|[-.(]+|\S\w*`, and every token is lowercased.
2. On request, punctuation marks are removed, and then the 174 common English
   stopwords.
3. The tokens of both texts are numbered with one shared vocabulary.

Next, the script forms the n-grams of each id list with `zip` over shifted
slices. It computes the Jaccard similarity of the two token sets and of the two
n-gram sets. It returns the token score alone, or the product of the two scores
when word order is to be preserved.

The model is pure: datatypes, functions and lemmas, one module per concern.

- `Results` holds the `Result` type. The only error is `ZeroDivisionError`.
- `Lexicon` holds the punctuation list and the stopword list as constant sets.
  The stopword set is the union of blocks of 25 words in the source's order.
- `Tokenizer` turns the regular expression into a scanner. At each non-blank
  position, `MatchEnd` tries the four alternatives in priority order, each as
  greedily as the regex engine would. `Scan` and `RawTokens` collect the matches
  left to right. `Lower` and `Tokenize` add lowercasing.
- `Normalizer` holds the two list-comprehension filters.
- `NGrams` holds `find_ngrams`, written as `zip(*[l[i:] for i in range(n)])`.
- `Jaccard` holds `jaccard_similarity`, computed exactly over the rationals. It
  fails with `ZeroDivisionError` when the union of the two sets is empty.
- `Relabelling` holds the renaming of list elements, `[f(a) for a in s]`, and
  what it means for a renaming to tell elements apart.
- `Indexer` holds the shared vocabulary numbering.
- `Similarity` holds `prep_texts` and `compare_texts`, with properties of the
  whole pipeline.

## Model

| member | source | states |
|---|---|---|
| Lexicon.PunctuationMarksAreTokens | python/compare_texts.py:10-17 | every punctuation mark on the list is one character that the pattern matches as a whole token |
| Lexicon.StopwordsAreLowercase | python/compare_texts.py:20-194 | every stopword on the list is lowercase, so the stopword filter, which runs after lowercasing, can remove it |
| Tokenizer.WordEnd | python/compare_texts.py:228 | the greedy `\w+` run: every character it covers is a word character, and the one after it (if any) is not |
| Tokenizer.ClusterEnd | python/compare_texts.py:228 | the greedy `(?:[-']\w+)*` tail: each covered character is a word character or a joiner between two word characters, and no further joiner+word step is possible |
| Tokenizer.RunEnd | python/compare_texts.py:228 | the greedy `[-.(]+` run: all covered characters are in the class, and the next one is not |
| Tokenizer.MatchEnd | python/compare_texts.py:228-229 | at a non-blank position the match is nonempty, is a word of the pattern's language for the alternative chosen by its first character, and cannot be extended (a longest, greedy match) |
| Tokenizer.ClusterSlice | python/compare_texts.py:228 | a stretch that starts and ends with a word character, with joiners only between word characters, matches `\w+(?:[-']\w+)*` |
| Tokenizer.Scan | python/compare_texts.py:228-229 | every token findall returns from position i onward is a match of the pattern |
| Tokenizer.RawTokens | python/compare_texts.py:228-229 | findall's tokens are nonempty and blank-free, and concatenated they give exactly the non-blank characters of the text, in order (nothing lost, nothing invented) |
| Tokenizer.ScanCovers | python/compare_texts.py:228-229 | the tokens scanned from position i concatenate to the non-blank characters of the rest of the text |
| Tokenizer.MatchCovers | python/compare_texts.py:228-229 | a match contributes exactly its own characters to the non-blank characters of the text |
| Tokenizer.LexemeSpaceFree | python/compare_texts.py:228 | no match of the pattern contains whitespace |
| Tokenizer.NonSpace | python/compare_texts.py:228 | the non-blank characters of a text, in order, with no blank left among them |
| Tokenizer.NonSpaceAppend | python/compare_texts.py:228 | dropping the blanks distributes over concatenation |
| Tokenizer.NonSpaceOfSpaceFree | python/compare_texts.py:228 | a blank-free string is unchanged by dropping the blanks |
| Tokenizer.TokenCount | python/compare_texts.py:228-229 | a text yields at most one token per non-blank character, and no tokens exactly when it is all blanks |
| Tokenizer.FlattenLength | python/compare_texts.py:228-229 | nonempty tokens are no more numerous than their characters, and there are none exactly when their concatenation is empty |
| Tokenizer.LowerChar | python/compare_texts.py:232-233 | lowercasing one character turns a capital into the same letter of the alphabet in lowercase, leaves every other character as it is, and keeps word and blank characters in their class |
| Tokenizer.Lower | python/compare_texts.py:232-233 | `str.lower()` lowercases each character in place: same length, the k-th character lowercased, lowercase text left unchanged |
| Tokenizer.Tokenize | python/compare_texts.py:228-233 | token k is the k-th match of the pattern, lowercased; one token per match, each nonempty, blank-free and lowercase; joined together they give exactly the lowercased non-blank characters of the text, in order |
| Tokenizer.LowerAppend | python/compare_texts.py:232-233 | lowercasing distributes over concatenation |
| Tokenizer.FlattenLower | python/compare_texts.py:232-233 | lowercasing each token and then joining them equals joining them and then lowercasing |
| Tokenizer.ScanExampleWords | python/compare_texts.py:228 | `"It's x-y.."` splits into the word `It's`, the hyphenated word `x-y` and the run `..` |
| Tokenizer.ExampleWordsTail | python/compare_texts.py:228 | the scan after `It's` yields `x-y` and `..` |
| Tokenizer.ExampleApostropheWord | python/compare_texts.py:228 | the inner apostrophe of `It's` joins two word runs |
| Tokenizer.ApostropheWordRuns | python/compare_texts.py:228 | in `It's`, the word runs `It` and `s` end where the apostrophe and the blank begin, and nothing joins after `s` |
| Tokenizer.ExampleWordMatches | python/compare_texts.py:228 | a hyphen between letters joins them; `..` matches the `[-.(]+` alternative |
| Tokenizer.ScanExampleMarks | python/compare_texts.py:228 | a lone quote matches the `'` alternative, and `$5` matches `\S\w*` |
| Tokenizer.ExampleMarkMatches | python/compare_texts.py:228 | the match ends in `'a' $5`: a quote alone, the letter, a quote alone, and `$5` |
| Tokenizer.LoneWordChar | python/compare_texts.py:228 | a word character followed by a blank or the end of the text is a one-character match |
| Tokenizer.FourLetterWords | python/compare_texts.py:228 | four one-character words separated by single blanks are exactly four tokens |
| Tokenizer.LetterTokens | python/compare_texts.py:228-233 | four lowercase one-letter words separated by blanks tokenize, lowercasing included, to those four words |
| Tokenizer.ExampleCapitalWord | python/compare_texts.py:228-233 | `"The"` tokenizes to the single lowercase token `the` |
| Normalizer.Filter | python/compare_texts.py:236-243 | the kept tokens come in their original order, none of them is on the list, and every other token keeps its number of occurrences |
| Normalizer.Normalize | python/compare_texts.py:236-243 | the result is a subsequence of the tokens, with no punctuation when that filter is on and no stopword when that filter is on |
| Normalizer.NormalizeKeepsCounts | python/compare_texts.py:236-243 | each token keeps its count unless an active filter lists it, and then it disappears |
| Normalizer.SubsequenceReflexive | python/compare_texts.py:236-243 | a list is a subsequence of itself (the case where no filter is applied) |
| Normalizer.FilterTwice | python/compare_texts.py:236-243 | filtering with the same list twice equals filtering once |
| Normalizer.FilterCompose | python/compare_texts.py:236-243 | two filters in a row equal one filter with the union of the lists |
| Normalizer.FilterCommute | python/compare_texts.py:236-243 | the two filters commute |
| Normalizer.NormalizeIdempotent | python/compare_texts.py:236-243 | preparing already prepared tokens again with the same flags changes nothing |
| Normalizer.NormalizeOrderIrrelevant | python/compare_texts.py:236-243 | removing stopwords before punctuation would give the same tokens |
| Normalizer.SubsequenceFacts | python/compare_texts.py:236-243 | a filtered list is never longer than its input, and each of its tokens occurs in the input |
| NGrams.Drop | python/compare_texts.py:203 | `l[i:]` has the length max(0, len(l) - i) and holds the elements of l from i on |
| NGrams.Shifted | python/compare_texts.py:203 | `[l[i:] for i in range(n)]` has max(0, n) lists, the i-th being `l[i:]` |
| NGrams.Zip | python/compare_texts.py:203 | `zip(*lists)` is empty for no lists, is as long as the shortest list, and its i-th tuple holds the i-th element of every list |
| NGrams.FindNGrams | python/compare_texts.py:196-203 | there are len(l) - n + 1 n-grams, and none when n <= 0 or the list is shorter than n |
| NGrams.Windows | python/compare_texts.py:196-203 | the i-th n-gram is the window `l[i:i+n]` |
| NGrams.WindowAt | python/compare_texts.py:203 | the window property at one start position |
| Jaccard.Elems | python/compare_texts.py:213-214 | `set(s)` holds exactly the elements of s, and has at most as many elements as s |
| Jaccard.ElemsSize | python/compare_texts.py:213-214 | a list has no more distinct elements than elements |
| Jaccard.JaccardSimilarity | python/compare_texts.py:206-215 | ZeroDivisionError exactly when both lists are empty; otherwise a score in [0, 1], which is 1 exactly when the sets are equal and 0 exactly when they are disjoint |
| Jaccard.RatioFacts | python/compare_texts.py:215 | the ratio of intersection to union size lies in [0, 1], is 1 exactly for equal sizes and 0 exactly for an empty intersection |
| Jaccard.CardinalityFacts | python/compare_texts.py:213-215 | the intersection is no larger than the union, as large only for equal sets, and empty only for disjoint sets |
| Jaccard.SetsOnly | python/compare_texts.py:213-215 | the score depends only on `set(x)` and `set(y)`, not on order or duplicates |
| Jaccard.Symmetric | python/compare_texts.py:213-215 | the score is symmetric in its arguments |
| Relabelling.MapSeq | python/compare_texts.py:250-253 | `[f(t) for t in s]` keeps the length and maps element by element |
| Relabelling.ImageSize | python/compare_texts.py:246-253 | an injective renaming keeps the size of a set |
| Jaccard.ElemsOfMap | python/compare_texts.py:250-253 | the set of a renamed list is the image of the list's set |
| Jaccard.Relabel | python/compare_texts.py:213-215 | renaming the elements injectively leaves the Jaccard score unchanged |
| Indexer.Distinct | python/compare_texts.py:246-247 | the de-duplicated vocabulary has the same elements as the token lists, each once |
| Indexer.Enumerate | python/compare_texts.py:247 | `{v: k for k, v in enumerate(order)}` has the vocabulary as keys and maps each token to its own position |
| Indexer.IdOf | python/compare_texts.py:250-253 | `indexer[t]` gives the id the dictionary stores for t; Python's KeyError for a missing token cannot occur, since only tokens of the two lists, all keys, are looked up |
| Indexer.IndexTokens | python/compare_texts.py:246-253 | both id lists keep their lengths; two positions across both lists get the same id exactly when they hold the same token; the ids used are exactly 0 .. k-1 for k distinct tokens |
| Indexer.IdsAgree | python/compare_texts.py:250-253 | an injective lookup gives equal ids exactly to equal tokens |
| Indexer.NoDuplicatesSize | python/compare_texts.py:246-247 | a list without duplicates is as long as its set |
| Indexer.IdsCover | python/compare_texts.py:246-253 | every id below the vocabulary size is used and no other |
| Indexer.IndexIsRelabelling | python/compare_texts.py:246-253 | the indexing is an injective renaming of the tokens |
| Similarity.Prepare | python/compare_texts.py:228-243 | one text's prepared tokens are a subsequence of its lowercased tokens, with no punctuation mark when that filter is on and no stopword when that filter is on; there is at most one per non-blank character, and each is nonempty, blank-free and lowercase; with `PrepareKeepsCounts`, every token no active filter lists keeps its count |
| Similarity.PrepareKeepsCounts | python/compare_texts.py:228-243 | a prepared text holds each token as often as the lowercased tokens do, unless an active filter lists it, and then not at all |
| Similarity.PrepTexts | python/compare_texts.py:218-255 | `prep_texts` returns one id list per filtered token list, of the same length; ids agree exactly where tokens agree across both texts; the ids are 0 .. k-1 |
| Similarity.Score | python/compare_texts.py:276-289 | the comparison raises exactly when n <= 0 or both lists are shorter than n, whatever `preserve_order` says; otherwise the score lies in [0, 1], is 1 exactly when the token sets (and, with order, the n-gram sets) agree, and is 0 exactly when the token sets (or, with order, the n-gram sets) are disjoint |
| Similarity.Product | python/compare_texts.py:285 | the product of two scores is at most either of them, is 1 only when both are, and is 0 as soon as one is |
| Similarity.CompareTexts | python/compare_texts.py:258-289 | `compare_texts` raises exactly when the n-gram length is <= 0 or both filtered texts have fewer tokens than it; otherwise the score lies in [0, 1] |
| Similarity.NGramsRelabel | python/compare_texts.py:203 | taking n-grams commutes with renaming the tokens |
| Similarity.RenamedWindow | python/compare_texts.py:203 | the i-th n-gram of the renamed list is the renamed i-th n-gram |
| Similarity.WindowsInjective | python/compare_texts.py:276-281 | a renaming that tells tokens apart also tells their n-grams apart |
| Similarity.WindowOver | python/compare_texts.py:203 | an n-gram of either list has length n and is made of elements of the two lists |
| Similarity.RenamedEqual | python/compare_texts.py:250-253 | two equally long lists whose renamings agree are equal when the renaming tells their elements apart |
| Similarity.WindowElems | python/compare_texts.py:203 | every n-gram has length n and each of its elements occurs in the list |
| Similarity.ScoreRelabel | python/compare_texts.py:276-289 | renaming the tokens injectively leaves the score unchanged |
| Similarity.CompareTextsIgnoresNumbering | python/compare_texts.py:246-289 | the score of two texts equals the score of their filtered token strings, so the ids chosen for the vocabulary do not matter |
| Similarity.OrderFlagOnlyLowers | python/compare_texts.py:280-287 | `preserve_order` never decides whether the call raises, and with it the score is never higher |
| Similarity.SelfSimilarity | python/compare_texts.py:258-289 | a text compared with itself scores 1 whenever the call does not raise |
| Similarity.OrderSensitivity | python/compare_texts.py:258-289 | `compare_texts("a b c d", "b c d a", 2, ...)` with nothing filtered scores 1 with order ignored, and below 1 with order preserved |
| Similarity.FirstBigramOnlyLeft | python/compare_texts.py:203 | rotating a four-element list by one changes its set of bigrams when its first element differs from the second and the third |
| Similarity.PreparedRotation | python/compare_texts.py:228-243 | the prepared tokens of `"a b c d"` and `"b c d a"` with nothing filtered are the four letters in text order |
| Similarity.PreparedLetters | python/compare_texts.py:228-243 | four lowercase one-letter words separated by blanks come out of preparation unchanged when nothing is filtered |
| Similarity.TextRotation | python/compare_texts.py:258-289 | two texts whose prepared tokens are a b c d and b c d a score 1 with order ignored and below 1 with bigrams and order preserved |
| Similarity.RotationScore | python/compare_texts.py:276-287 | on the token lists a b c d and b c d a the token score is 1, and the order-aware score is below 1 |
| Similarity.ScoreIntended | python/compare_texts.py:276-289 | without order, the intended rule fails only when both lists are empty; with order it fails exactly as the source does; the score lies in [0, 1] and agrees with the source whenever the source does not raise |
| Similarity.CompareTextsIntended | python/compare_texts.py:258-289 | the corrected `compare_texts`: without order it raises only when both filtered texts are empty, and it agrees with the source whenever the source does not raise |
| Similarity.ShortTextsRaise | python/compare_texts.py:276-287 | two one-word texts with trigrams and order ignored make the source raise ZeroDivisionError, while the corrected function succeeds |
| Similarity.OneWordKept | python/compare_texts.py:228-243 | a two-character text without blanks keeps one or two tokens when nothing is filtered |
| Similarity.CapitalStopwordRemoved | python/compare_texts.py:228-243 | with stopword removal, `"The"` leaves no token: it is lowercased before the stopword filter sees it |

## Left out

- Unicode: `\w`, `\s` and `str.lower()` are modelled on ASCII only. `\s`
  covers space, `\t`-`\r` and the separators 0x1C-0x1F, as Python's `str` regex
  does. Any other non-ASCII character counts as neither a word character nor a
  blank, so it matches `\S\w*`, and lowercasing leaves it unchanged.
- Floating point: the scores are exact rationals (`real`), not IEEE doubles.
  The division and the product are not rounded.
- Indexer.Distinct: `OrderedDict.fromkeys` over a Python set numbers the
  vocabulary in hash order, which differs from run to run. The model numbers
  it in order of first occurrence instead. `Similarity.CompareTextsIgnoresNumbering`
  proves that the score does not depend on which numbering is used.
- `find_ngrams` returns a lazy iterator, and `compare_texts` drains it into a
  list. The model produces the list directly.
- `get_bool` and the `__main__` block are console I/O and are not modelled.
  `__main__` uses the arguments (3, False, True, True); `Similarity.ShortTextsRaise`
  uses n = 3 with order ignored.
- Python default arguments are not modelled: every call passes all its
  parameters explicitly.
- An n-gram length of 0 or less is not rejected up front: `range(n)` is then
  empty, `zip()` yields nothing, and the n-gram score divides by zero. The model
  keeps this failure, as it keeps the one described under "## Findings". There,
  the model follows the code as written and models the short-circuit the
  command line evidently relies on as a separate, corrected function.
- A non-string argument to `compare_texts` makes `re.findall` raise
  `TypeError`. The model's texts are strings by type.

## Findings

| source | as written | input that shows it | evidently intended | confidence | as-written member | corrected member |
|---|---|---|---|---|---|---|
| python/compare_texts.py:276-287 | both Jaccard scores are computed before `preserve_order` is looked at, so the n-gram score divides by zero even when it is not used | `compare_texts("ab", "cd", 3, False, False, False)`; also the command line's own call (n = 3, order ignored) on any two texts left with fewer than 3 tokens each | compute the n-gram score only when `preserve_order` is true, so that the token score is returned whenever one of the texts has a token | high (not executed) | Similarity.ShortTextsRaise | Similarity.CompareTextsIntended |
