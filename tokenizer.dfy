/**
  The tokenizer of compare_texts.py: Python's
  re.findall(r"\w+(?:[-']\w+)*|'|[-.(]+|\S\w*", text) followed by lower() on
  every token, written as a scanner over ASCII characters. At each position
  the four alternatives are tried in priority order; a whitespace position
  matches none of them and is skipped.
*/
module Tokenizer {

  // ---------------------------------------------------------------------------
  // Character classes
  // ---------------------------------------------------------------------------

  /** The regex class \w restricted to ASCII: letters, digits and underscore. */
  predicate IsWordChar(c: char) {
    ('a' <= c <= 'z') || ('A' <= c <= 'Z') || ('0' <= c <= '9') || c == '_'
  }

  /** The regex class \s restricted to ASCII: space, \t \n \v \f \r and the separators 0x1C-0x1F. */
  predicate IsSpace(c: char) {
    c == ' ' || (9 <= c as int <= 13) || (28 <= c as int <= 31)
  }

  /** Characters that may join two word runs inside one word: `-` and `'`. */
  predicate IsJoiner(c: char) {
    c == '-' || c == '\''
  }

  /** The class [-.(] of the third alternative. */
  predicate IsRunChar(c: char) {
    c == '-' || c == '.' || c == '('
  }

  predicate IsUpper(c: char) {
    'A' <= c <= 'Z'
  }

  // ---------------------------------------------------------------------------
  // The language of the pattern, alternative by alternative
  // ---------------------------------------------------------------------------

  /** t[k] is a word character, or a joiner with a word character on each side. */
  predicate ClusterChar(t: string, k: nat)
    requires k < |t|
  {
    IsWordChar(t[k]) || (IsJoiner(t[k]) && 0 < k < |t| - 1 && IsWordChar(t[k - 1]) && IsWordChar(t[k + 1]))
  }

  /** t matches \w+(?:[-']\w+)*: it starts and ends with a word character, and each joiner sits between two. */
  predicate IsWordCluster(t: string) {
    && |t| > 0
    && IsWordChar(t[0])
    && IsWordChar(t[|t| - 1])
    && forall k :: 0 <= k < |t| ==> ClusterChar(t, k)
  }

  /** t is what the pattern matches when the match starts with t[0]: the alternatives in priority order. */
  predicate IsLexeme(t: string) {
    && |t| > 0
    && if IsWordChar(t[0]) then IsWordCluster(t)
       else if t[0] == '\'' then |t| == 1
       else if IsRunChar(t[0]) then forall k :: 0 <= k < |t| ==> IsRunChar(t[k])
       else !IsSpace(t[0]) && forall k :: 1 <= k < |t| ==> IsWordChar(t[k])
  }

  /** A match that starts at i and stops at e could still take in s[e] (greedy repetition would go on). */
  predicate CanExtend(s: string, i: nat, e: nat)
    requires i < e <= |s|
  {
    && e < |s|
    && if IsWordChar(s[i]) then
         IsWordChar(s[e]) || (IsJoiner(s[e]) && e + 1 < |s| && IsWordChar(s[e + 1]))
       else if s[i] == '\'' then false
       else if IsRunChar(s[i]) then IsRunChar(s[e])
       else IsWordChar(s[e])
  }

  // ---------------------------------------------------------------------------
  // The scanner
  // ---------------------------------------------------------------------------

  /** End of the longest run of word characters starting at i (greedy \w*). */
  function WordEnd(s: string, i: nat): (e: nat)
    requires i <= |s|
    ensures i <= e <= |s|
    ensures forall k :: i <= k < e ==> IsWordChar(s[k])
    ensures e == |s| || !IsWordChar(s[e])
    decreases |s| - i
  {
    if i < |s| && IsWordChar(s[i]) then WordEnd(s, i + 1) else i
  }

  /** End of the greedy repetition (?:[-']\w+)* that starts at i, just after a word run. */
  function ClusterEnd(s: string, i: nat): (e: nat)
    requires 0 < i <= |s| && IsWordChar(s[i - 1])
    requires i == |s| || !IsWordChar(s[i])
    ensures i <= e <= |s| && IsWordChar(s[e - 1])
    ensures forall k :: i <= k < e ==> ClusterChar(s, k)
    ensures e == |s| || (!IsWordChar(s[e]) && !(IsJoiner(s[e]) && e + 1 < |s| && IsWordChar(s[e + 1])))
    decreases |s| - i
  {
    if i + 1 < |s| && IsJoiner(s[i]) && IsWordChar(s[i + 1]) then ClusterEnd(s, WordEnd(s, i + 1)) else i
  }

  /** End of the longest run of [-.(] characters starting at i (greedy [-.(]+). */
  function RunEnd(s: string, i: nat): (e: nat)
    requires i <= |s|
    ensures i <= e <= |s|
    ensures forall k :: i <= k < e ==> IsRunChar(s[k])
    ensures e == |s| || !IsRunChar(s[e])
    decreases |s| - i
  {
    if i < |s| && IsRunChar(s[i]) then RunEnd(s, i + 1) else i
  }

  /** End of the match of the pattern at a non-whitespace position i. */
  function MatchEnd(s: string, i: nat): (e: nat)
    requires i < |s| && !IsSpace(s[i])
    ensures i < e <= |s|
    ensures IsLexeme(s[i..e])
    ensures !CanExtend(s, i, e)
  {
    if IsWordChar(s[i]) then
      var e := ClusterEnd(s, WordEnd(s, i));
      ClusterSlice(s, i, e);
      e
    else if s[i] == '\'' then i + 1
    else if IsRunChar(s[i]) then RunEnd(s, i)
    else WordEnd(s, i + 1)
  }

  /** Positions [i, e) of s that are cluster characters of s, bounded by word characters, form a word cluster. */
  lemma ClusterSlice(s: string, i: nat, e: nat)
    requires i < e <= |s| && IsWordChar(s[i]) && IsWordChar(s[e - 1])
    requires forall k :: i <= k < e ==> ClusterChar(s, k)
    ensures IsWordCluster(s[i..e])
  {
    var t := s[i..e];
    forall k | 0 <= k < |t|
      ensures ClusterChar(t, k)
    {
      assert ClusterChar(s, i + k);
    }
  }

  /** re.findall from position i on: skip whitespace, otherwise take the match and continue after it. */
  function Scan(s: string, i: nat): (r: seq<string>)
    requires i <= |s|
    ensures forall k :: 0 <= k < |r| ==> IsLexeme(r[k])
    decreases |s| - i
  {
    if i == |s| then []
    else if IsSpace(s[i]) then Scan(s, i + 1)
    else
      var e := MatchEnd(s, i);
      [s[i..e]] + Scan(s, e)
  }

  /** The raw tokens of s, before lowercasing. */
  function RawTokens(s: string): (r: seq<string>)
    ensures forall k :: 0 <= k < |r| ==> |r[k]| > 0 && SpaceFree(r[k])
    ensures Flatten(r) == NonSpace(s)
  {
    var r := Scan(s, 0);
    forall k | 0 <= k < |r|
      ensures |r[k]| > 0 && SpaceFree(r[k])
    {
      LexemeSpaceFree(r[k]);
    }
    ScanCovers(s, 0);
    r
  }

  // ---------------------------------------------------------------------------
  // Coverage: the tokens account for every non-whitespace character
  // ---------------------------------------------------------------------------

  predicate SpaceFree(t: string) {
    forall k :: 0 <= k < |t| ==> !IsSpace(t[k])
  }

  /** The characters of s that are not whitespace, in order. */
  function NonSpace(s: string): (r: string)
    ensures SpaceFree(r)
  {
    if s == [] then []
    else if IsSpace(s[0]) then NonSpace(s[1..])
    else [s[0]] + NonSpace(s[1..])
  }

  /** The concatenation of a list of strings (Python's "".join). */
  function Flatten(ts: seq<string>): string {
    if ts == [] then [] else ts[0] + Flatten(ts[1..])
  }

  lemma LexemeSpaceFree(t: string)
    requires IsLexeme(t)
    ensures SpaceFree(t)
  {
    forall k | 0 <= k < |t|
      ensures !IsSpace(t[k])
    {
      if IsWordChar(t[0]) {
        assert ClusterChar(t, k);
      }
    }
  }

  lemma {:induction false} NonSpaceAppend(a: string, b: string)
    ensures NonSpace(a + b) == NonSpace(a) + NonSpace(b)
  {
    if a == [] {
      assert a + b == b;
    } else {
      assert (a + b)[1..] == a[1..] + b;
      NonSpaceAppend(a[1..], b);
    }
  }

  lemma {:induction false} NonSpaceOfSpaceFree(t: string)
    requires SpaceFree(t)
    ensures NonSpace(t) == t
  {
    if t != [] {
      NonSpaceOfSpaceFree(t[1..]);
    }
  }

  lemma {:induction false} ScanCovers(s: string, i: nat)
    requires i <= |s|
    ensures Flatten(Scan(s, i)) == NonSpace(s[i..])
    decreases |s| - i
  {
    if i == |s| {
      assert s[i..] == [];
    } else if IsSpace(s[i]) {
      assert s[i..][1..] == s[i + 1..];
      ScanCovers(s, i + 1);
    } else {
      var e := MatchEnd(s, i);
      MatchCovers(s, i, e);
      ScanCovers(s, e);
      assert Scan(s, i) == [s[i..e]] + Scan(s, e);
      assert Scan(s, i)[1..] == Scan(s, e);
    }
  }

  /** A match contributes all of its characters to the non-blank characters of the text. */
  lemma MatchCovers(s: string, i: nat, e: nat)
    requires i < e <= |s| && IsLexeme(s[i..e])
    ensures NonSpace(s[i..]) == s[i..e] + NonSpace(s[e..])
  {
    LexemeSpaceFree(s[i..e]);
    NonSpaceOfSpaceFree(s[i..e]);
    assert s[i..] == s[i..e] + s[e..];
    NonSpaceAppend(s[i..e], s[e..]);
  }

  /** There is at most one token per non-whitespace character, and none exactly when s is all whitespace. */
  lemma TokenCount(s: string)
    ensures |RawTokens(s)| <= |NonSpace(s)|
    ensures RawTokens(s) == [] <==> NonSpace(s) == []
  {
    FlattenLength(RawTokens(s));
  }

  lemma {:induction false} FlattenLength(ts: seq<string>)
    requires forall k :: 0 <= k < |ts| ==> |ts[k]| > 0
    ensures |ts| <= |Flatten(ts)|
    ensures ts == [] <==> Flatten(ts) == []
  {
    if ts != [] {
      FlattenLength(ts[1..]);
    }
  }

  // ---------------------------------------------------------------------------
  // Lowercasing
  // ---------------------------------------------------------------------------

  /** str.lower() on one ASCII character. */
  function LowerChar(c: char): (d: char)
    ensures !IsUpper(d)
    ensures IsWordChar(d) == IsWordChar(c) && IsSpace(d) == IsSpace(c)
    ensures d == c <==> !IsUpper(c)
    ensures IsUpper(c) ==> 'a' <= d <= 'z' && d as int - 'a' as int == c as int - 'A' as int
  {
    if IsUpper(c) then (c as int + 32) as char else c
  }

  predicate IsLowerCase(t: string) {
    forall k :: 0 <= k < |t| ==> !IsUpper(t[k])
  }

  /** str.lower() on an ASCII string: only the upper-case letters change. */
  function Lower(t: string): (r: string)
    ensures |r| == |t| && IsLowerCase(r)
    ensures SpaceFree(t) ==> SpaceFree(r)
    ensures forall k :: 0 <= k < |t| ==> r[k] == LowerChar(t[k])
    ensures IsLowerCase(t) ==> r == t
  {
    seq(|t|, k requires 0 <= k < |t| => LowerChar(t[k]))
  }

  /** Lines 228-233 of compare_texts.py: the tokens of s, lowercased. */
  function Tokenize(s: string): (r: seq<string>)
    ensures |r| == |RawTokens(s)|
    ensures forall k :: 0 <= k < |r| ==> r[k] == Lower(RawTokens(s)[k])
    ensures forall k :: 0 <= k < |r| ==> |r[k]| > 0 && SpaceFree(r[k]) && IsLowerCase(r[k])
    ensures Flatten(r) == Lower(NonSpace(s))
  {
    var raw := RawTokens(s);
    var r := seq(|raw|, k requires 0 <= k < |raw| => Lower(raw[k]));
    FlattenLower(raw, r);
    r
  }

  /** Lowercasing distributes over concatenation. */
  lemma LowerAppend(a: string, b: string)
    ensures Lower(a + b) == Lower(a) + Lower(b)
  {
    assert forall k :: 0 <= k < |a| ==> (a + b)[k] == a[k];
    assert forall k :: |a| <= k < |a + b| ==> (a + b)[k] == b[k - |a|];
  }

  /** Lowercasing every token and joining them is lowercasing the joined tokens. */
  lemma {:induction false} FlattenLower(ts: seq<string>, us: seq<string>)
    requires |us| == |ts| && forall k :: 0 <= k < |ts| ==> us[k] == Lower(ts[k])
    ensures Flatten(us) == Lower(Flatten(ts))
  {
    if ts != [] {
      FlattenLower(ts[1..], us[1..]);
      LowerAppend(ts[0], Flatten(ts[1..]));
    } else {
      assert Lower([]) == [];
    }
  }

  /** A word with an apostrophe, a hyphenated word and a run of dots: the first and third alternatives. */
  lemma ScanExampleWords()
    ensures RawTokens("It's x-y..") == ["It's", "x-y", ".."]
  {
    var s := "It's x-y..";
    ExampleApostropheWord();
    ExampleWordsTail();
  }

  lemma ExampleWordsTail()
    ensures Scan("It's x-y..", 4) == ["x-y", ".."]
  {
    var s := "It's x-y..";
    ExampleWordMatches();
    assert Scan(s, 10) == [];
    assert Scan(s, 8) == [".."];
    assert Scan(s, 5) == ["x-y", ".."];
  }

  lemma ExampleApostropheWord()
    ensures MatchEnd("It's x-y..", 0) == 4 && "It's x-y.."[0..4] == "It's"
  {
    var s := "It's x-y..";
    ApostropheWordRuns();
    assert ClusterEnd(s, 2) == ClusterEnd(s, WordEnd(s, 3));
  }

  lemma ApostropheWordRuns()
    ensures WordEnd("It's x-y..", 0) == 2 && WordEnd("It's x-y..", 3) == 4
    ensures ClusterEnd("It's x-y..", 4) == 4
  {
    var s := "It's x-y..";
    assert WordEnd(s, 2) == 2 && WordEnd(s, 1) == 2;
    assert WordEnd(s, 4) == 4;
  }

  lemma ExampleWordMatches()
    ensures MatchEnd("It's x-y..", 5) == 8 && "It's x-y.."[5..8] == "x-y"
    ensures MatchEnd("It's x-y..", 8) == 10 && "It's x-y.."[8..10] == ".."
  {
    var s := "It's x-y..";
    assert WordEnd(s, 5) == 6 && WordEnd(s, 7) == 8;
    assert ClusterEnd(s, 8) == 8 && ClusterEnd(s, 6) == 8;
    assert RunEnd(s, 8) == 10;
  }

  /**
    Apostrophes around a word stay apart (an apostrophe joins only between word
    characters), and a symbol takes the word characters after it: the second
    and fourth alternatives.
  */
  lemma ScanExampleMarks()
    ensures RawTokens("'a' $5") == ["'", "a", "'", "$5"]
  {
    var s := "'a' $5";
    ExampleMarkMatches();
    assert Scan(s, 6) == [];
    assert Scan(s, 4) == ["$5"];
    assert Scan(s, 3) == ["$5"];
    assert Scan(s, 2) == ["'", "$5"];
    assert Scan(s, 1) == ["a", "'", "$5"];
  }

  lemma ExampleMarkMatches()
    ensures MatchEnd("'a' $5", 0) == 1 && "'a' $5"[0..1] == "'"
    ensures MatchEnd("'a' $5", 1) == 2 && "'a' $5"[1..2] == "a"
    ensures MatchEnd("'a' $5", 2) == 3 && "'a' $5"[2..3] == "'"
    ensures MatchEnd("'a' $5", 4) == 6 && "'a' $5"[4..6] == "$5"
  {
    var s := "'a' $5";
    assert WordEnd(s, 1) == 2 && ClusterEnd(s, 2) == 2;
    assert WordEnd(s, 5) == 6;
  }

  /** A word character followed by a blank or the end of the text is a one-character token. */
  lemma LoneWordChar(s: string, i: nat)
    requires i < |s| && IsWordChar(s[i]) && (i + 1 == |s| || IsSpace(s[i + 1]))
    ensures MatchEnd(s, i) == i + 1
  {
    assert WordEnd(s, i + 1) == i + 1;
    assert ClusterEnd(s, i + 1) == i + 1;
  }

  /** Four one-character words separated by single blanks, such as "a b c d", are four tokens. */
  lemma FourLetterWords(s: string)
    requires |s| == 7 && s[1] == ' ' && s[3] == ' ' && s[5] == ' '
    requires IsWordChar(s[0]) && IsWordChar(s[2]) && IsWordChar(s[4]) && IsWordChar(s[6])
    ensures RawTokens(s) == [s[0..1], s[2..3], s[4..5], s[6..7]]
  {
    assert Scan(s, 7) == [];
    LoneWordChar(s, 6);
    assert Scan(s, 5) == Scan(s, 6) == [s[6..7]];
    LoneWordChar(s, 4);
    assert Scan(s, 3) == Scan(s, 4) == [s[4..5], s[6..7]];
    LoneWordChar(s, 2);
    assert Scan(s, 1) == Scan(s, 2) == [s[2..3], s[4..5], s[6..7]];
    LoneWordChar(s, 0);
    assert Scan(s, 0) == [s[0..1]] + Scan(s, 1);
  }

  /** A capitalised word becomes one lowercase token: "The" tokenizes to "the". */
  lemma ExampleCapitalWord()
    ensures Tokenize("The") == ["the"]
  {
    var s := "The";
    assert WordEnd(s, 2) == 3 && WordEnd(s, 1) == 3 && WordEnd(s, 0) == 3;
    assert ClusterEnd(s, 3) == 3 && MatchEnd(s, 0) == 3 && s[0..3] == s;
    assert Scan(s, 3) == [];
    assert Scan(s, 0) == [s];
    assert Lower(s) == "the";
  }

  /** Four lowercase one-letter words separated by blanks tokenize to themselves. */
  lemma LetterTokens(a: char, b: char, c: char, d: char)
    requires 'a' <= a <= 'z' && 'a' <= b <= 'z' && 'a' <= c <= 'z' && 'a' <= d <= 'z'
    ensures Tokenize([a, ' ', b, ' ', c, ' ', d]) == [[a], [b], [c], [d]]
  {
    var s := [a, ' ', b, ' ', c, ' ', d];
    FourLetterWords(s);
    assert s[0..1] == [a] && s[2..3] == [b] && s[4..5] == [c] && s[6..7] == [d];
    var raw := RawTokens(s);
    assert forall k :: 0 <= k < |raw| ==> IsLowerCase(raw[k]);
  }
}
