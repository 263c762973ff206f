/** Word extraction from one sentence (`FindCommonWords._get_words`) and the whole-word
    occurrence count that the per-document aggregation takes for each word. */
module Tokens {
  import opened Text

  /** The linguistic services the pipeline calls without looking inside: sentence
      splitting, the word tokenizer, and the English stopword list. */
  datatype Toolkit = Toolkit(
    sentencesOf: string -> seq<string>,
    tokenize: string -> seq<string>,
    stopwords: set<string>)

  // ---------------------------------------------------------------------------
  // Contractions: a quote character between two word characters is deleted.
  // ---------------------------------------------------------------------------

  /** The four characters the contraction rewrite treats as apostrophes: ' ’ ` " */
  predicate IsQuote(c: char) {
    c == '\'' || c == '\U{2019}' || c == '`' || c == '"'
  }

  /** Position i holds a quote with a word character on each side (a look-behind and a
      look-ahead on the text as it was before any deletion). */
  predicate IsContractionMark(s: string, i: int) {
    0 < i < |s| - 1 && IsQuote(s[i]) && IsWordChar(s[i - 1]) && IsWordChar(s[i + 1])
  }

  function StripFrom(s: string, i: nat): string
    requires i <= |s|
    decreases |s| - i
  {
    if i == |s| then []
    else if IsContractionMark(s, i) then StripFrom(s, i + 1)
    else [s[i]] + StripFrom(s, i + 1)
  }

  /** The substitution that removes every contraction mark. */
  function StripContractions(s: string): string {
    StripFrom(s, 0)
  }

  ghost predicate NoContractionMarks(s: string) {
    forall i :: !IsContractionMark(s, i)
  }

  /** The rewrite deletes nothing but quote characters. */
  lemma {:induction false} StripDeletesOnlyQuotes(s: string, i: nat)
    requires i <= |s|
    ensures multiset(StripFrom(s, i)) <= multiset(s[i..])
    ensures forall c :: !IsQuote(c) ==> multiset(StripFrom(s, i))[c] == multiset(s[i..])[c]
    decreases |s| - i
  {
    if i < |s| {
      StripDeletesOnlyQuotes(s, i + 1);
      assert s[i..] == [s[i]] + s[i + 1..];
    }
  }

  /** What the rewrite leaves at the front of a suffix. */
  lemma StripFirst(s: string, i: nat)
    requires i < |s|
    ensures |StripFrom(s, i)| > 0
    ensures StripFrom(s, i)[0] == if IsContractionMark(s, i) then s[i + 1] else s[i]
  {
    if IsContractionMark(s, i) {
      assert !IsContractionMark(s, i + 1);
    }
  }

  /** No contraction mark survives the rewrite: deleting a quote joins two word
      characters, and a quote that stays keeps both of its neighbours. */
  lemma {:induction false} StripLeavesNoMarks(s: string, i: nat)
    requires i <= |s|
    ensures NoContractionMarks(StripFrom(s, i))
    decreases |s| - i
  {
    if i < |s| {
      StripLeavesNoMarks(s, i + 1);
      var rest := StripFrom(s, i + 1);
      if !IsContractionMark(s, i) {
        var r := StripFrom(s, i);
        assert r == [s[i]] + rest;
        forall k
          ensures !IsContractionMark(r, k)
        {
          if k >= 2 {
            assert IsContractionMark(r, k) == IsContractionMark(rest, k - 1);
          } else if k == 1 && |rest| > 1 {
            StripFirst(s, i + 1);
          }
        }
      }
    }
  }

  lemma {:induction false} StripKeepsMarkFree(s: string, i: nat)
    requires i <= |s|
    requires NoContractionMarks(s)
    ensures StripFrom(s, i) == s[i..]
    decreases |s| - i
  {
    if i < |s| {
      assert !IsContractionMark(s, i);
      StripKeepsMarkFree(s, i + 1);
      assert s[i..] == [s[i]] + s[i + 1..];
    }
  }

  /** Stripping twice is stripping once. */
  lemma StripIdempotent(s: string)
    ensures StripContractions(StripContractions(s)) == StripContractions(s)
  {
    StripLeavesNoMarks(s, 0);
    StripKeepsMarkFree(StripContractions(s), 0);
  }

  /** `don't` becomes `dont`, `L`Apostrophe` becomes `LApostrophe`, and in `2004's,`
      the apostrophe goes while the comma stays. */
  lemma ContractionExamples()
    ensures StripContractions("don't") == "dont"
    ensures StripContractions("L`Apostrophe") == "LApostrophe"
    ensures StripContractions("2004's,") == "2004s,"
  {
    var a := "don't";
    assert IsContractionMark(a, 3);
    assert StripFrom(a, 4) == "t";
    assert StripFrom(a, 3) == "t";
    var b := "L`Apostrophe";
    assert IsContractionMark(b, 1);
    assert forall k :: 2 <= k <= |b| ==> !IsContractionMark(b, k);
    StripKeepsSuffix(b, 2);
    var c := "2004's,";
    assert IsContractionMark(c, 4);
    assert StripFrom(c, 5) == "s,";
    assert StripFrom(c, 4) == "s,";
  }

  lemma {:induction false} StripKeepsSuffix(s: string, i: nat)
    requires i <= |s|
    requires forall k :: i <= k <= |s| ==> !IsContractionMark(s, k)
    ensures StripFrom(s, i) == s[i..]
    decreases |s| - i
  {
    if i < |s| {
      StripKeepsSuffix(s, i + 1);
      assert s[i..] == [s[i]] + s[i + 1..];
    }
  }

  // ---------------------------------------------------------------------------
  // _get_words
  // ---------------------------------------------------------------------------

  /** A token the punctuation filter keeps: its pattern is anchored at
      the start only, so only the first character is looked at (and an empty token passes). */
  predicate StartsLikeWord(t: string) {
    |t| == 0 || IsWordChar(t[0])
  }

  /** The tokens the tokenizer returns for a sentence once its contractions are joined. */
  function Tokenized(sentence: string, kit: Toolkit): seq<string> {
    kit.tokenize(StripContractions(sentence))
  }

  function NotStopword(kit: Toolkit): string -> bool {
    t => t !in kit.stopwords
  }

  /** `_get_words`: strip contractions, tokenize, optionally take the set difference with
      the stopword list (case-sensitive, and it collapses repeats), then drop tokens
      whose first character is not a word character. */
  function GetWords(sentence: string, includeStopwords: bool, kit: Toolkit): (words: seq<string>)
    ensures includeStopwords ==>
      forall w :: multiset(words)[w] ==
        if StartsLikeWord(w) then multiset(Tokenized(sentence, kit))[w] else 0
    ensures !includeStopwords ==> Distinct(words)
    ensures !includeStopwords ==>
      forall w :: w in words <==>
        w in Tokenized(sentence, kit) && w !in kit.stopwords && StartsLikeWord(w)
  {
    var tokens := Tokenized(sentence, kit);
    var kept := Filter(tokens, NotStopword(kit));
    var chosen := if includeStopwords then tokens else Dedup(kept);
    FilterCount(chosen, StartsLikeWord);
    FilterMembers(chosen, StartsLikeWord);
    FilterMembers(tokens, NotStopword(kit));
    DedupSpec(kept);
    if !includeStopwords then FilterDistinct(chosen, StartsLikeWord); Filter(chosen, StartsLikeWord)
    else Filter(chosen, StartsLikeWord)
  }

  /** "To be continued...": the trailing dots never become a word, `be` goes as a
      stopword while capitalised `To` stays, and with stopwords kept all three words remain. */
  lemma ToBeContinued(kit: Toolkit)
    requires Tokenized("To be continued...", kit) == ["To", "be", "continued", "..."]
    requires "be" in kit.stopwords && "To" !in kit.stopwords && "continued" !in kit.stopwords
    requires "..." !in kit.stopwords
    ensures GetWords("To be continued...", false, kit) == ["To", "continued"]
    ensures GetWords("To be continued...", true, kit) == ["To", "be", "continued"]
  {
    var keep := NotStopword(kit);
    assert !keep("be") && keep("To") && keep("continued") && keep("...");
    PunctuationDropped();
    StopwordDropped(keep);
    RepeatFreeKept();
  }

  lemma PunctuationDropped()
    ensures Filter(["To", "be", "continued", "..."], StartsLikeWord) == ["To", "be", "continued"]
  {
    assert StartsLikeWord("To") && StartsLikeWord("be") && StartsLikeWord("continued");
    assert !StartsLikeWord("...");
    FilterFour("To", "be", "continued", "...", StartsLikeWord);
  }

  lemma StopwordDropped(keep: string -> bool)
    requires !keep("be") && keep("To") && keep("continued") && keep("...")
    ensures Filter(["To", "be", "continued", "..."], keep) == ["To", "continued", "..."]
  {
    FilterFour("To", "be", "continued", "...", keep);
  }

  lemma RepeatFreeKept()
    ensures Dedup(["To", "continued", "..."]) == ["To", "continued", "..."]
    ensures Filter(["To", "continued", "..."], StartsLikeWord) == ["To", "continued"]
  {
    var t1, k2, k3 := ["To"], ["To", "continued"], ["To", "continued", "..."];
    assert t1[..0] == [] && k2[..1] == t1 && k3[..2] == k2;
    assert Dedup(t1) == t1;
    assert Dedup(k2) == k2;
    assert StartsLikeWord("To") && StartsLikeWord("continued") && !StartsLikeWord("...");
    FilterThree("To", "continued", "...", StartsLikeWord);
  }

  // ---------------------------------------------------------------------------
  // Whole-word occurrences: len(re.findall(r'\b' + word + r'\b', text))
  // ---------------------------------------------------------------------------

  /** Position p of s holds a word character (both ends of the text count as non-word). */
  predicate WordAt(s: string, p: int) {
    0 <= p < |s| && IsWordChar(s[p])
  }

  /** `\b`: a word character on exactly one side of position p. */
  predicate Boundary(s: string, p: int) {
    WordAt(s, p - 1) != WordAt(s, p)
  }

  /** The word occurs literally at position i with a word boundary on both sides. */
  predicate MatchAt(w: string, s: string, i: int) {
    0 <= i && i + |w| <= |s| && s[i..i + |w|] == w && Boundary(s, i) && Boundary(s, i + |w|)
  }

  ghost predicate OccursAsWord(w: string, s: string) {
    exists i :: MatchAt(w, s, i)
  }

  /** `findall` scanning from position i: leftmost matches that do not overlap; after an
      empty match the scan moves on by one character. */
  function CountFrom(w: string, s: string, i: nat): nat
    decreases |s| + 1 - i
  {
    if i > |s| then 0
    else if MatchAt(w, s, i) then 1 + CountFrom(w, s, i + (if |w| == 0 then 1 else |w|))
    else CountFrom(w, s, i + 1)
  }

  function WholeWordCount(w: string, s: string): nat {
    CountFrom(w, s, 0)
  }

  lemma {:induction false} CountFromPositive(w: string, s: string, i: nat)
    ensures CountFrom(w, s, i) > 0 <==> exists j :: i <= j && MatchAt(w, s, j)
    decreases |s| + 1 - i
  {
    if i <= |s| && !MatchAt(w, s, i) {
      CountFromPositive(w, s, i + 1);
      if exists j :: i <= j && MatchAt(w, s, j) {
        var j :| i <= j && MatchAt(w, s, j);
        assert i + 1 <= j;
      }
    } else if i <= |s| {
      CountFromPositive(w, s, i + (if |w| == 0 then 1 else |w|));
    }
  }

  /** The count is non-zero exactly when the word occurs somewhere as a whole word. */
  lemma WholeWordCountPositive(w: string, s: string)
    ensures WholeWordCount(w, s) > 0 <==> OccursAsWord(w, s)
  {
    CountFromPositive(w, s, 0);
  }

  /** As written, a word is counted in the lowercased sentence itself, before its
      contractions are joined. */
  function OccurrencesAsWritten(w: string, sentence: string): nat {
    WholeWordCount(w, sentence)
  }

  /** Corrected: a word is counted in the text it was tokenized from. */
  function Occurrences(w: string, sentence: string): nat {
    WholeWordCount(w, StripContractions(sentence))
  }

  /** Every token the punctuation filter would keep stands in the tokenizer's input as a
      whole word; punctuation tokens such as `.` or `...` are not asked to. */
  ghost predicate TokensOccur(kit: Toolkit, text: string) {
    forall t :: t in kit.tokenize(text) && StartsLikeWord(t) ==> OccursAsWord(t, text)
  }

  /** The word `dont` taken from "don't" is a word of the sentence, yet the count as
      written finds it zero times; the corrected count finds it once. */
  lemma ContractionCountedZero()
    ensures var kit := Toolkit(x => [x], x => [x], {});
      && "dont" in GetWords("don't", false, kit)
      && OccurrencesAsWritten("dont", "don't") == 0
      && Occurrences("dont", "don't") == 1
  {
    var kit := Toolkit(x => [x], x => [x], {});
    ContractionExamples();
    assert Tokenized("don't", kit) == ["dont"];
    assert StartsLikeWord("dont");
    var s := "don't";
    assert !MatchAt("dont", s, 0) by { assert s[0..4] == "don'"; }
    assert !MatchAt("dont", s, 1) by { assert s[1..5] == "on't"; }
    assert CountFrom("dont", s, 2) == 0;
    assert CountFrom("dont", s, 1) == 0;
    var t := "dont";
    assert MatchAt("dont", t, 0) by { assert t[0..4] == t; }
    assert CountFrom("dont", t, 4) == 0;
  }

  /** With the correction, every word that `_get_words` returns is counted at least once
      in its sentence, provided the word-like tokens are whole words of the tokenizer's input. */
  lemma CountedAtLeastOnce(sentence: string, includeStopwords: bool, kit: Toolkit, w: string)
    requires TokensOccur(kit, StripContractions(sentence))
    requires w in GetWords(sentence, includeStopwords, kit)
    ensures Occurrences(w, sentence) >= 1
  {
    var words := GetWords(sentence, includeStopwords, kit);
    if includeStopwords {
      assert multiset(words)[w] > 0;
    }
    assert w in Tokenized(sentence, kit) && StartsLikeWord(w);
    WholeWordCountPositive(w, StripContractions(sentence));
  }

  /** The hypothesis holds for ordinary punctuated text: `cat.` split into `cat` and `.`. */
  lemma PunctuatedTextQualifies(kit: Toolkit)
    requires kit.tokenize("cat.") == ["cat", "."]
    ensures TokensOccur(kit, "cat.")
  {
    var s := "cat.";
    assert !StartsLikeWord(".");
    assert MatchAt("cat", s, 0) by { assert s[0..3] == "cat"; }
  }
}
