/** Per-document aggregation (`FindCommonWords._get_words_details`): for every word, the
    number of its whole-word occurrences and the distinct lowercased sentences holding it. */
module Aggregate {
  import opened Text
  import opened Tokens

  /** The `[total, set-of-sentences]` cell of the source's defaultdict; the sentence set
      is held as a repeat-free list in the order sentences were first added. */
  datatype Detail = Detail(total: nat, sentences: seq<string>)

  /** The defaultdict as a map, with the order in which its keys were first touched. */
  datatype Counts = Counts(details: map<string, Detail>, order: seq<string>)

  /** One flattened `(word, total, sentences)` triple, sentences joined by newlines. */
  datatype WordRow = WordRow(word: string, total: nat, sentences: string)

  /** How many times a word is counted in a sentence. The program's own count is
      `OccurrencesAsWritten`; `Occurrences` is the corrected one. */
  type Counter = (string, string) -> nat

  /** A well-formed dictionary: the order lists every key exactly once. */
  ghost predicate Valid(c: Counts) {
    Distinct(c.order) && forall w :: w in c.details <==> w in c.order
  }

  /** The defaultdict lookup: a word never seen reads as `[0, set()]`. */
  function Get(c: Counts, w: string): Detail {
    if w in c.details then c.details[w] else Detail(0, [])
  }

  /** The body of the innermost loop: add the word's occurrence count in the sentence to its
      total and add the sentence to its sentence set. */
  function AddWord(c: Counts, w: string, sentence: string, count: Counter): Counts {
    var d := Get(c, w);
    var sentences := WithSentence(d.sentences, sentence);
    Counts(c.details[w := Detail(d.total + count(w, sentence), sentences)],
           if w in c.details then c.order else c.order + [w])
  }

  /** The innermost loop over the words of one sentence, in order. */
  function AddWords(c: Counts, words: seq<string>, sentence: string, count: Counter): Counts
    decreases |words|
  {
    if |words| == 0 then c
    else AddWord(AddWords(c, words[..|words| - 1], sentence, count), words[|words| - 1], sentence, count)
  }

  /** The dictionary after all of the given lowercased sentences, in order. */
  function Scan(sentences: seq<string>, wordsOf: string -> seq<string>, count: Counter): Counts
    decreases |sentences|
  {
    if |sentences| == 0 then Counts(map[], [])
    else
      var last := sentences[|sentences| - 1];
      AddWords(Scan(sentences[..|sentences| - 1], wordsOf, count), wordsOf(last), last, count)
  }

  function LowerAll(ss: seq<string>): (r: seq<string>)
    ensures |r| == |ss|
  {
    seq(|ss|, i requires 0 <= i < |ss| => Lower(ss[i]))
  }

  /** The lowercased sentences of a document: each line is split into sentences on its own. */
  function DocSentences(lines: seq<string>, kit: Toolkit): seq<string>
    decreases |lines|
  {
    if |lines| == 0 then []
    else DocSentences(lines[..|lines| - 1], kit) + LowerAll(kit.sentencesOf(lines[|lines| - 1]))
  }

  /** The words `_get_words` yields for a sentence under the run's stopword setting. */
  function SentenceWords(includeStopwords: bool, kit: Toolkit): string -> seq<string> {
    s => GetWords(s, includeStopwords, kit)
  }

  // ---------------------------------------------------------------------------
  // Reference definitions, one word at a time
  // ---------------------------------------------------------------------------

  /** Every word some sentence yields. */
  function SeenWords(sentences: seq<string>, wordsOf: string -> seq<string>): set<string>
    decreases |sentences|
  {
    if |sentences| == 0 then {}
    else
      var words := wordsOf(sentences[|sentences| - 1]);
      SeenWords(sentences[..|sentences| - 1], wordsOf) + set w | w in words
  }

  /** `c` added `n` times: the count of a word that a sentence yields `n` times. */
  function Times(n: nat, c: nat): nat {
    if n == 0 then 0 else Times(n - 1, c) + c
  }

  /** Sum over the sentences of (times the word is among the sentence's words) times
      (the count of the word in that sentence). */
  function TotalOf(w: string, sentences: seq<string>, wordsOf: string -> seq<string>, count: Counter): nat
    decreases |sentences|
  {
    if |sentences| == 0 then 0
    else
      var last := sentences[|sentences| - 1];
      TotalOf(w, sentences[..|sentences| - 1], wordsOf, count)
        + Times(multiset(wordsOf(last))[w], count(w, last))
  }

  /** The sentences that yield the word, each once, in order of first appearance. */
  function SentencesWith(w: string, sentences: seq<string>, wordsOf: string -> seq<string>): seq<string>
    decreases |sentences|
  {
    if |sentences| == 0 then []
    else
      var last := sentences[|sentences| - 1];
      var earlier := SentencesWith(w, sentences[..|sentences| - 1], wordsOf);
      if w in wordsOf(last) && last !in earlier then earlier + [last] else earlier
  }

  /** SentencesWith is a repeat-free list of exactly the sentences that yield the word. */
  lemma {:induction false} SentencesWithSpec(w: string, sentences: seq<string>, wordsOf: string -> seq<string>)
    ensures Distinct(SentencesWith(w, sentences, wordsOf))
    ensures forall s :: s in SentencesWith(w, sentences, wordsOf) <==>
      s in sentences && w in wordsOf(s)
    decreases |sentences|
  {
    if |sentences| > 0 {
      var prefix := sentences[..|sentences| - 1];
      SentencesWithSpec(w, prefix, wordsOf);
      assert sentences == prefix + [sentences[|sentences| - 1]];
    }
  }

  /** A word that no sentence yields has total zero. */
  lemma {:induction false} UnseenTotalZero(w: string, sentences: seq<string>, wordsOf: string -> seq<string>, count: Counter)
    requires w !in SeenWords(sentences, wordsOf)
    ensures TotalOf(w, sentences, wordsOf, count) == 0
    decreases |sentences|
  {
    if |sentences| > 0 {
      UnseenTotalZero(w, sentences[..|sentences| - 1], wordsOf, count);
      assert w !in wordsOf(sentences[|sentences| - 1]);
    }
  }

  /** The distinct sentences of a word never outnumber its total, as long as the count
      finds the word at least once in every sentence that yields it. */
  lemma {:induction false} SentencesAtMostTotal(w: string, sentences: seq<string>, wordsOf: string -> seq<string>, count: Counter)
    requires forall s :: s in sentences && w in wordsOf(s) ==> count(w, s) >= 1
    ensures |SentencesWith(w, sentences, wordsOf)| <= TotalOf(w, sentences, wordsOf, count)
    decreases |sentences|
  {
    if |sentences| > 0 {
      var prefix := sentences[..|sentences| - 1];
      var last := sentences[|sentences| - 1];
      assert forall s :: s in prefix ==> s in sentences;
      SentencesAtMostTotal(w, prefix, wordsOf, count);
      var words := wordsOf(last);
      if w in words {
        assert multiset(words)[w] >= 1;
        assert Times(multiset(words)[w], count(w, last)) >= 1;
      }
    }
  }

  /** With the corrected count the bound always holds, for a tokenizer that hands back
      whole words of its input. */
  lemma CorrectedSentencesAtMostTotal(w: string, sentences: seq<string>, includeStopwords: bool, kit: Toolkit)
    requires forall s :: s in sentences ==> TokensOccur(kit, StripContractions(s))
    ensures var wordsOf := SentenceWords(includeStopwords, kit);
      |SentencesWith(w, sentences, wordsOf)| <= TotalOf(w, sentences, wordsOf, Occurrences)
  {
    var wordsOf := SentenceWords(includeStopwords, kit);
    forall s | s in sentences && w in wordsOf(s)
      ensures Occurrences(w, s) >= 1
    {
      CountedAtLeastOnce(s, includeStopwords, kit, w);
    }
    SentencesAtMostTotal(w, sentences, wordsOf, Occurrences);
  }

  /** With the count as written the bound fails: the one-sentence document `don't` records
      its sentence under `dont` and gives it a total of zero. */
  lemma DontTotalZero()
    ensures var wordsOf := SentenceWords(false, Toolkit(x => [x], x => [x], {}));
      && SentencesWith("dont", ["don't"], wordsOf) == ["don't"]
      && TotalOf("dont", ["don't"], wordsOf, OccurrencesAsWritten) == 0
  {
    var wordsOf := SentenceWords(false, Toolkit(x => [x], x => [x], {}));
    ContractionCountedZero();
    OneSentence("dont", "don't", wordsOf, OccurrencesAsWritten);
    TimesZero(multiset(wordsOf("don't"))["dont"]);
  }

  /** A one-sentence document that yields the word. */
  lemma OneSentence(w: string, s: string, wordsOf: string -> seq<string>, count: Counter)
    requires w in wordsOf(s)
    ensures SentencesWith(w, [s], wordsOf) == [s]
    ensures TotalOf(w, [s], wordsOf, count) == Times(multiset(wordsOf(s))[w], count(w, s))
  {
    assert [s][..0] == [];
  }

  lemma {:induction false} TimesZero(n: nat)
    ensures Times(n, 0) == 0
  {
    if n > 0 {
      TimesZero(n - 1);
    }
  }

  // ---------------------------------------------------------------------------
  // The fold agrees with the reference definitions
  // ---------------------------------------------------------------------------

  /** The sentence list of a word after the sentence has been added to it as a set member. */
  function WithSentence(sentences: seq<string>, sentence: string): seq<string> {
    if sentence in sentences then sentences else sentences + [sentence]
  }

  /** One step of the innermost loop touches the one word and nothing else. */
  lemma AddWordEffect(c: Counts, x: string, sentence: string, count: Counter)
    requires Valid(c)
    ensures Valid(AddWord(c, x, sentence, count))
    ensures forall w :: w in AddWord(c, x, sentence, count).details <==> w in c.details || w == x
    ensures Get(AddWord(c, x, sentence, count), x) ==
      Detail(Get(c, x).total + count(x, sentence), WithSentence(Get(c, x).sentences, sentence))
    ensures forall w :: w != x ==> Get(AddWord(c, x, sentence, count), w) == Get(c, w)
  {
    var r := AddWord(c, x, sentence, count);
    if x !in c.details {
      forall i, j | 0 <= i < j < |r.order|
        ensures r.order[i] != r.order[j]
      {
        if j == |c.order| {
          assert r.order[i] == c.order[i];
        }
      }
    }
  }

  /** What the inner loop over one sentence's words does to the dictionary. */
  lemma AddWordsEffect(c: Counts, words: seq<string>, sentence: string, count: Counter)
    requires Valid(c)
    ensures Valid(AddWords(c, words, sentence, count))
    ensures forall w :: w in AddWords(c, words, sentence, count).details <==> w in c.details || w in words
    ensures forall w ::
      Get(AddWords(c, words, sentence, count), w).total == Get(c, w).total + Times(multiset(words)[w], count(w, sentence))
    ensures forall w :: w in words ==>
      Get(AddWords(c, words, sentence, count), w).sentences == WithSentence(Get(c, w).sentences, sentence)
    ensures forall w :: w !in words ==> Get(AddWords(c, words, sentence, count), w).sentences == Get(c, w).sentences
  {
    AddWordsKeys(c, words, sentence, count);
    forall w
      ensures Get(AddWords(c, words, sentence, count), w).total == Get(c, w).total + Times(multiset(words)[w], count(w, sentence))
      ensures Get(AddWords(c, words, sentence, count), w).sentences ==
        if w in words then WithSentence(Get(c, w).sentences, sentence) else Get(c, w).sentences
    {
      AddWordsAt(c, words, sentence, count, w);
    }
  }

  lemma {:induction false} AddWordsKeys(c: Counts, words: seq<string>, sentence: string, count: Counter)
    requires Valid(c)
    ensures Valid(AddWords(c, words, sentence, count))
    ensures forall w :: w in AddWords(c, words, sentence, count).details <==> w in c.details || w in words
    decreases |words|
  {
    if |words| > 0 {
      var prefix := words[..|words| - 1];
      var x := words[|words| - 1];
      assert words == prefix + [x];
      AddWordsKeys(c, prefix, sentence, count);
      AddWordEffect(AddWords(c, prefix, sentence, count), x, sentence, count);
    }
  }

  /** The inner loop seen from one word: its total grows by its count once per repeat, and
      the sentence joins its sentence set if the word is among the sentence's words. */
  lemma AddWordsAt(c: Counts, words: seq<string>, sentence: string, count: Counter, w: string)
    requires Valid(c)
    ensures Get(AddWords(c, words, sentence, count), w).total == Get(c, w).total + Times(multiset(words)[w], count(w, sentence))
    ensures Get(AddWords(c, words, sentence, count), w).sentences ==
      if w in words then WithSentence(Get(c, w).sentences, sentence) else Get(c, w).sentences
  {
    AddWordsTotal(c, words, sentence, count, w);
    AddWordsSentences(c, words, sentence, count, w);
  }

  lemma {:induction false} AddWordsTotal(c: Counts, words: seq<string>, sentence: string, count: Counter, w: string)
    requires Valid(c)
    ensures Get(AddWords(c, words, sentence, count), w).total == Get(c, w).total + Times(multiset(words)[w], count(w, sentence))
    decreases |words|
  {
    if |words| > 0 {
      var prefix := words[..|words| - 1];
      var x := words[|words| - 1];
      assert words == prefix + [x];
      AddWordsKeys(c, prefix, sentence, count);
      AddWordsTotal(c, prefix, sentence, count, w);
      AddWordEffect(AddWords(c, prefix, sentence, count), x, sentence, count);
      assert multiset(words)[w] == multiset(prefix)[w] + (if w == x then 1 else 0);
    }
  }

  lemma {:induction false} AddWordsSentences(c: Counts, words: seq<string>, sentence: string, count: Counter, w: string)
    requires Valid(c)
    ensures Get(AddWords(c, words, sentence, count), w).sentences ==
      if w in words then WithSentence(Get(c, w).sentences, sentence) else Get(c, w).sentences
    decreases |words|
  {
    if |words| > 0 {
      var prefix := words[..|words| - 1];
      var x := words[|words| - 1];
      assert words == prefix + [x];
      AddWordsKeys(c, prefix, sentence, count);
      AddWordsSentences(c, prefix, sentence, count, w);
      AddWordEffect(AddWords(c, prefix, sentence, count), x, sentence, count);
    }
  }

  /** The dictionary after a sequence of sentences, stated word by word. */
  lemma {:induction false} ScanSpec(sentences: seq<string>, wordsOf: string -> seq<string>, count: Counter)
    ensures Valid(Scan(sentences, wordsOf, count))
    ensures forall w :: w in Scan(sentences, wordsOf, count).details <==>
      w in SeenWords(sentences, wordsOf)
    ensures forall w ::
      Get(Scan(sentences, wordsOf, count), w).total == TotalOf(w, sentences, wordsOf, count)
    ensures forall w ::
      Get(Scan(sentences, wordsOf, count), w).sentences == SentencesWith(w, sentences, wordsOf)
    decreases |sentences|
  {
    if |sentences| > 0 {
      var prefix := sentences[..|sentences| - 1];
      var last := sentences[|sentences| - 1];
      ScanSpec(prefix, wordsOf, count);
      AddWordsEffect(Scan(prefix, wordsOf, count), wordsOf(last), last, count);
    }
  }

  function WordsOf(rows: seq<WordRow>): set<string> {
    set i | 0 <= i < |rows| :: rows[i].word
  }

  /** One row per word the sentences yield, with that word's total and its distinct
      sentences joined by newlines. */
  ghost predicate Describes(rows: seq<WordRow>, sentences: seq<string>, wordsOf: string -> seq<string>, count: Counter) {
    && (forall i, j :: 0 <= i < j < |rows| ==> rows[i].word != rows[j].word)
    && WordsOf(rows) == SeenWords(sentences, wordsOf)
    && (forall i :: 0 <= i < |rows| ==>
          rows[i].total == TotalOf(rows[i].word, sentences, wordsOf, count)
          && rows[i].sentences == Join(SentencesWith(rows[i].word, sentences, wordsOf), "\n"))
  }

  /** What `_get_words_details` promises about one document given as its lines, with its
      own count. */
  ghost predicate DescribesDocument(rows: seq<WordRow>, lines: seq<string>, includeStopwords: bool, kit: Toolkit) {
    Describes(rows, DocSentences(lines, kit), SentenceWords(includeStopwords, kit), OccurrencesAsWritten)
  }

  lemma ScanStep(done: seq<string>, sentence: string, wordsOf: string -> seq<string>, count: Counter)
    ensures Scan(done + [sentence], wordsOf, count) == AddWords(Scan(done, wordsOf, count), wordsOf(sentence), sentence, count)
  {
    assert (done + [sentence])[..|done|] == done;
  }

  lemma DocSentencesStep(lines: seq<string>, i: nat, kit: Toolkit)
    requires i < |lines|
    ensures DocSentences(lines[..i + 1], kit) == DocSentences(lines[..i], kit) + LowerAll(kit.sentencesOf(lines[i]))
  {
    assert lines[..i + 1][..i] == lines[..i];
  }

  lemma LowerAllStep(ss: seq<string>, j: nat)
    requires j < |ss|
    ensures LowerAll(ss[..j + 1]) == LowerAll(ss[..j]) + [Lower(ss[j])]
  {
  }

  lemma AddWordsStep(c: Counts, words: seq<string>, k: nat, sentence: string, count: Counter)
    requires k < |words|
    ensures AddWords(c, words[..k + 1], sentence, count) == AddWord(AddWords(c, words[..k], sentence, count), words[k], sentence, count)
  {
    assert words[..k + 1][..k] == words[..k];
  }

  /** One update of the dictionary: the word's count grows by its whole-word matches in the
      lowercased sentence as it stands (before any contraction rewrite), and the sentence
      joins the word's sentence set. */
  method Bump(details: map<string, Detail>, order: seq<string>, word: string, sentence: string)
    returns (details': map<string, Detail>, order': seq<string>)
    ensures Counts(details', order') == AddWord(Counts(details, order), word, sentence, OccurrencesAsWritten)
  {
    var detail := if word in details then details[word] else Detail(0, []);
    order' := if word in details then order else order + [word];
    var seen := if sentence in detail.sentences then detail.sentences else detail.sentences + [sentence];
    details' := details[word := Detail(detail.total + WholeWordCount(word, sentence), seen)];
  }

  /** The triple loop of `_get_words_details` over lines, sentences and words, updating
      the dictionary in place. */
  method Tally(lines: seq<string>, includeStopwords: bool, kit: Toolkit)
    returns (details: map<string, Detail>, order: seq<string>)
    ensures Counts(details, order) == Scan(DocSentences(lines, kit), SentenceWords(includeStopwords, kit), OccurrencesAsWritten)
  {
    ghost var wordsOf := SentenceWords(includeStopwords, kit);
    ghost var count: Counter := OccurrencesAsWritten;
    details, order := map[], [];
    var i := 0;
    while i < |lines|
      invariant 0 <= i <= |lines|
      invariant Counts(details, order) == Scan(DocSentences(lines[..i], kit), wordsOf, count)
    {
      ghost var before := DocSentences(lines[..i], kit);
      var sentences := kit.sentencesOf(lines[i]);
      var j := 0;
      assert before + LowerAll(sentences[..j]) == before;
      while j < |sentences|
        invariant 0 <= j <= |sentences|
        invariant Counts(details, order) == Scan(before + LowerAll(sentences[..j]), wordsOf, count)
      {
        var sentence := Lower(sentences[j]);
        var words := GetWords(sentence, includeStopwords, kit);
        ghost var done := before + LowerAll(sentences[..j]);
        var k := 0;
        while k < |words|
          invariant 0 <= k <= |words|
          invariant Counts(details, order) == AddWords(Scan(done, wordsOf, count), words[..k], sentence, count)
        {
          AddWordsStep(Scan(done, wordsOf, count), words, k, sentence, count);
          details, order := Bump(details, order, words[k], sentence);
          k := k + 1;
        }
        assert words[..k] == words;
        assert wordsOf(sentence) == words;
        LowerAllStep(sentences, j);
        assert before + (LowerAll(sentences[..j]) + [sentence]) == done + [sentence];
        ScanStep(done, sentence, wordsOf, count);
        j := j + 1;
      }
      assert sentences[..j] == sentences;
      DocSentencesStep(lines, i, kit);
      i := i + 1;
    }
    assert lines[..i] == lines;
  }

  /** The flattened triple for one word of the dictionary. */
  function RowOf(c: Counts, w: string): WordRow {
    WordRow(w, Get(c, w).total, Join(Get(c, w).sentences, "\n"))
  }

  /** The flattening loop: a row of word, total and newline-joined sentences per
      dictionary key, in insertion order. */
  method Flatten(details: map<string, Detail>, order: seq<string>) returns (rows: seq<WordRow>)
    ensures |rows| == |order|
    ensures forall m :: 0 <= m < |rows| ==> rows[m] == RowOf(Counts(details, order), order[m])
  {
    rows := [];
    var k := 0;
    while k < |order|
      invariant 0 <= k <= |order|
      invariant |rows| == k
      invariant forall m :: 0 <= m < k ==> rows[m] == RowOf(Counts(details, order), order[m])
    {
      var d := if order[k] in details then details[order[k]] else Detail(0, []);
      rows := rows + [WordRow(order[k], d.total, Join(d.sentences, "\n"))];
      k := k + 1;
    }
  }

  /** `_get_words_details`: tally the document, then flatten the dictionary into one row
      per word, in the order the words were first met. */
  method WordsDetails(lines: seq<string>, includeStopwords: bool, kit: Toolkit) returns (result: seq<WordRow>)
    ensures DescribesDocument(result, lines, includeStopwords, kit)
  {
    var details, order := Tally(lines, includeStopwords, kit);
    result := Flatten(details, order);
    ghost var c := Counts(details, order);
    ghost var all := DocSentences(lines, kit);
    ghost var wordsOf := SentenceWords(includeStopwords, kit);
    ScanSpec(all, wordsOf, OccurrencesAsWritten);
    RowsDescribe(result, c, all, wordsOf, OccurrencesAsWritten);
  }

  lemma RowsDescribe(rows: seq<WordRow>, c: Counts, all: seq<string>, wordsOf: string -> seq<string>, count: Counter)
    requires |rows| == |c.order|
    requires forall m :: 0 <= m < |rows| ==> rows[m] == RowOf(c, c.order[m])
    requires Valid(c)
    requires forall w :: w in c.details <==> w in SeenWords(all, wordsOf)
    requires forall w :: Get(c, w).total == TotalOf(w, all, wordsOf, count)
    requires forall w :: Get(c, w).sentences == SentencesWith(w, all, wordsOf)
    ensures Describes(rows, all, wordsOf, count)
  {
    forall w | w in WordsOf(rows)
      ensures w in SeenWords(all, wordsOf)
    {
      var m :| 0 <= m < |rows| && rows[m].word == w;
    }
    forall w | w in SeenWords(all, wordsOf)
      ensures w in WordsOf(rows)
    {
      var m :| 0 <= m < |c.order| && c.order[m] == w;
      assert rows[m].word == w;
    }
  }
}
