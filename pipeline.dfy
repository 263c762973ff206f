/** The whole run (`FindCommonWords.find_common_words`): every source document is
    aggregated, the ones with at least one word are stored, and the stored documents are
    merged into the report. */
module Pipeline {
  import opened Text
  import opened Tokens
  import opened Aggregate
  import opened Corpus

  /** One file of the source directory: the id its stored rows will carry in the `docs`
      column, and its lines, already decoded. */
  datatype Source = Source(id: string, lines: seq<string>)

  /** The table a document's stored rows hold, word by word, from the reference
      definitions of the aggregation. */
  function DocCounts(lines: seq<string>, kit: Toolkit, wordsOf: string -> seq<string>, count: Counter): map<string, DocRecord> {
    TableOf(DocSentences(lines, kit), wordsOf, count)
  }

  function TableOf(sentences: seq<string>, wordsOf: string -> seq<string>, count: Counter): map<string, DocRecord> {
    map w | w in SeenWords(sentences, wordsOf) ::
      DocRecord(TotalOf(w, sentences, wordsOf, count), Join(SentencesWith(w, sentences, wordsOf), "\n"))
  }

  /** The documents the first loop stores, in order: every source whose table has a word;
      an empty dataframe is skipped. */
  function Stored(sources: seq<Source>, kit: Toolkit, wordsOf: string -> seq<string>, count: Counter): seq<Document>
    decreases |sources|
  {
    if |sources| == 0 then []
    else
      var earlier := Stored(sources[..|sources| - 1], kit, wordsOf, count);
      var src := sources[|sources| - 1];
      var table := DocCounts(src.lines, kit, wordsOf, count);
      if |table| == 0 then earlier else earlier + [Document(src.id, table)]
  }

  /** One row's columns, found under its word, are the reference values. */
  lemma DescribedAt(rows: seq<WordRow>, sentences: seq<string>, wordsOf: string -> seq<string>, count: Counter, i: nat)
    requires Describes(rows, sentences, wordsOf, count) && i < |rows|
    ensures rows[i].word in TableOf(sentences, wordsOf, count)
    ensures DocTable(rows)[rows[i].word] == TableOf(sentences, wordsOf, count)[rows[i].word]
  {
    DocTableAt(rows);
    assert rows[i].word in WordsOf(rows);
  }

  /** The rows' words are the words of the reference table. */
  lemma DescribedKeys(rows: seq<WordRow>, sentences: seq<string>, wordsOf: string -> seq<string>, count: Counter)
    requires Describes(rows, sentences, wordsOf, count)
    ensures DocTable(rows).Keys == TableOf(sentences, wordsOf, count).Keys
  {
    assert TableOf(sentences, wordsOf, count).Keys == SeenWords(sentences, wordsOf);
  }

  /** Under every word, the rows' table holds the reference values. */
  lemma DescribedValues(rows: seq<WordRow>, sentences: seq<string>, wordsOf: string -> seq<string>, count: Counter)
    requires Describes(rows, sentences, wordsOf, count)
    ensures forall w :: w in DocTable(rows) ==>
      w in TableOf(sentences, wordsOf, count) && DocTable(rows)[w] == TableOf(sentences, wordsOf, count)[w]
  {
    forall w | w in DocTable(rows)
      ensures w in TableOf(sentences, wordsOf, count) && DocTable(rows)[w] == TableOf(sentences, wordsOf, count)[w]
    {
      var i :| 0 <= i < |rows| && rows[i].word == w;
      DescribedAt(rows, sentences, wordsOf, count, i);
    }
  }

  /** The rows `_get_words_details` returns index into exactly the reference table, and
      there are none exactly when the document has no word. */
  lemma DescribedTable(rows: seq<WordRow>, sentences: seq<string>, wordsOf: string -> seq<string>, count: Counter)
    requires Describes(rows, sentences, wordsOf, count)
    ensures DocTable(rows) == TableOf(sentences, wordsOf, count)
    ensures |rows| == 0 <==> |TableOf(sentences, wordsOf, count)| == 0
  {
    var t, expected := DocTable(rows), TableOf(sentences, wordsOf, count);
    DescribedKeys(rows, sentences, wordsOf, count);
    DescribedValues(rows, sentences, wordsOf, count);
    SameEntries(t, expected);
    NoRowsEmptyTable(rows);
  }

  /** Two maps with the same keys and the same value under each key are equal. */
  lemma SameEntries<K, V>(a: map<K, V>, b: map<K, V>)
    requires a.Keys == b.Keys
    requires forall k :: k in a ==> k in b && a[k] == b[k]
    ensures a == b
  {
  }

  /** A document's table is empty exactly when it has no rows. */
  lemma NoRowsEmptyTable(rows: seq<WordRow>)
    ensures |rows| == 0 <==> |DocTable(rows)| == 0
  {
    if |rows| > 0 {
      assert rows[0].word in WordsOf(rows);
      assert rows[0].word in DocTable(rows).Keys;
    } else {
      assert DocTable(rows) == map[];
    }
  }

  /** `find_common_words`: aggregate each source and write the non-empty ones to the transit
      directory, then list that directory again and build the report from the documents
      in the order that second listing yields them. The listing order is not specified, so
      it is chosen freely; `listed` is the order the documents were read back in. */
  method FindCommonWords(sources: seq<Source>, includeStopwords: bool, kit: Toolkit, limit: int)
    returns (listed: seq<Document>, report: seq<ReportRow>)
    ensures multiset(listed) == multiset(Stored(sources, kit, SentenceWords(includeStopwords, kit), OccurrencesAsWritten))
    ensures IsReport(Fold(listed), limit, report)
  {
    ghost var wordsOf := SentenceWords(includeStopwords, kit);
    ghost var count: Counter := OccurrencesAsWritten;
    var written: seq<Document> := [];
    var i := 0;
    while i < |sources|
      invariant 0 <= i <= |sources|
      invariant written == Stored(sources[..i], kit, wordsOf, count)
    {
      var rows := WordsDetails(sources[i].lines, includeStopwords, kit);
      DescribedTable(rows, DocSentences(sources[i].lines, kit), wordsOf, count);
      assert sources[..i + 1][..i] == sources[..i];
      if |rows| != 0 {
        written := written + [Document(sources[i].id, DocTable(rows))];
      }
      i := i + 1;
    }
    assert sources[..i] == sources;
    listed := [];
    var unread := multiset(written);
    while unread != multiset{}
      invariant multiset(listed) + unread == multiset(written)
      decreases |unread|
    {
      var d :| d in unread;
      listed := listed + [d];
      unread := unread - multiset{d};
    }
    report := FinalDataframe(listed, limit);
  }

  // ---------------------------------------------------------------------------
  // Totals across the corpus
  // ---------------------------------------------------------------------------

  /** The word's whole-word count summed over every source document. */
  function CorpusTotal(w: string, sources: seq<Source>, kit: Toolkit, wordsOf: string -> seq<string>, count: Counter): nat
    decreases |sources|
  {
    if |sources| == 0 then 0
    else
      var src := sources[|sources| - 1];
      CorpusTotal(w, sources[..|sources| - 1], kit, wordsOf, count) + TotalOf(w, DocSentences(src.lines, kit), wordsOf, count)
  }

  /** What one source adds to a word's sum over the stored documents: its total, or
      nothing when it was skipped. */
  lemma StoredStep(w: string, sources: seq<Source>, kit: Toolkit, wordsOf: string -> seq<string>, count: Counter)
    requires |sources| > 0
    ensures SumTotals(w, Stored(sources, kit, wordsOf, count)) ==
      SumTotals(w, Stored(sources[..|sources| - 1], kit, wordsOf, count))
        + TotalOf(w, DocSentences(sources[|sources| - 1].lines, kit), wordsOf, count)
  {
    var src := sources[|sources| - 1];
    var earlier := Stored(sources[..|sources| - 1], kit, wordsOf, count);
    var table := DocCounts(src.lines, kit, wordsOf, count);
    var sentences := DocSentences(src.lines, kit);
    assert w in table <==> w in SeenWords(sentences, wordsOf);
    if w !in table {
      UnseenTotalZero(w, sentences, wordsOf, count);
    }
    if |table| == 0 {
      assert w !in table;
      assert Stored(sources, kit, wordsOf, count) == earlier;
    } else {
      var doc := Document(src.id, table);
      var docs := earlier + [doc];
      assert Stored(sources, kit, wordsOf, count) == docs;
      assert docs[..|docs| - 1] == earlier;
      assert SumTotals(w, docs) == SumTotals(w, earlier) + TotalIn(w, doc);
      assert TotalIn(w, doc) == TotalOf(w, sentences, wordsOf, count);
    }
  }

  /** Skipping the documents without words loses nothing from any total. */
  lemma {:induction false} StoredTotals(w: string, sources: seq<Source>, kit: Toolkit, wordsOf: string -> seq<string>, count: Counter)
    ensures SumTotals(w, Stored(sources, kit, wordsOf, count)) == CorpusTotal(w, sources, kit, wordsOf, count)
    decreases |sources|
  {
    if |sources| > 0 {
      StoredTotals(w, sources[..|sources| - 1], kit, wordsOf, count);
      StoredStep(w, sources, kit, wordsOf, count);
    }
  }

  /** End to end, whatever order the transit directory is read back in: every row of the
      report carries the word's total over the whole corpus, and every stored word whose
      corpus total reaches the limit is reported. */
  lemma ReportTotals(sources: seq<Source>, kit: Toolkit, wordsOf: string -> seq<string>, count: Counter,
                     limit: int, listed: seq<Document>, report: seq<ReportRow>)
    requires multiset(listed) == multiset(Stored(sources, kit, wordsOf, count))
    requires IsReport(Fold(listed), limit, report)
    ensures forall i :: 0 <= i < |report| ==>
      report[i].record.total == CorpusTotal(report[i].word, sources, kit, wordsOf, count)
    ensures forall w :: (w in AllWords(Stored(sources, kit, wordsOf, count))
      && CorpusTotal(w, sources, kit, wordsOf, count) >= limit) ==> w in RowWords(report)
  {
    var docs := Stored(sources, kit, wordsOf, count);
    FoldClosedForm(listed);
    FoldClosedForm(docs);
    FoldIndependentOfOrder(docs, listed);
    forall i | 0 <= i < |report|
      ensures report[i].record.total == CorpusTotal(report[i].word, sources, kit, wordsOf, count)
    {
      StoredTotals(report[i].word, sources, kit, wordsOf, count);
    }
    forall w | w in AllWords(docs) && CorpusTotal(w, sources, kit, wordsOf, count) >= limit
      ensures w in RowWords(report)
    {
      StoredTotals(w, sources, kit, wordsOf, count);
    }
  }
}
