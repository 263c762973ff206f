/** The cross-document stage (`FindCommonWords._get_final_dataframe`): the stored
    per-document tables are outer-joined one after the other on the word, their columns
    concatenated and summed, and the result filtered by the occurrence limit and sorted
    by total. */
module Corpus {
  import opened Text
  import opened Aggregate

  /** One row of a stored per-document table, keyed by its word. */
  datatype DocRecord = DocRecord(total: nat, sentences: string)

  /** A stored document: the value its rows carry in the `docs` column, and its table
      indexed by word. */
  datatype Document = Document(id: string, table: map<string, DocRecord>)

  /** A row of the merged dataframe: the `docs`, `total` and `sentences` columns. The two
      string columns may be NaN (`None`). */
  datatype Record = Record(docs: Option<string>, total: nat, sentences: Option<string>)

  /** A row of the final dataframe: the index value and its columns. */
  datatype ReportRow = ReportRow(word: string, record: Record)

  /** The flattened triples of a document turned into a table indexed by word. */
  function DocTable(rows: seq<WordRow>): (t: map<string, DocRecord>)
    ensures t.Keys == WordsOf(rows)
    decreases |rows|
  {
    if |rows| == 0 then map[]
    else
      var last := rows[|rows| - 1];
      assert rows == rows[..|rows| - 1] + [last];
      DocTable(rows[..|rows| - 1])[last.word := DocRecord(last.total, last.sentences)]
  }

  /** When the words are distinct, each row's columns are found under its word. */
  lemma {:induction false} DocTableAt(rows: seq<WordRow>)
    requires forall i, j :: 0 <= i < j < |rows| ==> rows[i].word != rows[j].word
    ensures forall i :: 0 <= i < |rows| ==>
      DocTable(rows)[rows[i].word] == DocRecord(rows[i].total, rows[i].sentences)
    decreases |rows|
  {
    if |rows| > 0 {
      var prefix := rows[..|rows| - 1];
      var last := rows[|rows| - 1];
      DocTableAt(prefix);
      forall i | 0 <= i < |rows|
        ensures DocTable(rows)[rows[i].word] == DocRecord(rows[i].total, rows[i].sentences)
      {
        if i < |prefix| {
          assert prefix[i] == rows[i];
          assert rows[i].word != last.word;
        }
      }
    }
  }

  // ---------------------------------------------------------------------------
  // The inner `concat` helper
  // ---------------------------------------------------------------------------

  /** The arguments of `concat` that are not NaN, in order. */
  function Present(args: seq<Option<string>>): (r: seq<string>)
    ensures |r| <= |args|
    ensures |r| == 0 <==> forall i :: 0 <= i < |args| ==> args[i].None?
    decreases |args|
  {
    if |args| == 0 then []
    else
      var earlier := Present(args[..|args| - 1]);
      match args[|args| - 1]
      case None => earlier
      case Some(s) => earlier + [s]
  }

  /** `concat(*args, delimeter=delim)`: the arguments that are not NaN joined by the
      delimiter, or NaN when every argument is NaN. */
  function Concat(args: seq<Option<string>>, delim: string): (r: Option<string>)
    ensures r.None? <==> forall i :: 0 <= i < |args| ==> args[i].None?
  {
    var strs := Present(args);
    if |strs| == 0 then None else Some(Join(strs, delim))
  }

  /** The two-argument calls the merge makes: NaN is the unit, and two present values are
      glued with the delimiter. */
  lemma ConcatPair(a: Option<string>, b: Option<string>, delim: string)
    ensures Concat([a, b], delim) ==
      match (a, b)
      case (None, None) => None
      case (Some(x), None) => Some(x)
      case (None, Some(y)) => Some(y)
      case (Some(x), Some(y)) => Some(x + delim + y)
  {
    assert [a, b][..1] == [a];
    assert [a][..0] == [];
    match (a, b)
    case (Some(x), Some(y)) =>
      assert Present([a, b]) == [x, y];
      assert [x, y][..1] == [x];
      assert Join([x, y], delim) == Join([x], delim) + delim + y;
    case (Some(x), None) =>
      assert Present([a, b]) == [x];
    case (None, Some(y)) =>
      assert Present([a, b]) == [y];
    case (None, None) =>
      assert Present([a, b]) == [];
  }

  /** Concatenating one more argument is concatenating it to the earlier result: the
      pairwise merges of a fold build the same string as one call on all the values. */
  lemma {:induction false} ConcatAppend(args: seq<Option<string>>, x: Option<string>, delim: string)
    ensures Concat(args + [x], delim) == Concat([Concat(args, delim), x], delim)
  {
    assert (args + [x])[..|args|] == args;
    ConcatPair(Concat(args, delim), x, delim);
    var p := Present(args);
    if x.Some? && |p| > 0 {
      assert Present(args + [x]) == p + [x.value];
      assert (p + [x.value])[..|p|] == p;
    }
  }

  // ---------------------------------------------------------------------------
  // One outer join
  // ---------------------------------------------------------------------------

  /** The row an outer join supplies for a word one side lacks: NaN everywhere, and a
      NaN total sums as zero. */
  const Missing := Record(None, 0, None)

  /** The accumulated side of the join for one word. */
  function Lookup(acc: map<string, Record>, w: string): Record {
    if w in acc then acc[w] else Missing
  }

  /** The document side of the join for one word, with the `docs` column set to the
      document's id. */
  function DocSide(doc: Document, w: string): Record {
    if w in doc.table then Record(Some(doc.id), doc.table[w].total, Some(doc.table[w].sentences))
    else Missing
  }

  /** The `_result` and `_doc` columns of one joined row folded back into one column each:
      ids with commas, totals summed, sentences with newlines. */
  function Combine(l: Record, r: Record): Record {
    Record(Concat([l.docs, r.docs], ","), l.total + r.total, Concat([l.sentences, r.sentences], "\n"))
  }

  /** One iteration of the loop over stored documents: the outer merge on `word` and the
      recomputation of the three columns. */
  function Merge(acc: map<string, Record>, doc: Document): map<string, Record> {
    map w | w in acc.Keys + doc.table.Keys :: Combine(Lookup(acc, w), DocSide(doc, w))
  }

  /** What one merge does to a word: it is kept when either side has it; a word only the
      table had is unchanged; a word only the document has gets the document's columns; a
      word on both sides gets the id and sentences appended and the totals added. */
  lemma MergeEffect(acc: map<string, Record>, doc: Document, w: string)
    ensures w in Merge(acc, doc) <==> w in acc || w in doc.table
    ensures w in acc && w !in doc.table ==> Merge(acc, doc)[w] == acc[w]
    ensures w !in acc && w in doc.table ==> Merge(acc, doc)[w] == DocSide(doc, w)
    ensures w in acc && w in doc.table && acc[w].docs.Some? && acc[w].sentences.Some? ==>
      Merge(acc, doc)[w] == Record(Some(acc[w].docs.value + "," + doc.id),
                                   acc[w].total + doc.table[w].total,
                                   Some(acc[w].sentences.value + "\n" + doc.table[w].sentences))
  {
    if w in acc || w in doc.table {
      ConcatPair(Lookup(acc, w).docs, DocSide(doc, w).docs, ",");
      ConcatPair(Lookup(acc, w).sentences, DocSide(doc, w).sentences, "\n");
    }
  }

  /** The table after merging the documents in order, starting from the empty table. */
  function Fold(docs: seq<Document>): map<string, Record>
    decreases |docs|
  {
    if |docs| == 0 then map[]
    else Merge(Fold(docs[..|docs| - 1]), docs[|docs| - 1])
  }

  // ---------------------------------------------------------------------------
  // Reference definitions over all documents, one word at a time
  // ---------------------------------------------------------------------------

  /** Every word of every document. */
  function AllWords(docs: seq<Document>): set<string>
    decreases |docs|
  {
    if |docs| == 0 then {} else AllWords(docs[..|docs| - 1]) + docs[|docs| - 1].table.Keys
  }

  /** The ids of the documents holding the word, in document order. */
  function IdsWith(w: string, docs: seq<Document>): seq<string>
    decreases |docs|
  {
    if |docs| == 0 then []
    else
      var last := docs[|docs| - 1];
      IdsWith(w, docs[..|docs| - 1]) + if w in last.table then [last.id] else []
  }

  /** The word's sentence strings from the documents holding it, in document order. */
  function BlobsWith(w: string, docs: seq<Document>): seq<string>
    decreases |docs|
  {
    if |docs| == 0 then []
    else
      var last := docs[|docs| - 1];
      BlobsWith(w, docs[..|docs| - 1]) + if w in last.table then [last.table[w].sentences] else []
  }

  /** What one document contributes to the word's total. */
  function TotalIn(w: string, doc: Document): nat {
    if w in doc.table then doc.table[w].total else 0
  }

  /** The word's totals summed over the documents. */
  function SumTotals(w: string, docs: seq<Document>): nat
    decreases |docs|
  {
    if |docs| == 0 then 0 else SumTotals(w, docs[..|docs| - 1]) + TotalIn(w, docs[|docs| - 1])
  }

  /** A word is in some document exactly when some id is listed for it, and then it has
      as many sentence strings as ids. */
  lemma {:induction false} IdsWithSpec(w: string, docs: seq<Document>)
    ensures w in AllWords(docs) <==> |IdsWith(w, docs)| > 0
    ensures |BlobsWith(w, docs)| == |IdsWith(w, docs)|
    ensures w !in AllWords(docs) ==> SumTotals(w, docs) == 0
    decreases |docs|
  {
    if |docs| > 0 {
      IdsWithSpec(w, docs[..|docs| - 1]);
    }
  }

  /** The row the closed form gives a word: the ids of the documents holding it (comma
      separated, in document order), the sum of its totals and its sentence strings
      (newline separated). */
  function Closed(w: string, docs: seq<Document>): Record {
    Record(Some(Join(IdsWith(w, docs), ",")), SumTotals(w, docs), Some(Join(BlobsWith(w, docs), "\n")))
  }

  /** One merge keeps the closed form, one word at a time. */
  lemma MergeKeepsClosed(prev: map<string, Record>, prefix: seq<Document>, last: Document, w: string)
    requires prev.Keys == AllWords(prefix)
    requires w in prev ==> prev[w] == Closed(w, prefix)
    requires w in prev || w in last.table
    ensures Merge(prev, last)[w] == Closed(w, prefix + [last])
  {
    var docs := prefix + [last];
    assert docs[..|docs| - 1] == prefix;
    assert docs[|docs| - 1] == last;
    if w in last.table && w in prev {
      MergeShared(prev, prefix, last, w);
    } else if w in last.table {
      MergeNew(prev, prefix, last, w);
    } else {
      MergeKept(prev, prefix, last, w);
    }
  }

  /** A word on both sides: the id and the sentences are appended, the totals added. */
  lemma MergeShared(prev: map<string, Record>, prefix: seq<Document>, last: Document, w: string)
    requires w in prev && w in last.table
    requires prev.Keys == AllWords(prefix) && prev[w] == Closed(w, prefix)
    ensures Merge(prev, last)[w] == Closed(w, prefix + [last])
  {
    var docs := prefix + [last];
    assert docs[..|docs| - 1] == prefix;
    assert docs[|docs| - 1] == last;
    IdsWithSpec(w, prefix);
    ConcatPair(prev[w].docs, DocSide(last, w).docs, ",");
    ConcatPair(prev[w].sentences, DocSide(last, w).sentences, "\n");
    JoinConcat(IdsWith(w, prefix), [last.id], ",");
    JoinConcat(BlobsWith(w, prefix), [last.table[w].sentences], "\n");
  }

  /** A word only the document has: its row is the document's columns. */
  lemma MergeNew(prev: map<string, Record>, prefix: seq<Document>, last: Document, w: string)
    requires w !in prev && w in last.table
    requires prev.Keys == AllWords(prefix)
    ensures Merge(prev, last)[w] == Closed(w, prefix + [last])
  {
    var docs := prefix + [last];
    assert docs[..|docs| - 1] == prefix;
    assert docs[|docs| - 1] == last;
    IdsWithSpec(w, prefix);
    ConcatPair(None, DocSide(last, w).docs, ",");
    ConcatPair(None, DocSide(last, w).sentences, "\n");
    assert Merge(prev, last)[w] == Combine(Missing, DocSide(last, w));
    assert IdsWith(w, prefix) == [] && BlobsWith(w, prefix) == [];
    assert IdsWith(w, docs) == [last.id];
    assert BlobsWith(w, docs) == [last.table[w].sentences];
    assert Closed(w, docs) == DocSide(last, w);
  }

  /** A word the document lacks: its row is unchanged, and so is its closed form. */
  lemma MergeKept(prev: map<string, Record>, prefix: seq<Document>, last: Document, w: string)
    requires w in prev && w !in last.table
    requires prev[w] == Closed(w, prefix)
    ensures Merge(prev, last)[w] == Closed(w, prefix + [last])
  {
    var docs := prefix + [last];
    assert docs[..|docs| - 1] == prefix;
    assert docs[|docs| - 1] == last;
    ConcatPair(prev[w].docs, None, ",");
    ConcatPair(prev[w].sentences, None, "\n");
    assert IdsWith(w, docs) == IdsWith(w, prefix) + [];
    assert BlobsWith(w, docs) == BlobsWith(w, prefix) + [];
    assert IdsWith(w, prefix) + [] == IdsWith(w, prefix);
    assert BlobsWith(w, prefix) + [] == BlobsWith(w, prefix);
  }

  /** The merged table in closed form: its words are all the documents' words, and each
      word's row is its closed form. */
  lemma {:induction false} FoldClosedForm(docs: seq<Document>)
    ensures Fold(docs).Keys == AllWords(docs)
    ensures forall w :: w in Fold(docs) ==> Fold(docs)[w] == Closed(w, docs)
    decreases |docs|
  {
    if |docs| > 0 {
      var prefix := docs[..|docs| - 1];
      var last := docs[|docs| - 1];
      assert docs == prefix + [last];
      FoldClosedForm(prefix);
      forall w | w in Fold(docs)
        ensures Fold(docs)[w] == Closed(w, docs)
      {
        MergeKeepsClosed(Fold(prefix), prefix, last, w);
      }
    }
  }

  /** Summing over two runs of documents is summing the two sums. */
  lemma {:induction false} SumTotalsAppend(w: string, a: seq<Document>, b: seq<Document>)
    ensures SumTotals(w, a + b) == SumTotals(w, a) + SumTotals(w, b)
    decreases |b|
  {
    if |b| == 0 {
      assert a + b == a;
    } else {
      assert (a + b)[..|a + b| - 1] == a + b[..|b| - 1];
      SumTotalsAppend(w, a, b[..|b| - 1]);
    }
  }

  /** A word's summed total does not depend on the order of the documents. */
  lemma {:induction false} SumTotalsIndependentOfOrder(w: string, a: seq<Document>, b: seq<Document>)
    requires multiset(a) == multiset(b)
    ensures SumTotals(w, a) == SumTotals(w, b)
    decreases |a|
  {
    if |a| > 0 {
      var x := a[|a| - 1];
      assert a == a[..|a| - 1] + [x];
      assert x in multiset(b);
      var i :| 0 <= i < |b| && b[i] == x;
      var rest := b[..i] + b[i + 1..];
      assert b == b[..i] + [x] + b[i + 1..];
      assert multiset(b) == multiset(b[..i]) + multiset{x} + multiset(b[i + 1..]);
      assert multiset(rest) == multiset(b[..i]) + multiset(b[i + 1..]);
      assert multiset(a) == multiset(a[..|a| - 1]) + multiset{x};
      assert multiset(a[..|a| - 1]) == multiset(a) - multiset{x};
      assert multiset(rest) == multiset(b) - multiset{x};
      SumTotalsIndependentOfOrder(w, a[..|a| - 1], rest);
      SumTotalsAppend(w, b[..i] + [x], b[i + 1..]);
      SumTotalsAppend(w, b[..i], [x]);
      SumTotalsAppend(w, b[..i], b[i + 1..]);
      assert [x][..0] == [];
    }
  }

  /** A word is among all the words exactly when some document holds it. */
  lemma {:induction false} AllWordsMembers(w: string, docs: seq<Document>)
    ensures w in AllWords(docs) <==> exists d :: d in docs && w in d.table
    decreases |docs|
  {
    if |docs| > 0 {
      var prefix := docs[..|docs| - 1];
      AllWordsMembers(w, prefix);
      assert docs == prefix + [docs[|docs| - 1]];
    }
  }

  /** Reading the same documents in another order gives a table with the same words and
      the same total under each word; only the order inside `docs` and `sentences` can
      differ. */
  lemma FoldIndependentOfOrder(a: seq<Document>, b: seq<Document>)
    requires multiset(a) == multiset(b)
    ensures Fold(a).Keys == Fold(b).Keys
    ensures forall w :: w in Fold(a) ==> w in Fold(b) && Fold(a)[w].total == Fold(b)[w].total
  {
    FoldClosedForm(a);
    FoldClosedForm(b);
    forall w
      ensures w in AllWords(a) <==> w in AllWords(b)
    {
      AllWordsMembers(w, a);
      AllWordsMembers(w, b);
      forall d
        ensures d in a <==> d in b
      {
        assert d in a <==> d in multiset(a);
        assert d in b <==> d in multiset(b);
      }
    }
    forall w | w in Fold(a)
      ensures w in Fold(b) && Fold(a)[w].total == Fold(b)[w].total
    {
      SumTotalsIndependentOfOrder(w, a, b);
    }
  }

  // ---------------------------------------------------------------------------
  // Filtering and sorting
  // ---------------------------------------------------------------------------

  function RowWords(rows: seq<ReportRow>): set<string> {
    set i | 0 <= i < |rows| :: rows[i].word
  }

  lemma RowWordsAppend(rows: seq<ReportRow>, r: ReportRow)
    ensures RowWords(rows + [r]) == RowWords(rows) + {r.word}
  {
    var s := rows + [r];
    assert s[|rows|].word == r.word;
    forall x | x in RowWords(rows) ensures x in RowWords(s) {
      var i :| 0 <= i < |rows| && rows[i].word == x;
      assert s[i].word == x;
    }
  }

  predicate DistinctWords(rows: seq<ReportRow>) {
    forall i, j :: 0 <= i < j < |rows| ==> rows[i].word != rows[j].word
  }

  /** Totals do not increase along the rows. */
  predicate Descending(rows: seq<ReportRow>) {
    forall i, j :: 0 <= i < j < |rows| ==> rows[i].record.total >= rows[j].record.total
  }

  /** The rows whose total reaches the limit, followed by a descending sort on the total:
      each word of the table whose total reaches the limit, once, with its row, totals
      non-increasing. Rows with equal totals may come in any order. */
  ghost predicate IsReport(t: map<string, Record>, limit: int, rep: seq<ReportRow>) {
    && DistinctWords(rep)
    && (forall i :: 0 <= i < |rep| ==>
          rep[i].word in t && rep[i].record == t[rep[i].word] && rep[i].record.total >= limit)
    && (forall w :: w in t && t[w].total >= limit ==> w in RowWords(rep))
    && Descending(rep)
  }

  /** The boolean-mask selection: the rows of the table whose total reaches the limit,
      visited in an unspecified order. */
  method Select(t: map<string, Record>, limit: int) returns (rows: seq<ReportRow>)
    ensures DistinctWords(rows)
    ensures forall i :: 0 <= i < |rows| ==>
      rows[i].word in t && rows[i].record == t[rows[i].word] && rows[i].record.total >= limit
    ensures forall w :: w in t && t[w].total >= limit ==> w in RowWords(rows)
  {
    rows := [];
    var remaining := t.Keys;
    while remaining != {}
      invariant remaining <= t.Keys
      invariant DistinctWords(rows)
      invariant forall i :: 0 <= i < |rows| ==>
        rows[i].word in t && rows[i].word !in remaining
        && rows[i].record == t[rows[i].word] && rows[i].record.total >= limit
      invariant forall w :: w in t && w !in remaining && t[w].total >= limit ==> w in RowWords(rows)
      decreases |remaining|
    {
      var w :| w in remaining;
      if t[w].total >= limit {
        RowWordsAppend(rows, ReportRow(w, t[w]));
        rows := rows + [ReportRow(w, t[w])];
      }
      remaining := remaining - {w};
    }
  }

  /** Putting a row in front keeps the totals non-increasing when it is at least every
      total behind it. */
  lemma ConsDescending(x: ReportRow, tail: seq<ReportRow>)
    requires Descending(tail)
    requires forall y :: y in tail ==> x.record.total >= y.record.total
    ensures Descending([x] + tail)
  {
    var s := [x] + tail;
    forall i, j | 0 <= i < j < |s| ensures s[i].record.total >= s[j].record.total {
      if i == 0 {
        assert s[j] == tail[j - 1];
      } else {
        assert s[i] == tail[i - 1] && s[j] == tail[j - 1];
      }
    }
  }

  /** Putting a row in front keeps the words distinct when its word is new. */
  lemma ConsDistinct(x: ReportRow, tail: seq<ReportRow>)
    requires DistinctWords(tail)
    requires forall y :: y in tail ==> x.word != y.word
    ensures DistinctWords([x] + tail)
  {
    var s := [x] + tail;
    forall i, j | 0 <= i < j < |s| ensures s[i].word != s[j].word {
      if i == 0 {
        assert s[j] == tail[j - 1];
      } else {
        assert s[i] == tail[i - 1] && s[j] == tail[j - 1];
      }
    }
  }

  /** What the rows behind the first one inherit: the order, the bound by the first
      total and, for distinct words, distinctness and a word other than the first. */
  lemma RestFacts(rows: seq<ReportRow>)
    requires |rows| > 0 && Descending(rows)
    ensures Descending(rows[1..])
    ensures forall y :: y in rows[1..] ==> rows[0].record.total >= y.record.total
    ensures DistinctWords(rows) ==>
      DistinctWords(rows[1..]) && forall y :: y in rows[1..] ==> y.word != rows[0].word
  {
    var rest := rows[1..];
    forall i, j | 0 <= i < j < |rest|
      ensures rest[i].record.total >= rest[j].record.total
      ensures DistinctWords(rows) ==> rest[i].word != rest[j].word
    {
      assert rest[i] == rows[i + 1] && rest[j] == rows[j + 1];
    }
    forall y | y in rest
      ensures rows[0].record.total >= y.record.total
      ensures DistinctWords(rows) ==> y.word != rows[0].word
    {
      var k :| 0 <= k < |rest| && rest[k] == y;
      assert rows[k + 1] == y;
    }
  }

  /** The row goes first when its total is at least the first total. */
  lemma InsertFront(r: ReportRow, rows: seq<ReportRow>)
    requires |rows| > 0 && Descending(rows) && r.record.total >= rows[0].record.total
    ensures Descending([r] + rows)
    ensures DistinctWords(rows) && (forall y :: y in rows ==> y.word != r.word) ==> DistinctWords([r] + rows)
  {
    RestFacts(rows);
    assert rows == [rows[0]] + rows[1..];
    ConsDescending(r, rows);
    if DistinctWords(rows) && (forall y :: y in rows ==> y.word != r.word) {
      ConsDistinct(r, rows);
    }
  }

  /** Every row of a permutation of the rest with one more row is that row or from the rest. */
  lemma FromRestOrNew(r: ReportRow, rest: seq<ReportRow>, tail: seq<ReportRow>)
    requires multiset(tail) == multiset(rest) + multiset{r}
    ensures forall y :: y in tail ==> y == r || y in rest
  {
    forall y | y in tail ensures y == r || y in rest {
      assert y in multiset(tail);
    }
  }

  /** The row goes behind the first one when its total is smaller: the order holds. */
  lemma InsertBehind(r: ReportRow, rows: seq<ReportRow>, tail: seq<ReportRow>)
    requires |rows| > 0 && Descending(rows) && r.record.total < rows[0].record.total
    requires Descending(tail) && multiset(tail) == multiset(rows[1..]) + multiset{r}
    ensures Descending([rows[0]] + tail)
  {
    RestFacts(rows);
    FromRestOrNew(r, rows[1..], tail);
    ConsDescending(rows[0], tail);
  }

  /** The row goes behind the first one: the words stay distinct when its word is new. */
  lemma InsertBehindDistinct(r: ReportRow, rows: seq<ReportRow>, tail: seq<ReportRow>)
    requires |rows| > 0 && Descending(rows) && DistinctWords(rows)
    requires forall y :: y in rows ==> y.word != r.word
    requires multiset(tail) == multiset(rows[1..]) + multiset{r} && DistinctWords(tail)
    ensures DistinctWords([rows[0]] + tail)
  {
    RestFacts(rows);
    FromRestOrNew(r, rows[1..], tail);
    assert rows[0] in rows;
    ConsDistinct(rows[0], tail);
  }

  /** The multiset of a row put in front of a permutation of the rest. */
  lemma InsertBehindRows(r: ReportRow, rows: seq<ReportRow>, tail: seq<ReportRow>)
    requires |rows| > 0 && multiset(tail) == multiset(rows[1..]) + multiset{r}
    ensures multiset([rows[0]] + tail) == multiset(rows) + multiset{r}
  {
    assert rows == [rows[0]] + rows[1..];
  }

  /** One insertion step of the sort: the row goes before the first row with a total not
      above its own. */
  function Insert(r: ReportRow, rows: seq<ReportRow>): (s: seq<ReportRow>)
    requires Descending(rows)
    ensures Descending(s)
    ensures multiset(s) == multiset(rows) + multiset{r}
    ensures DistinctWords(rows) && (forall y :: y in rows ==> y.word != r.word) ==> DistinctWords(s)
    decreases |rows|
  {
    if |rows| == 0 then [r]
    else if r.record.total >= rows[0].record.total then
      InsertFront(r, rows);
      [r] + rows
    else
      RestFacts(rows);
      var tail := Insert(r, rows[1..]);
      InsertBehind(r, rows, tail);
      InsertBehindRows(r, rows, tail);
      if DistinctWords(rows) && (forall y :: y in rows ==> y.word != r.word) then
        assert forall y :: y in rows[1..] ==> y in rows;
        InsertBehindDistinct(r, rows, tail);
        [rows[0]] + tail
      else
        [rows[0]] + tail
  }

  /** The descending sort on the total: the same rows, totals non-increasing. */
  function SortByTotal(rows: seq<ReportRow>): (s: seq<ReportRow>)
    ensures Descending(s)
    ensures multiset(s) == multiset(rows)
    ensures DistinctWords(rows) ==> DistinctWords(s)
    decreases |rows|
  {
    if |rows| == 0 then []
    else
      var last := rows[|rows| - 1];
      var prefix := rows[..|rows| - 1];
      assert rows == prefix + [last];
      var sorted := SortByTotal(prefix);
      if DistinctWords(rows) then
        assert DistinctWords(prefix) by {
          forall i, j | 0 <= i < j < |prefix| ensures prefix[i].word != prefix[j].word {
            assert prefix[i] == rows[i] && prefix[j] == rows[j];
          }
        }
        assert forall y :: y in sorted ==> y.word != last.word by {
          forall y | y in sorted ensures y.word != last.word {
            assert y in multiset(prefix);
            var k :| 0 <= k < |prefix| && prefix[k] == y;
            assert rows[k] == y;
          }
        }
        Insert(last, sorted)
      else
        Insert(last, sorted)
  }

  /** The membership facts a permutation keeps, stated on rows. */
  lemma SameRows(a: seq<ReportRow>, b: seq<ReportRow>)
    requires multiset(a) == multiset(b)
    ensures forall x :: x in a <==> x in b
  {
    forall x ensures x in a <==> x in b {
      assert x in a <==> x in multiset(a);
      assert x in b <==> x in multiset(b);
    }
  }

  /** The loop over stored documents: each one is merged into the table in turn. */
  method MergeAll(docs: seq<Document>) returns (merged: map<string, Record>)
    ensures merged == Fold(docs)
  {
    merged := map[];
    var i := 0;
    while i < |docs|
      invariant 0 <= i <= |docs|
      invariant merged == Fold(docs[..i])
    {
      assert docs[..i + 1][..i] == docs[..i];
      merged := Merge(merged, docs[i]);
      i := i + 1;
    }
    assert docs[..i] == docs;
  }

  /** Sorting the selected rows keeps them a selection, and makes them a report. */
  lemma SortedSelection(t: map<string, Record>, limit: int, kept: seq<ReportRow>, report: seq<ReportRow>)
    requires DistinctWords(kept)
    requires forall i :: 0 <= i < |kept| ==>
      kept[i].word in t && kept[i].record == t[kept[i].word] && kept[i].record.total >= limit
    requires forall w :: w in t && t[w].total >= limit ==> w in RowWords(kept)
    requires report == SortByTotal(kept)
    ensures IsReport(t, limit, report)
  {
    SameRows(kept, report);
    forall w | w in t && t[w].total >= limit
      ensures w in RowWords(report)
    {
      var k :| 0 <= k < |kept| && kept[k].word == w;
      assert kept[k] in report;
      var m :| 0 <= m < |report| && report[m] == kept[k];
    }
    forall m | 0 <= m < |report|
      ensures report[m].word in t && report[m].record == t[report[m].word]
              && report[m].record.total >= limit
    {
      assert report[m] in kept;
    }
  }

  /** `_get_final_dataframe`: merge the stored documents one after the other, then keep
      the rows whose total reaches the limit, sorted by descending total. */
  method FinalDataframe(docs: seq<Document>, limit: int) returns (report: seq<ReportRow>)
    ensures IsReport(Fold(docs), limit, report)
  {
    var merged := MergeAll(docs);
    var kept := Select(merged, limit);
    report := SortByTotal(kept);
    SortedSelection(merged, limit, kept, report);
  }
}
