/** The two stored documents of the final-dataframe tests and what the merge and the
    limit make of them. The per-document tables are chosen to agree with the values the
    tests expect after the merge; the sample texts themselves are not part of this model. */
module Fixtures {
  import opened Text
  import opened Corpus

  const CatInDoc2 := "I saw a black cat.\nThe cat doesnt like me."
  const CatInDoc1 := "I saw a cat\nThe cat likes the mouse."
  const DogInDoc2 := "dog dog dog dog"
  const DogInDoc1 := "dog dog"
  const BirdInDoc1 := "bird bird bird bird"
  const TurtleInDoc2 := "turtle turtle turtle turtle turtle"

  /** Read first: the directory listing yields `doc2.txt` before `doc1.txt`. */
  const Doc2 := Document("doc2.txt", map[
    "cat" := DocRecord(2, CatInDoc2), "dog" := DocRecord(4, DogInDoc2), "turtle" := DocRecord(5, TurtleInDoc2)])

  const Doc1 := Document("doc1.txt", map[
    "cat" := DocRecord(2, CatInDoc1), "dog" := DocRecord(2, DogInDoc1), "bird" := DocRecord(4, BirdInDoc1)])

  /** The table after two documents, word by word, read off the two merges. */
  lemma TwoDocs(a: Document, b: Document, w: string)
    ensures Fold([a, b]).Keys == a.table.Keys + b.table.Keys
    ensures w in a.table || w in b.table ==>
      Fold([a, b])[w] == Combine(if w in a.table then Combine(Missing, DocSide(a, w)) else Missing, DocSide(b, w))
  {
    assert [a, b][..1] == [a];
    assert [a][..0] == [];
    var first := Merge(map[], a);
    assert Fold([a]) == first;
    assert Fold([a, b]) == Merge(first, b);
    if w in a.table {
      assert first[w] == Combine(Missing, DocSide(a, w));
    }
  }

  /** The two ids glued by the `docs` concatenation; kept apart so that the string
      literal is evaluated outside the larger proofs that use it. */
  lemma IdsGlued()
    ensures "doc2.txt" + "," + "doc1.txt" == "doc2.txt,doc1.txt"
  {
  }

  /** A word both documents hold: ids and sentences glued in reading order, totals added. */
  lemma SharedRow(w: string)
    requires w in Doc2.table && w in Doc1.table
    ensures w in Fold([Doc2, Doc1]) && Fold([Doc2, Doc1])[w] == Record(Some("doc2.txt,doc1.txt"),
      Doc2.table[w].total + Doc1.table[w].total,
      Some(Doc2.table[w].sentences + "\n" + Doc1.table[w].sentences))
  {
    var two := Doc2.table[w];
    var one := Doc1.table[w];
    TwoDocs(Doc2, Doc1, w);
    assert DocSide(Doc2, w) == Record(Some("doc2.txt"), two.total, Some(two.sentences));
    assert DocSide(Doc1, w) == Record(Some("doc1.txt"), one.total, Some(one.sentences));
    ConcatPair(None, Some("doc2.txt"), ",");
    ConcatPair(None, Some(two.sentences), "\n");
    ConcatPair(Some("doc2.txt"), Some("doc1.txt"), ",");
    ConcatPair(Some(two.sentences), Some(one.sentences), "\n");
    IdsGlued();
  }

  /** A word only the first document holds keeps that document's columns. */
  lemma FirstOnlyRow(w: string)
    requires w in Doc2.table && w !in Doc1.table
    ensures w in Fold([Doc2, Doc1]) && Fold([Doc2, Doc1])[w] == Record(Some("doc2.txt"), Doc2.table[w].total, Some(Doc2.table[w].sentences))
  {
    var two := Doc2.table[w];
    TwoDocs(Doc2, Doc1, w);
    assert DocSide(Doc2, w) == Record(Some("doc2.txt"), two.total, Some(two.sentences));
    assert DocSide(Doc1, w) == Missing;
    ConcatPair(None, Some("doc2.txt"), ",");
    ConcatPair(None, Some(two.sentences), "\n");
    ConcatPair(Some("doc2.txt"), None, ",");
    ConcatPair(Some(two.sentences), None, "\n");
  }

  /** A word only the second document holds gets that document's columns. */
  lemma SecondOnlyRow(w: string)
    requires w !in Doc2.table && w in Doc1.table
    ensures w in Fold([Doc2, Doc1]) && Fold([Doc2, Doc1])[w] == Record(Some("doc1.txt"), Doc1.table[w].total, Some(Doc1.table[w].sentences))
  {
    var one := Doc1.table[w];
    TwoDocs(Doc2, Doc1, w);
    assert DocSide(Doc1, w) == Record(Some("doc1.txt"), one.total, Some(one.sentences));
    ConcatPair(None, Some("doc1.txt"), ",");
    ConcatPair(None, Some(one.sentences), "\n");
  }

  lemma TwoKeys(a: Document, b: Document)
    ensures Fold([a, b]).Keys == a.table.Keys + b.table.Keys
  {
    TwoDocs(a, b, "");
  }

  lemma FixtureKeys()
    ensures Fold([Doc2, Doc1]).Keys == {"cat", "dog", "bird", "turtle"}
  {
    TwoKeys(Doc2, Doc1);
  }

  /** `test_final_dataframe`, row `cat`: in both documents, read in the order doc2, doc1. */
  lemma CatRow()
    ensures "cat" in Fold([Doc2, Doc1]) && Fold([Doc2, Doc1])["cat"] == Record(Some("doc2.txt,doc1.txt"), 4, Some(CatInDoc2 + "\n" + CatInDoc1))
  {
    SharedRow("cat");
  }

  /** `test_final_dataframe`, row `dog`: totals 4 and 2 summed. */
  lemma DogRow()
    ensures "dog" in Fold([Doc2, Doc1]) && Fold([Doc2, Doc1])["dog"] == Record(Some("doc2.txt,doc1.txt"), 6, Some(DogInDoc2 + "\n" + DogInDoc1))
  {
    SharedRow("dog");
  }

  /** `test_final_dataframe`, row `bird`: only in doc1. */
  lemma BirdRow()
    ensures "bird" in Fold([Doc2, Doc1]) && Fold([Doc2, Doc1])["bird"] == Record(Some("doc1.txt"), 4, Some(BirdInDoc1))
  {
    SecondOnlyRow("bird");
  }

  /** `test_final_dataframe`, row `turtle`: only in doc2. */
  lemma TurtleRow()
    ensures "turtle" in Fold([Doc2, Doc1]) && Fold([Doc2, Doc1])["turtle"] == Record(Some("doc2.txt"), 5, Some(TurtleInDoc2))
  {
    FirstOnlyRow("turtle");
  }

  /** Only `dog` and `turtle` reach a total of 5. */
  lemma ReachesFive(w: string)
    requires w in Fold([Doc2, Doc1]) && Fold([Doc2, Doc1])[w].total >= 5
    ensures w == "dog" || w == "turtle"
  {
    FixtureKeys();
    CatRow();
    BirdRow();
  }

  /** Rows with distinct words have as many words as rows. */
  lemma {:induction false} DistinctWordsCount(rep: seq<ReportRow>)
    requires DistinctWords(rep)
    ensures |RowWords(rep)| == |rep|
    decreases |rep|
  {
    if |rep| > 0 {
      var prefix := rep[..|rep| - 1];
      var last := rep[|rep| - 1];
      assert rep == prefix + [last];
      DistinctWordsCount(prefix);
      RowWordsAppend(prefix, last);
    }
  }

  /** Rows with distinct words drawn from two words, totals non-increasing, where the
      first word has the larger total: exactly the two, first word first. */
  lemma OrderOfTwo(rep: seq<ReportRow>, x: string, y: string, d: nat, u: nat)
    requires DistinctWords(rep) && Descending(rep) && x != y
    requires forall i :: 0 <= i < |rep| ==> rep[i].word == x || rep[i].word == y
    requires d < |rep| && u < |rep| && rep[d].word == x && rep[u].word == y
    requires rep[d].record.total > rep[u].record.total
    ensures |rep| == 2 && rep[0].word == x && rep[1].word == y
  {
    DistinctWordsCount(rep);
    var words := RowWords(rep);
    assert words - {x, y} == {};
    assert words * {x, y} == words;
    assert words + {x, y} == {x, y};
    assert |({x, y} - words)| >= 0;
    assert |{x, y}| == 2;
    assert |rep| <= 2 && d != u;
    assert rep[0].record.total >= rep[1].record.total;
  }

  /** `test_custom_occurences_limit`: with limit 5 every possible report lists exactly
      `dog` (6) and then `turtle` (5). */
  lemma CustomLimitFixture(rep: seq<ReportRow>)
    requires IsReport(Fold([Doc2, Doc1]), 5, rep)
    ensures |rep| == 2 && rep[0].word == "dog" && rep[1].word == "turtle"
  {
    var t := Fold([Doc2, Doc1]);
    FixtureKeys();
    DogRow();
    TurtleRow();
    assert "dog" in RowWords(rep) && "turtle" in RowWords(rep);
    var d :| 0 <= d < |rep| && rep[d].word == "dog";
    var u :| 0 <= u < |rep| && rep[u].word == "turtle";
    forall i | 0 <= i < |rep| ensures rep[i].word == "dog" || rep[i].word == "turtle" {
      ReachesFive(rep[i].word);
    }
    assert rep[d].record.total == 6 && rep[u].record.total == 5;
    OrderOfTwo(rep, "dog", "turtle", d, u);
  }
}
