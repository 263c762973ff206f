# Common words across text documents — a Dafny model

This project models the word-counting core of `common_words.py`, the `FindCommonWords`
tool. It reads a directory of text documents and produces one table over all of them.
Each row of that table is a word that occurs at least a given number of times. A row
carries the ids of the documents that hold the word, the word's total count, and the
lowercased sentences it appears in. Rows are sorted by total, largest first.

The model follows the program's stages, one module each:

- `Text`: strings, optional values (pandas `NaN` is `None`), ASCII `\w` and lower-casing,
  `str.join`, list filtering and the `set(...)`-to-list conversion.
- `Tokens` (`_get_words`): the contraction rewrite, tokenization, optional stopword removal
  and the punctuation filter. Also the whole-word occurrence count of line 139, in two
  forms: `OccurrencesAsWritten` searches the lowercased sentence as it stands, as the
  program does; `Occurrences` searches the sentence after the contraction rewrite.
- `Aggregate` (`_get_words_details`): the per-document `defaultdict` of totals and sentence
  sets, built by imperative methods (`Tally`, `Bump`, `Flatten`, `WordsDetails`). These are
  proved against a fold over the sentences (`Scan`), and the fold is proved equal to
  one-word-at-a-time reference definitions (`TotalOf`, `SentencesWith`, `SeenWords`).
  The fold and the references take the count as a parameter (`Counter`). The methods
  compute the program's own count, `OccurrencesAsWritten`, and their contracts name it.
- `Corpus` (`_get_final_dataframe`): the outer merge of each stored document into the
  running table, the `concat` helper, the limit filter and the descending sort.
  - `MergeAll` and `FinalDataframe` are methods proved against `Fold`.
  - `Fold` is proved equal to a closed form: ids joined by commas, totals summed, sentence
    blobs joined by newlines, in reading order.
- `Pipeline` (`find_common_words`): aggregates every source document, skips the ones whose
  dataframe is empty, and builds the report from the stored ones. The stored documents
  are read back in the order of a second, independent directory listing.
- `Fixtures`: the expectations of `test_final_dataframe` and `test_custom_occurences_limit`,
  proved about two concrete stored documents.

The sentence splitter, the Toktok tokenizer and the NLTK stopword list are parameters: the
`Toolkit` datatype holds them. File contents are given as lists of already decoded lines,
and each document's id is given as an input.

Where the code and its documentation differ, the model follows the code.

- The punctuation filter (line 179) uses `re.match('[^\w]', word)`. This anchors at the
  start, so only a token's FIRST character decides; `a...` is kept. It does not drop every
  token that is not entirely made of word characters.
- The occurrence count (line 139) looks for the word in the sentence as it was before the
  contraction rewrite, so `dont` from `don't` counts zero times. The pipeline model keeps
  this count; the corrected one is proved about separately. See "## Findings".
- Python sets have no defined order. The model fixes one: first-occurrence order. This
  applies to the sentence sets joined at line 153 and to the stopword set difference at
  line 176.

## Model

| member | source | states |
|---|---|---|
| Text.JoinConcat | common_words.py:153 | joining two non-empty lists with a separator is the two joins glued by one separator |
| Text.FilterCount | common_words.py:179 | the punctuation filter keeps every token that passes as often as it occurs, and no other token |
| Text.FilterMembers | common_words.py:179 | a token is in the filtered list exactly when it is in the input and passes the test |
| Text.FilterDistinct | common_words.py:176-179 | filtering a repeat-free list leaves it repeat-free |
| Text.DedupSpec | common_words.py:176 | turning the stopword set difference back into a list gives no repeats and exactly the original elements |
| Tokens.StripDeletesOnlyQuotes | common_words.py:166 | the contraction rewrite deletes only apostrophe-like characters; every other character keeps its count |
| Tokens.StripLeavesNoMarks | common_words.py:166 | after the rewrite no quote sits between two word characters |
| Tokens.StripKeepsMarkFree | common_words.py:166 | the rewrite leaves a text without contraction marks unchanged |
| Tokens.StripKeepsSuffix | common_words.py:166 | the rewrite leaves the text from a position on unchanged when no contraction mark sits there |
| Tokens.StripIdempotent | common_words.py:166 | applying the contraction rewrite twice is the same as once |
| Tokens.ContractionExamples | tests/test_common_words.py:136-145 | `don't`, ``L`Apostrophe`` and `2004's,` become `dont`, `LApostrophe` and `2004s,` |
| Tokens.GetWords | common_words.py:158-179 | with stopwords kept: each token's count is unchanged if its first character is a word character, else zero. Without: no repeats, and a word is returned iff it is a token, not a stopword and starts like a word |
| Tokens.ToBeContinued | tests/test_common_words.py:147-152 | `To be continued...` gives `To`, `continued` without stopwords, and `To`, `be`, `continued` with them; the trailing dots never become a word |
| Tokens.CountFromPositive | common_words.py:139 | the `findall` scan from a position finds something iff a whole-word match starts at or after it |
| Tokens.WholeWordCountPositive | common_words.py:139 | the whole-word count is positive iff the word occurs with a word boundary on both sides |
| Tokens.ContractionCountedZero | common_words.py:139 | as written, `dont` is a word of `don't` yet is counted zero times there |
| Tokens.CountedAtLeastOnce | common_words.py:136-139 | corrected count: every word the sentence yields is counted at least once, given that every token starting with a word character stands as a whole word in the tokenizer's input |
| Tokens.PunctuatedTextQualifies | common_words.py:169-170 | the whole-word hypothesis holds for punctuated text: a tokenizer splitting `cat.` into `cat` and `.` meets it |
| Aggregate.AddWordEffect | common_words.py:141-145 | for any count: one update bumps only the given word: its total grows by the word's count in the sentence, the sentence joins its set once, other words are unchanged, and the key order stays repeat-free and matches the keys |
| Aggregate.AddWordsEffect | common_words.py:137-145 | for any count, after a sentence's words: keys are the old keys plus the words; each total grows by (times listed) times (the word's count in the sentence); the words listed gain the sentence and no other word changes |
| Aggregate.ScanSpec | common_words.py:126-145 | for any count, after all sentences the dictionary holds exactly the words seen, each with its reference total and reference repeat-free sentence list |
| Aggregate.SentencesWithSpec | common_words.py:145 | a word's sentence list has no repeats and holds exactly the sentences whose words include it |
| Aggregate.UnseenTotalZero | common_words.py:126 | a word no sentence yields has the defaultdict's zero count |
| Aggregate.SentencesAtMostTotal | common_words.py:139-145 | a word's sentence count never exceeds its total whenever the count finds the word at least once in every sentence that yields it |
| Aggregate.CorrectedSentencesAtMostTotal | common_words.py:139-145 | with the corrected count the bound always holds, given that word-like tokens are whole words of the tokenizer's input |
| Aggregate.DontTotalZero | common_words.py:139-145 | with the count as written the bound fails: the document `don't` records its sentence under `dont` with total 0 |
| Aggregate.Bump | common_words.py:139-145 | the imperative update of the two dictionary columns equals one reference step with line 139's count: whole-word matches in the lowercased sentence before the contraction rewrite |
| Aggregate.Tally | common_words.py:126-145 | the nested loop over lines, sentences and words builds the reference dictionary on the lowercased sentences, with line 139's count as written |
| Aggregate.Flatten | common_words.py:147-156 | one row per key in insertion order, with the key's total and its sentences joined by newlines |
| Aggregate.RowsDescribe | common_words.py:147-156 | flattened rows of the reference dictionary have distinct words, cover exactly the seen words, and carry each word's reference total and joined sentences |
| Aggregate.WordsDetails | common_words.py:122-156 | the rows describe the document: distinct words, exactly the seen words, each with its total under line 139's count as written and its newline-joined distinct sentences |
| Corpus.DocTable | common_words.py:82-85 | the word-indexed table built from the rows has exactly the rows' words as keys |
| Corpus.DocTableAt | common_words.py:82-85 | for rows with distinct words, each row is found under its own word |
| Corpus.Present | common_words.py:76 | the non-NaN arguments are at most the arguments, and there are none iff every argument is NaN |
| Corpus.Concat | common_words.py:75-77 | the result is NaN iff every argument is NaN |
| Corpus.ConcatPair | common_words.py:75-77 | two arguments: both NaN give NaN, one NaN gives the other, two strings are glued with the delimiter |
| Corpus.ConcatAppend | common_words.py:75-77 | concatenating a list with one more argument equals concatenating the previous result with it |
| Corpus.MergeEffect | common_words.py:90-103 | after one merge a word is present iff either side has it; a word only the table had is unchanged; a word only the document has gets the document's id, total and sentences; a shared word gets id and sentences appended and totals added |
| Corpus.IdsWithSpec | common_words.py:96-103 | a word is in some document iff its id list is non-empty; it has one sentence blob per id; a word in no document sums to zero |
| Corpus.MergeKeepsClosed | common_words.py:90-108 | if the table was the closed form of the earlier documents, one merge gives the closed form of the documents read so far, for each word |
| Corpus.FoldClosedForm | common_words.py:81-108 | after the loop the table holds exactly the words of the documents; each row has the ids joined by commas, the summed totals and the blobs joined by newlines, in reading order |
| Corpus.SumTotalsAppend | common_words.py:103 | the summed total over two document lists is the sum of the two |
| Corpus.SumTotalsIndependentOfOrder | common_words.py:103 | a word's summed total is the same for any permutation of the documents |
| Corpus.AllWordsMembers | common_words.py:90-91 | a word is in the outer-merged table's key set iff some document holds it |
| Corpus.FoldIndependentOfOrder | common_words.py:81-103 | reading the same documents in another order gives a table with the same words and the same total under each word |
| Corpus.Select | common_words.py:111 | the kept rows are distinct, each is the table's row with a total at least the limit, and every such word is kept |
| Corpus.Insert | common_words.py:112 | inserting into a descending list keeps it descending, adds exactly the one row, and keeps words distinct when the new word is new |
| Corpus.SortByTotal | common_words.py:112 | the sorted rows are descending by total and a permutation of the input; distinct words stay distinct |
| Corpus.SortedSelection | common_words.py:111-112 | sorting the selected rows gives the report: distinct words, rows of the table at or above the limit, all such words, descending |
| Corpus.MergeAll | common_words.py:81-108 | the loop over stored documents yields the reference fold |
| Corpus.FinalDataframe | common_words.py:70-113 | the final dataframe is a report of the merged table at the limit |
| Fixtures.TwoDocs | common_words.py:90-103 | after two documents, the keys are their union and each row is the two successive merges of that word |
| Fixtures.FixtureKeys | tests/test_common_words.py:108-127 | the merged table of the two test documents has the words cat, dog, bird and turtle |
| Fixtures.CatRow | tests/test_common_words.py:112-115 | `cat`: docs `doc2.txt,doc1.txt`, total 4, both documents' sentences in reading order |
| Fixtures.DogRow | tests/test_common_words.py:117-119 | `dog`: docs `doc2.txt,doc1.txt`, total 6, sentences of doc2 then doc1 |
| Fixtures.BirdRow | tests/test_common_words.py:121-123 | `bird`: docs `doc1.txt`, total 4, its one sentence |
| Fixtures.TurtleRow | tests/test_common_words.py:125-127 | `turtle`: docs `doc2.txt`, total 5, its one sentence |
| Fixtures.ReachesFive | tests/test_common_words.py:129-131 | only dog and turtle reach a total of five |
| Fixtures.CustomLimitFixture | tests/test_common_words.py:129-131 | with limit 5 every possible report is exactly `dog` then `turtle` |
| Pipeline.DescribedTable | common_words.py:115-120 | a document's rows, indexed by word, are the reference table, and there are none iff the document has no word |
| Pipeline.NoRowsEmptyTable | common_words.py:56-57 | a dataframe is empty iff its word table is empty |
| Pipeline.FindCommonWords | common_words.py:46-63 | the documents read back are a permutation of the non-empty documents, each with its reference table under line 139's count as written, and the report is the final dataframe of them in the order they were read back |
| Pipeline.StoredStep | common_words.py:56-57 | one more source adds its total to a word's sum over stored documents, whether or not it was skipped |
| Pipeline.StoredTotals | common_words.py:49-57 | skipping the empty documents loses nothing from any word's total |
| Pipeline.ReportTotals | common_words.py:46-63 | for any read-back order, each report row carries the word's total over the whole corpus, and every stored word whose corpus total reaches the limit is reported |

## Left out

- Files, directories and CSV: `os.scandir`, opening and decoding files, and writing and
  re-reading the per-document CSVs (lines 49-61, 81-82). A document's lines are an input. The
  stored table is carried as a value, which assumes the CSV round trip loses nothing.
- Document ids: the id is an input of each source. The model does not derive it from the
  file name. Line 59 stores the whole `splitext` tuple, so the CSV is named after the
  tuple's text, and line 88 then strips only the last extension. This naming is not
  modelled.
- NLTK: `sent_tokenize`, `ToktokTokenizer` and `stopwords.words('english')` are parameters
  of the model (`Toolkit`). The ResourceWarning noted at line 174 is not modelled.
- Regular expressions: the word is put into the pattern at line 139 without escaping. A
  word holding pattern syntax is modelled as a literal string.
- Character classes: `\w`, `\b` and `lower()` are modelled on ASCII only; Unicode letters
  count as non-word characters.
- Floats: pandas totals are floats after the merge; the model uses natural numbers.
- `fillna('')` (line 110) returns a new frame that is discarded, so it changes nothing and is
  not modelled.
- `reset_index` and the final CSV write (lines 66-67) are left out.
- The command line (`setup_directories`, `handle_parser`, `create_parser`, lines 182-225) is
  left out.
- Corpus.SortByTotal: the sort is modelled on a list of rows (insertion sort, values only).
  The order among rows with equal totals is left open: `IsReport` allows any order of ties,
  and pandas' actual tie order is not modelled.
- Transit directory order: the stored documents are read back (line 81) in an order the
  model leaves open; `FindCommonWords` picks it freely and returns it as `listed`. Totals
  do not depend on it (`FoldIndependentOfOrder`), but the order of ids in `docs` and of
  blobs in `sentences` does, and no particular listing order of the file system is modelled.
- Corpus.Select: the rows reaching the limit are collected in an unspecified order. Only
  the sorted result is pinned down.
- Set order: a Python set's iteration order is modelled as first-occurrence order, so the
  exact order of sentences inside a row is one possible order, not the interpreter's.
- Fixtures: `tests/sample.py` (the stored CSV texts) is not part of this model. The two
  per-document tables in `Fixtures` are chosen so that the merged rows match what the
  tests assert.

## Findings

| source | as written | input that shows it | evidently intended | confidence | as-written member | corrected member |
|---|---|---|---|---|---|---|
| common_words.py:139 | each word from `_get_words` is counted with `\bword\b` in the sentence as it was BEFORE the contraction rewrite at line 166 | sentence `don't`: `_get_words` yields `dont`, which never occurs in `don't`, so its total is 0 while its sentence is recorded | count the word in the rewritten text it was tokenized from, so every word found in a sentence counts at least once there | medium, not executed | Tokens.OccurrencesAsWritten (used by Aggregate.Bump, Tally and WordsDetails; shown by Tokens.ContractionCountedZero and Aggregate.DontTotalZero) | Tokens.Occurrences (proved by Tokens.CountedAtLeastOnce and Aggregate.CorrectedSentencesAtMostTotal, through the count parameter of Aggregate.Scan and TotalOf) |
