/**
 * The CSV export script (csv_export.py): one Question per survey column
 * whose flag does not mark it as skipped, then one CSV row with the
 * question text followed by one row per answer, sorted by share from the
 * largest down.
 *
 * The survey is read with a two-line header: the first line holds the
 * question texts (the frame's headers), the second a flag per column. The
 * CSV writer is modelled by the rows it is given; the file, its encoding
 * and its quoting are not.
 */
module CsvExport {
  import opened Text
  import opened Seqs
  import opened Cells
  import opened Questions

  const IgnoreFlag: string := "ignore"

  /**
   * `flag in ("ignore")`: the parentheses hold a string, not a tuple, so the
   * test is whether the flag is a substring of "ignore".
   */
  predicate Skipped(flag: string) {
    Contains(IgnoreFlag, flag)
  }

  /**
   * A flag is skipped exactly when it is a slice of "ignore": "ignore", the
   * empty flag and fragments such as "ign" are skipped, while
   * "open_question" and "fixed_question" are not.
   */
  lemma SkipRule(flag: string)
    ensures Skipped(flag) <==> exists i :: SliceAt(IgnoreFlag, flag, i)
    ensures Skipped("ignore") && Skipped("") && Skipped("ign")
    ensures !Skipped("open_question") && !Skipped("fixed_question")
  {
    ContainsSlice(IgnoreFlag, flag);
    ContainsSlice(IgnoreFlag, "ign");
    assert SliceAt(IgnoreFlag, "ign", 0);
    ContainsSlice(IgnoreFlag, "open_question");
    ContainsSlice(IgnoreFlag, "fixed_question");
  }

  /** The positions of the columns that are not skipped, in order. */
  function KeptColumns(flags: seq<string>): seq<nat> {
    if flags == [] then []
    else
      var n := |flags| - 1;
      KeptColumns(flags[..n]) + (if Skipped(flags[n]) then [] else [n])
  }

  /** The kept positions are increasing, and a column is kept exactly when its flag is not skipped. */
  lemma {:induction false} KeptColumnsSpec(flags: seq<string>)
    ensures forall k :: 0 <= k < |KeptColumns(flags)| ==> KeptColumns(flags)[k] < |flags|
    ensures forall k, m :: 0 <= k < m < |KeptColumns(flags)| ==> KeptColumns(flags)[k] < KeptColumns(flags)[m]
    ensures forall j :: 0 <= j < |flags| ==> (j in KeptColumns(flags) <==> !Skipped(flags[j]))
  {
    if flags != [] {
      var n := |flags| - 1;
      KeptColumnsSpec(flags[..n]);
      var prev := KeptColumns(flags[..n]);
      var r := KeptColumns(flags);
      assert r == prev + (if Skipped(flags[n]) then [] else [n]);
      forall j | 0 <= j < |flags| ensures j in r <==> !Skipped(flags[j]) {
        if j < n {
          assert flags[..n][j] == flags[j];
        }
      }
    }
  }

  lemma KeptColumnsSnoc(flags: seq<string>, j: nat)
    requires j < |flags|
    ensures KeptColumns(flags[..j + 1]) == KeptColumns(flags[..j]) + (if Skipped(flags[j]) then [] else [j])
  {
    assert flags[..j + 1][..j] == flags[..j];
  }

  /**
   * The questions built for the columns at the kept positions: question k
   * has the title of column kept[k], the relative frequency of every
   * distinct non-missing cell of that column, and the number of its
   * non-missing cells.
   */
  ghost predicate BuiltFrom(items: seq<Question>, df: Frame, kept: seq<nat>)
    reads set q | q in items
  {
    |items| == |kept| &&
    forall k :: 0 <= k < |items| ==>
      kept[k] < |df.headers| &&
      items[k].question == df.headers[kept[k]] &&
      Counted(items[k], Present(Column(df, kept[k])))
  }

  /** The body of the loop for a kept column: handle_question_default's code, inline in the script. */
  method AddColumn(df: Frame, column: nat, list: QuestionList, ghost kept: seq<nat>)
    requires column < |df.headers|
    requires BuiltFrom(list.items, df, kept)
    modifies list
    ensures BuiltFrom(list.items, df, kept + [column])
  {
    ghost var before := list.items;
    var q := HandleDefault(df, column, list);
    assert list.items == before + [q];
    forall k | 0 <= k < |list.items|
      ensures (kept + [column])[k] < |df.headers| &&
        list.items[k].question == df.headers[(kept + [column])[k]] &&
        Counted(list.items[k], Present(Column(df, (kept + [column])[k])))
    {
      if k < |before| {
        assert list.items[k] == before[k];
      }
    }
  }

  /** The loop over the columns: one question for every kept column, in order. */
  method BuildQuestions(df: Frame, flags: seq<string>) returns (list: QuestionList)
    requires |flags| == |df.headers|
    ensures fresh(list)
    ensures BuiltFrom(list.items, df, KeptColumns(flags))
  {
    list := new QuestionList();
    var column := 0;
    while column < |flags|
      invariant 0 <= column <= |flags|
      invariant BuiltFrom(list.items, df, KeptColumns(flags[..column]))
    {
      KeptColumnsSnoc(flags, column);
      if !Skipped(flags[column]) {
        AddColumn(df, column, list, KeptColumns(flags[..column]));
      }
      column := column + 1;
    }
    assert flags[..column] == flags;
  }

  // ---------------------------------------------------------------------
  // The CSV rows
  // ---------------------------------------------------------------------

  /** One (answer, share) item of the answers dict. */
  datatype Entry = Entry(answer: Cell, share: real)

  function EntryShare(e: Entry): real { e.share }

  datatype CsvRow =
    | TitleRow(title: string)
    | AnswerRow(answer: Cell, share: real, scaled: real)

  /** answers.items(), in the insertion order of the keys. */
  function Items(keys: seq<Cell>, answers: map<Cell, real>): (r: seq<Entry>)
    requires forall i :: 0 <= i < |keys| ==> keys[i] in answers
    ensures |r| == |keys|
    ensures forall i :: 0 <= i < |r| ==> r[i] == Entry(keys[i], answers[keys[i]])
  {
    if keys == [] then []
    else Items(keys[..|keys| - 1], answers) + [Entry(keys[|keys| - 1], answers[keys[|keys| - 1]])]
  }

  /** sorted(answers.items(), key=share, reverse=True). */
  function SortedItems(keys: seq<Cell>, answers: map<Cell, real>): seq<Entry>
    requires forall i :: 0 <= i < |keys| ==> keys[i] in answers
  {
    SortDesc(Items(keys, answers), EntryShare)
  }

  /** share * num_answers. */
  function Scale(share: real, num: int): real {
    share * num as real
  }

  /** A frequency scaled back by the number it was taken over is the count. */
  lemma ScaleFrequency(count: nat, n: nat)
    requires n > 0
    ensures Scale(count as real / n as real, n) == count as real
  {
  }

  /** The row written for one answer: the answer, its share, and the share times num_answers. */
  function RowOf(e: Entry, num: int): CsvRow {
    AnswerRow(e.answer, e.share, Scale(e.share, num))
  }

  function AnswerRows(entries: seq<Entry>, num: int): (r: seq<CsvRow>)
    ensures |r| == |entries|
  {
    if entries == [] then []
    else AnswerRows(entries[..|entries| - 1], num) + [RowOf(entries[|entries| - 1], num)]
  }

  /** The rows of one question: its title, then its answers from the largest share down. */
  function QuestionRows(title: string, keys: seq<Cell>, answers: map<Cell, real>, num: int): seq<CsvRow>
    requires forall i :: 0 <= i < |keys| ==> keys[i] in answers
  {
    [TitleRow(title)] + AnswerRows(SortedItems(keys, answers), num)
  }

  ghost predicate AllValid(items: seq<Question>)
    reads set q | q in items
  {
    forall i :: 0 <= i < |items| ==> items[i].Valid()
  }

  /** The whole file: the rows of every question, in list order. */
  function CsvRows(items: seq<Question>): seq<CsvRow>
    requires AllValid(items)
    reads set q | q in items
  {
    if items == [] then []
    else
      var last := items[|items| - 1];
      assert last.Valid();
      CsvRows(items[..|items| - 1]) + QuestionRows(last.question, last.keys, last.answers, last.numAnswers)
  }

  // ---------------------------------------------------------------------
  // What the rows say
  // ---------------------------------------------------------------------

  lemma AnswerRowsSnoc(entries: seq<Entry>, e: Entry, num: int)
    ensures AnswerRows(entries + [e], num) == AnswerRows(entries, num) + [RowOf(e, num)]
  {
    assert (entries + [e])[..|entries|] == entries;
  }

  lemma {:induction false} AnswerRowsAt(entries: seq<Entry>, num: int)
    ensures forall i :: 0 <= i < |entries| ==> AnswerRows(entries, num)[i] == RowOf(entries[i], num)
  {
    if entries != [] {
      var n := |entries| - 1;
      AnswerRowsAt(entries[..n], num);
    }
  }

  /**
   * The items come out from the largest share down, every item appears as
   * often as before, and each is an item of the dict.
   */
  lemma SortedItemsSpec(keys: seq<Cell>, answers: map<Cell, real>)
    requires forall i :: 0 <= i < |keys| ==> keys[i] in answers
    ensures NonIncreasing(SortedItems(keys, answers), EntryShare)
    ensures multiset(SortedItems(keys, answers)) == multiset(Items(keys, answers))
    ensures forall i :: 0 <= i < |SortedItems(keys, answers)| ==>
      SortedItems(keys, answers)[i].answer in answers &&
      answers[SortedItems(keys, answers)[i].answer] == SortedItems(keys, answers)[i].share
  {
    var items := Items(keys, answers);
    var sorted := SortedItems(keys, answers);
    forall i | 0 <= i < |sorted| ensures sorted[i].answer in answers && answers[sorted[i].answer] == sorted[i].share {
      var k := PermutationIndex(sorted, items, i);
    }
  }

  /** The sort is stable: items with equal shares keep the insertion order of their keys. */
  lemma SortedItemsStable(keys: seq<Cell>, answers: map<Cell, real>, v: real)
    requires forall i :: 0 <= i < |keys| ==> keys[i] in answers
    ensures Filter(SortedItems(keys, answers), KeyIs(EntryShare, v)) == Filter(Items(keys, answers), KeyIs(EntryShare, v))
  {
    SortDescStable(Items(keys, answers), EntryShare, v);
  }

  /**
   * The rows of one question: the title first, then one row per key, each
   * holding its answer, the share stored for it and that share times
   * num_answers.
   */
  lemma QuestionRowsSpec(title: string, keys: seq<Cell>, answers: map<Cell, real>, num: int, rows: seq<CsvRow>)
    requires forall i :: 0 <= i < |keys| ==> keys[i] in answers
    requires rows == QuestionRows(title, keys, answers, num)
    ensures |rows| == 1 + |keys| && rows[0] == TitleRow(title) &&
      forall i :: 1 <= i < |rows| ==>
        rows[i].AnswerRow? && rows[i].answer in answers &&
        rows[i].share == answers[rows[i].answer] && rows[i].scaled == Scale(rows[i].share, num)
  {
    var items := Items(keys, answers);
    var sorted := SortedItems(keys, answers);
    QuestionRowsAt(title, keys, answers, num, rows);
    forall i | 1 <= i < |rows|
      ensures rows[i].AnswerRow? && rows[i].answer in answers &&
        rows[i].share == answers[rows[i].answer] && rows[i].scaled == Scale(rows[i].share, num)
    {
      var k := PermutationIndex(sorted, items, i - 1);
      assert rows[i] == RowOf(items[k], num);
    }
  }

  /** Down the answer rows of a question the shares never increase. */
  lemma QuestionRowsOrdered(title: string, keys: seq<Cell>, answers: map<Cell, real>, num: int, rows: seq<CsvRow>)
    requires forall i :: 0 <= i < |keys| ==> keys[i] in answers
    requires rows == QuestionRows(title, keys, answers, num)
    ensures forall i, j :: 1 <= i < j < |rows| ==> rows[i].AnswerRow? && rows[j].AnswerRow? && rows[i].share >= rows[j].share
  {
    var sorted := SortedItems(keys, answers);
    QuestionRowsAt(title, keys, answers, num, rows);
    assert NonIncreasing(sorted, EntryShare);
    forall i, j | 1 <= i < j < |rows| ensures rows[i].AnswerRow? && rows[j].AnswerRow? && rows[i].share >= rows[j].share {
      assert rows[i] == RowOf(sorted[i - 1], num) && rows[j] == RowOf(sorted[j - 1], num);
      assert EntryShare(sorted[i - 1]) >= EntryShare(sorted[j - 1]);
    }
  }

  /** Row i + 1 is the row of the i-th sorted item. */
  lemma QuestionRowsAt(title: string, keys: seq<Cell>, answers: map<Cell, real>, num: int, rows: seq<CsvRow>)
    requires forall i :: 0 <= i < |keys| ==> keys[i] in answers
    requires rows == QuestionRows(title, keys, answers, num)
    ensures |rows| == 1 + |keys| && rows[0] == TitleRow(title) &&
      forall i :: 1 <= i < |rows| ==> rows[i] == RowOf(SortedItems(keys, answers)[i - 1], num)
  {
    var sorted := SortedItems(keys, answers);
    AnswerRowsAt(sorted, num);
    forall i | 1 <= i < |rows|
      ensures rows[i] == RowOf(sorted[i - 1], num)
    {
      assert rows[i] == AnswerRows(sorted, num)[i - 1];
    }
  }

  /**
   * For a question counted from some cells, the third field of every answer
   * row (share times num_answers) is the number of cells holding that answer.
   */
  lemma ScaledIsCount(q: Question, cells: seq<Cell>, rows: seq<CsvRow>)
    requires Counted(q, cells)
    requires rows == QuestionRows(q.question, q.keys, q.answers, q.numAnswers)
    ensures forall i :: 1 <= i < |rows| ==> rows[i].AnswerRow? && rows[i].scaled == multiset(cells)[rows[i].answer] as real
  {
    QuestionRowsSpec(q.question, q.keys, q.answers, q.numAnswers, rows);
    forall i | 1 <= i < |rows|
      ensures rows[i].AnswerRow? && rows[i].scaled == multiset(cells)[rows[i].answer] as real
    {
      var a := rows[i].answer;
      assert q.keys != [];
      assert q.keys[0] in cells;
      ScaleFrequency(multiset(cells)[a], |cells|);
    }
  }

  // ---------------------------------------------------------------------
  // Writing
  // ---------------------------------------------------------------------

  /** The rows written for one question: the title row, then the loop over the sorted answers. */
  method WriteQuestion(q: Question) returns (rows: seq<CsvRow>)
    requires q.Valid()
    ensures rows == QuestionRows(q.question, q.keys, q.answers, q.numAnswers)
  {
    rows := [TitleRow(q.question)];
    var sorted := SortedItems(q.keys, q.answers);
    var answerRows := WriteAnswers(sorted, q.numAnswers);
    rows := rows + answerRows;
  }

  /** The loop over the sorted answers: one row per item, the share taken from the item. */
  method WriteAnswers(sorted: seq<Entry>, num: int) returns (rows: seq<CsvRow>)
    ensures rows == AnswerRows(sorted, num)
  {
    rows := [];
    var i := 0;
    while i < |sorted|
      invariant 0 <= i <= |sorted|
      invariant rows == AnswerRows(sorted[..i], num)
    {
      var e := sorted[i];
      TakeSnoc(sorted, i);
      AnswerRowsSnoc(sorted[..i], e, num);
      var row := AnswerRow(e.answer, e.share, Scale(e.share, num));
      assert row == RowOf(e, num);
      rows := rows + [row];
      i := i + 1;
    }
    assert sorted[..i] == sorted;
  }

  lemma CsvRowsSnoc(items: seq<Question>, i: nat)
    requires i < |items| && AllValid(items)
    ensures CsvRows(items[..i + 1]) ==
      CsvRows(items[..i]) + QuestionRows(items[i].question, items[i].keys, items[i].answers, items[i].numAnswers)
  {
    assert items[..i + 1][..i] == items[..i];
  }

  /** One pass of the loop over the question list: the rows of question i appended. */
  method WriteNext(items: seq<Question>, i: nat, rows: seq<CsvRow>) returns (next: seq<CsvRow>)
    requires i < |items| && AllValid(items)
    requires rows == CsvRows(items[..i])
    ensures next == CsvRows(items[..i + 1])
  {
    CsvRowsSnoc(items, i);
    var more := WriteQuestion(items[i]);
    next := rows + more;
  }

  /** The loop over the question list. */
  method WriteCsv(items: seq<Question>) returns (rows: seq<CsvRow>)
    requires AllValid(items)
    ensures rows == CsvRows(items)
  {
    rows := [];
    var i := 0;
    while i < |items|
      invariant 0 <= i <= |items|
      invariant rows == CsvRows(items[..i])
    {
      rows := WriteNext(items, i, rows);
      i := i + 1;
    }
    assert items[..i] == items;
  }
}
