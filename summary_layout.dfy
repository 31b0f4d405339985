/**
 * Layout properties of the summary sheet (summarizer.py): what each column
 * adds, where its rows go, which chart it saves, and how the columns stack.
 */
module SummaryLayout {
  import opened Seqs
  import opened Cells
  import opened Cleaning
  import opened Naming
  import opened Book
  import opened Summary

  // ---------------------------------------------------------------------
  // The distribution of one column
  // ---------------------------------------------------------------------

  /**
   * A column with answers gets a non-empty distribution of at most TopN + 1
   * entries ("Outros" included), by decreasing percentage, each answer once.
   */
  lemma DistributionShape(answers: seq<Cell>)
    ensures Distribution(answers) != [] <==> answers != []
    ensures |Distribution(answers)| <= TopN + 1
    ensures NonIncreasing(Distribution(answers), ShareKey)
    ensures DistinctBy(Distribution(answers), ShareLabel)
  {
    var counts := ValueCounts(answers);
    ValueCountsFacts(answers);
    CapTopNTotal(counts, TopN, Str(OthersLabel));
    CapTopNDistinct(counts, TopN, Str(OthersLabel));
    ToPercentagesDistinct(Capped(answers));
    var r := Distribution(answers);
    assert |r| == |Capped(answers)| by {
      if Total(Capped(answers)) > 0 {
        var shares := Shares(Capped(answers), Total(Capped(answers)));
        assert |multiset(r)| == |multiset(shares)|;
        SharesLength(Capped(answers), Total(Capped(answers)));
      }
    }
  }

  lemma {:induction false} SharesLength(counts: seq<Bin>, total: nat)
    requires total > 0
    ensures |Shares(counts, total)| == |counts|
  {
    if counts != [] {
      SharesLength(counts[1..], total);
    }
  }

  /**
   * The rows are written in the chart's order except that "Outros", when
   * present, comes last and appears once; nothing is added or lost.
   */
  lemma WrittenOrderShape(answers: seq<Cell>)
    ensures var pct := Distribution(answers);
      multiset(WrittenOrder(pct)) == multiset(pct) && |WrittenOrder(pct)| == |pct|
    ensures var pct := Distribution(answers);
      forall k :: 0 <= k < |pct| && pct[k].answer == Str(OthersLabel) ==>
        WrittenOrder(pct) == pct[..k] + pct[k + 1..] + [pct[k]]
    ensures var pct := Distribution(answers);
      (forall k :: 0 <= k < |pct| ==> pct[k].answer != Str(OthersLabel)) ==> WrittenOrder(pct) == pct
  {
    var pct := Distribution(answers);
    DistributionShape(answers);
    OthersLastPermutation(pct, Str(OthersLabel));
    assert |multiset(WrittenOrder(pct))| == |multiset(pct)|;
    forall k | 0 <= k < |pct| && pct[k].answer == Str(OthersLabel)
      ensures WrittenOrder(pct) == pct[..k] + pct[k + 1..] + [pct[k]]
    {
      OthersLastMoves(pct, Str(OthersLabel), k);
    }
  }

  // ---------------------------------------------------------------------
  // The rows of one column
  // ---------------------------------------------------------------------

  /** Every write lands on a row in [lo, hi). */
  predicate RowsWithin(puts: seq<Put>, lo: nat, hi: nat) {
    forall i :: 0 <= i < |puts| ==> lo <= puts[i].row < hi
  }

  /** The writes never go back up the sheet. */
  predicate RowsInOrder(puts: seq<Put>) {
    forall i, j :: 0 <= i < j < |puts| ==> puts[i].row <= puts[j].row
  }

  /** A block starting at `row` writes, top to bottom, only inside its own rows. */
  predicate Laid(b: Block, row: nat) {
    RowsWithin(b.puts, row, row + b.height) && RowsInOrder(b.puts)
  }

  /** The last row of the block is left blank. */
  predicate BlankLast(b: Block, row: nat) {
    forall i :: 0 <= i < |b.puts| ==> b.puts[i].row + 1 < row + b.height
  }

  /** Write w of the answer rows is on row `row + w / 2`, in column w % 2. */
  lemma AnswerPutsAt(sheet: string, row: nat, pct: seq<Share>, w: nat)
    requires w < 2 * |pct|
    ensures AnswerPuts(sheet, row, pct)[w] == AnswerRow(sheet, row + w / 2, pct[w / 2])[w % 2]
  {
    var i := w / 2;
    AnswerPutsRows(sheet, row, pct);
    assert AnswerPuts(sheet, row, pct)[2 * i..2 * i + 2] == AnswerRow(sheet, row + i, pct[i]);
    assert AnswerPuts(sheet, row, pct)[w] == AnswerPuts(sheet, row, pct)[2 * i..2 * i + 2][w % 2];
  }

  /** The answer rows take one row each, in the order of the list. */
  lemma AnswerPutsLaid(sheet: string, row: nat, pct: seq<Share>)
    ensures RowsWithin(AnswerPuts(sheet, row, pct), row, row + |pct|)
    ensures RowsInOrder(AnswerPuts(sheet, row, pct))
  {
    var r := AnswerPuts(sheet, row, pct);
    forall w | 0 <= w < |r|
      ensures r[w].row == row + w / 2
    {
      AnswerPutsAt(sheet, row, pct, w);
    }
  }

  /** The rows of a distribution: one row per entry, then a blank one. */
  lemma AnswerBlockLaid(sheet: string, row: nat, shown: seq<Share>, charts: seq<Chart>)
    ensures var b := Block(AnswerPuts(sheet, row, shown), charts, |shown| + 1);
      Laid(b, row) && BlankLast(b, row)
  {
    AnswerPutsLaid(sheet, row, shown);
  }

  /** A title row written above a block laid out on the next row. */
  lemma TitledLaid(title: Put, d: Block, row: nat)
    requires title.row == row && Laid(d, row + 1) && d.height >= 2 && BlankLast(d, row + 1)
    ensures var b := Block([title] + d.puts, d.charts, d.height + 1);
      Laid(b, row) && BlankLast(b, row)
  {
    var s := [title] + d.puts;
    forall i | 0 < i < |s|
      ensures s[i] == d.puts[i - 1]
    {
    }
  }

  lemma DistributionBlockLaid(sheet: string, answers: seq<Cell>, path: string, row: nat)
    requires answers != []
    ensures var b := DistributionBlock(sheet, answers, path, row);
      Laid(b, row) && b.height >= 2 && BlankLast(b, row)
  {
    var pct := Distribution(answers);
    DistributionShape(answers);
    WrittenOrderShape(answers);
    AnswerBlockLaid(sheet, row, WrittenOrder(pct), [Chart(KindFor(pct), path, pct)]);
  }

  /** A question's title, then its note or its distribution, then a blank row. */
  lemma QuestionLaid(sheet: string, header: string, answers: seq<Cell>, kw: string, path: string, row: nat)
    ensures var b := QuestionBlock(sheet, header, answers, kw, path, row);
      Laid(b, row) && BlankLast(b, row)
  {
    if answers != [] {
      AnsweredLaid(sheet, header, answers, kw, path, row);
    } else {
      NoteLaid(Put(sheet, row, 0, Label("Question: " + header)), Put(sheet, row + 1, 0, Label(EmptyNote(kw))), row);
    }
  }

  lemma AnsweredLaid(sheet: string, header: string, answers: seq<Cell>, kw: string, path: string, row: nat)
    requires answers != []
    ensures var b := QuestionBlock(sheet, header, answers, kw, path, row);
      Laid(b, row) && BlankLast(b, row)
  {
    var title := Put(sheet, row, 0, Label("Question: " + header));
    var d := DistributionBlock(sheet, answers, path, row + 1);
    DistributionBlockLaid(sheet, answers, path, row + 1);
    TitledLaid(title, d, row);
  }

  /** A title and a note on the next row, then a blank row. */
  lemma NoteLaid(title: Put, note: Put, row: nat)
    requires title.row == row && note.row == row + 1
    ensures Laid(Block([title, note], [], 3), row) && BlankLast(Block([title, note], [], 3), row)
  {
  }

  /**
   * What a column adds: nothing when skipped; otherwise its title on the
   * first row, then the note or one row per answer, then a blank row, so the
   * next question starts two rows below the last write.
   */
  lemma ColumnLaid(sheet: string, header: string, column: seq<Cell>, kw: string, path: string, row: nat)
    ensures var b := ColumnBlock(sheet, header, column, kw, path, row);
      Laid(b, row) && BlankLast(b, row)
  {
    if !IsSkipped(kw) {
      QuestionLaid(sheet, header, Answers(kw, column), kw, path, row);
    }
  }

  /**
   * The size of what a column adds: a skipped column nothing; an empty one
   * its title and note, no chart, three rows; otherwise its title and two
   * writes per answer, |pct| + 2 rows, and one chart of its distribution,
   * a pie for at most four answers and a bar chart otherwise.
   */
  lemma ColumnSize(sheet: string, header: string, column: seq<Cell>, kw: string, path: string, row: nat)
    ensures var b := ColumnBlock(sheet, header, column, kw, path, row);
      IsSkipped(kw) ==> b == Block([], [], 0)
    ensures var b := ColumnBlock(sheet, header, column, kw, path, row);
      !IsSkipped(kw) && Answers(kw, column) == [] ==>
        b.height == 3 && b.charts == [] &&
        b.puts == [Put(sheet, row, 0, Label("Question: " + header)), Put(sheet, row + 1, 0, Label(EmptyNote(kw)))]
    ensures var b := ColumnBlock(sheet, header, column, kw, path, row);
      var pct := Distribution(Answers(kw, column));
      !IsSkipped(kw) && Answers(kw, column) != [] ==>
        1 <= |pct| <= TopN + 1 && b.height == |pct| + 2 && |b.puts| == 1 + 2 * |pct| &&
        b.charts == [Chart(if |pct| <= 4 then Pie else Bar, path, pct)]
  {
    var answers := Answers(kw, column);
    if !IsSkipped(kw) && answers != [] {
      DistributionShape(answers);
      WrittenOrderShape(answers);
    }
  }

  /** A column whose keyword is missing or not one of the four is tabulated exactly as FECHADA. */
  lemma UnknownKeywordIsClosed(sheet: string, header: string, column: seq<Cell>, kw: string, path: string, row: nat)
    requires kw != Multipla && kw != Aberta && kw != Ignorar
    ensures ColumnBlock(sheet, header, column, kw, path, row) == ColumnBlock(sheet, header, column, Fechada, path, row)
  {
  }

  /** os.path.join with the same directory keeps different names apart. */
  lemma PathJoinInjective(dir: string, a: string, b: string)
    requires PathJoin(dir, a) == PathJoin(dir, b)
    ensures a == b
  {
    var p := if dir == [] || dir[|dir| - 1] == '/' then dir else dir + "/";
    assert PathJoin(dir, a) == p + a && PathJoin(dir, b) == p + b;
    assert a == (p + a)[|p|..];
  }

  lemma AffixCancel(p: string, x: string, y: string, s: string)
    requires p + x + s == p + y + s
    ensures x == y
  {
    assert |x| == |y|;
    assert x == (p + x + s)[|p|..|p| + |x|];
  }

  /** The chart file of a column names the column, so two columns never share a file. */
  lemma ChartFileInjective(chartsDir: string, sheetLabel: string, i: nat, j: nat)
    requires ChartFile(chartsDir, sheetLabel, i) == ChartFile(chartsDir, sheetLabel, j)
    ensures i == j
  {
    var base := SanitizeFilename(sheetLabel, 50) + "_column";
    PathJoinInjective(chartsDir, base + ColumnName(i) + ".jpg", base + ColumnName(j) + ".jpg");
    AffixCancel(base, ColumnName(i), ColumnName(j), ".jpg");
    ColumnNameInjective(i, j);
  }

  // ---------------------------------------------------------------------
  // The columns stacked
  // ---------------------------------------------------------------------

  /** A block laid out below another one continues the order of the writes. */
  lemma StackLaid(top: Block, bottom: Block, row: nat)
    requires Laid(top, row) && Laid(bottom, row + top.height)
    ensures Laid(Stack(top, bottom), row)
  {
    var s := Stack(top, bottom).puts;
    forall i | 0 <= i < |s|
      ensures row <= s[i].row < row + top.height + bottom.height
    {
      if i >= |top.puts| {
        assert s[i] == bottom.puts[i - |top.puts|];
      }
    }
    forall i, j | 0 <= i < j < |s|
      ensures s[i].row <= s[j].row
    {
      if j < |top.puts| {
      } else if i >= |top.puts| {
        assert s[i] == bottom.puts[i - |top.puts|];
        assert s[j] == bottom.puts[j - |top.puts|];
      } else {
        assert s[j] == bottom.puts[j - |top.puts|];
      }
    }
  }

  /** When every column keeps to its own rows, the first n columns write top to bottom from row 1. */
  lemma {:induction false} BodyLaid(cols: (nat, nat) -> Block, n: nat)
    requires forall j: nat, row: nat :: j < n ==> Laid(cols(j, row), row)
    ensures Laid(Body(cols, n), 1)
  {
    if n > 0 {
      var prev := Body(cols, n - 1);
      BodyLaid(cols, n - 1);
      StackLaid(prev, cols(n - 1, 1 + prev.height), 1);
    }
  }

  /** Every column of the DataFrame keeps to its own rows. */
  lemma ColumnsLaid(cols: (nat, nat) -> Block, sheet: string, df: Frame, controlMap: map<string, string>, paths: nat -> string)
    requires ColumnsOf(cols, sheet, df, controlMap, paths)
    ensures forall j: nat, row: nat :: j < |df.headers| ==> Laid(cols(j, row), row)
  {
    forall j: nat, row: nat | j < |df.headers|
      ensures Laid(cols(j, row), row)
    {
      ColumnLaid(sheet, df.headers[j], Column(df, j), Keyword(controlMap, df.headers[j]), paths(j), row);
    }
  }

  /** The columns of the sheet, below the header row, write top to bottom. */
  lemma SheetBodyLaid(sheet: string, df: Frame, controlMap: map<string, string>, sheetLabel: string, chartsDir: string)
    ensures Laid(SheetBody(sheet, df, controlMap, sheetLabel, chartsDir), 1)
  {
    var paths := ChartPaths(chartsDir, sheetLabel);
    var cols := Columns(sheet, df, controlMap, paths);
    ColumnsAreColumnsOf(sheet, df, controlMap, paths);
    ColumnsLaid(cols, sheet, df, controlMap, paths);
    BodyLaid(cols, |df.headers|);
  }

  /**
   * The whole summary sheet: the header on row 0, then every write below it
   * in order, no question overwriting another.
   */
  lemma SheetLaid(sheet: string, df: Frame, controlMap: map<string, string>, sheetLabel: string, chartsDir: string)
    ensures RowsInOrder(HeaderPuts(sheet) + SheetBody(sheet, df, controlMap, sheetLabel, chartsDir).puts)
  {
    var b := SheetBody(sheet, df, controlMap, sheetLabel, chartsDir);
    SheetBodyLaid(sheet, df, controlMap, sheetLabel, chartsDir);
    StackLaid(Block(HeaderPuts(sheet), [], 1), b, 0);
  }
}
