/**
 * The 2025-09-16 script: one "Summary" sheet for the first sheet of the
 * input workbook. Every column is tabulated over all its rows, with blank
 * cells counted as the answer "Empty"; the percentages are rounded to two
 * decimals, listed by decreasing percentage and written as fractions of 1.
 * There is no control row and no chart.
 */
module OneSheetSummary {
  import opened Seqs
  import opened Cells
  import opened Cleaning
  import opened Book
  import opened Summary
  import opened SummaryLayout
  import opened ScriptCommon

  const SheetName: string := "Summary"

  /** value_counts(dropna=False, normalize=True) * 100, rounded to two decimals, by decreasing percentage. */
  function Percentages(column: seq<Cell>): seq<Share> {
    ToPercentages(ValueCounts(FillEmpty(column)))
  }

  /** A question: its title, one row per entry of the percentages with p / 100, a spacer row. */
  function PercentBlock(sheet: string, header: string, pct: seq<Share>, row: nat): Block {
    Tabulated(TitlePut(sheet, row, header), AnswerPuts(sheet, row + 1, pct), |pct|, [])
  }

  /** The percentages of every column, column by column. */
  function PercentTable(columns: seq<seq<Cell>>): (t: seq<seq<Share>>)
    ensures |t| == |columns|
  {
    if columns == [] then [] else PercentTable(columns[..|columns| - 1]) + [Percentages(columns[|columns| - 1])]
  }

  lemma {:induction false} PercentTableAt(columns: seq<seq<Cell>>, j: nat)
    requires j < |columns|
    ensures PercentTable(columns)[j] == Percentages(columns[j])
  {
    if j < |columns| - 1 {
      PercentTableAt(columns[..|columns| - 1], j);
    }
  }

  /** The percentages of every column of the frame. */
  function FrameTable(df: Frame): seq<seq<Share>> {
    PercentTable(ColumnList(df, |df.headers|))
  }

  /** Entry k of the table is the percentages of column k of the frame. */
  ghost predicate TableOf(table: seq<seq<Share>>, df: Frame) {
    |table| == |df.headers| && forall k :: 0 <= k < |table| ==> table[k] == Percentages(Column(df, k))
  }

  lemma FrameTableOf(df: Frame)
    ensures TableOf(FrameTable(df), df)
  {
    forall k | 0 <= k < |df.headers|
      ensures FrameTable(df)[k] == Percentages(Column(df, k))
    {
      ColumnListAt(df, |df.headers|, k);
      PercentTableAt(ColumnList(df, |df.headers|), k);
    }
  }

  /** Question j below its predecessors, given the table of percentages. */
  function Columns(sheet: string, headers: seq<string>, table: seq<seq<Share>>): (nat, nat) -> Block {
    (j: nat, row: nat) =>
      if j < |headers| && j < |table| then PercentBlock(sheet, headers[j], table[j], row) else Block([], [], 0)
  }

  /** What the loop writes for column j starting on `row`: the question of that column. */
  ghost predicate ColumnsOf(cols: (nat, nat) -> Block, sheet: string, df: Frame) {
    forall j: nat, row: nat :: j < |df.headers| ==> cols(j, row) == PercentBlock(sheet, df.headers[j], Percentages(Column(df, j)), row)
  }

  /** The columns of the sheet body are the questions of the frame's columns. */
  lemma ColumnsAreColumnsOf(sheet: string, df: Frame)
    ensures ColumnsOf(Columns(sheet, df.headers, FrameTable(df)), sheet, df)
  {
    FrameTableOf(df);
  }

  /** Everything below the header row. */
  function SheetBody(df: Frame): Block {
    Body(Columns(SheetName, df.headers, FrameTable(df)), |df.headers|)
  }

  /**
   * Every row of the column is counted, "Empty" included: the percentages
   * are the rounded shares of the counts over the number of rows, one entry
   * per distinct answer, by decreasing percentage; a column with rows always
   * gets at least one entry.
   */
  lemma PercentagesOverAllRows(column: seq<Cell>)
    ensures Percentages(column) == [] <==> column == []
    ensures NonIncreasing(Percentages(column), ShareKey)
    ensures DistinctBy(Percentages(column), ShareLabel)
    ensures column != [] ==>
      multiset(Percentages(column)) == multiset(Shares(ValueCounts(FillEmpty(column)), |column|))
  {
    ValueCountsFacts(FillEmpty(column));
    ToPercentagesDistinct(ValueCounts(FillEmpty(column)));
  }

  /**
   * A question takes its title row, one row per entry of the percentages
   * (entry k on the k-th row below the title, written as p / 100) and a
   * spacer row, writing top to bottom inside those rows.
   */
  lemma PercentBlockLayout(sheet: string, header: string, pct: seq<Share>, row: nat)
    ensures var b := PercentBlock(sheet, header, pct, row);
      Laid(b, row) && BlankLast(b, row) && b.height == |pct| + 2 && b.charts == []
  {
    AnswersTabulated(sheet, header, pct, [], row);
  }

  /** The title first, then entry k of the percentages on the k-th row below it, as its answer and p / 100. */
  lemma PercentBlockRows(sheet: string, header: string, pct: seq<Share>, row: nat)
    ensures var b := PercentBlock(sheet, header, pct, row);
      |b.puts| == 1 + 2 * |pct| && b.puts[0] == TitlePut(sheet, row, header) &&
      forall k :: 0 <= k < |pct| ==> b.puts[1 + 2 * k..3 + 2 * k] == AnswerRow(sheet, row + 1 + k, pct[k])
  {
    AnswerPutsRows(sheet, row + 1, pct);
    var b := PercentBlock(sheet, header, pct, row);
    forall k | 0 <= k < |pct|
      ensures b.puts[1 + 2 * k..3 + 2 * k] == AnswerRow(sheet, row + 1 + k, pct[k])
    {
      assert b.puts[1 + 2 * k..3 + 2 * k] == AnswerPuts(sheet, row + 1, pct)[2 * k..2 * k + 2];
    }
  }

  /** The header on row 0, then every question below the one before it, no row written twice out of order. */
  lemma SheetLayout(df: Frame)
    ensures RowsInOrder(HeaderPuts(SheetName) + SheetBody(df).puts)
    ensures SheetBody(df).charts == []
  {
    var table := FrameTable(df);
    var cols := Columns(SheetName, df.headers, table);
    forall j: nat, row: nat | j < |df.headers|
      ensures Laid(cols(j, row), row) && cols(j, row).charts == []
    {
      PercentBlockLayout(SheetName, df.headers[j], table[j], row);
    }
    BodyLaid(cols, |df.headers|);
    HeaderAbove(SheetName, SheetBody(df));
    NoCharts(cols, |df.headers|);
  }

  /**
   * The script: the "Summary" sheet of a new workbook, its header row, then
   * every column of the first input sheet, read with its first row as the header.
   */
  method Summarize(wb: Workbook, first: InputSheet)
    requires wb.sheetNames == []
    modifies wb
    ensures wb.sheetNames == [SheetName]
    ensures wb.puts == old(wb.puts) + HeaderPuts(SheetName) + SheetBody(ReadFrame(first.grid, 0)).puts
    ensures wb.charts == old(wb.charts)
  {
    var df := ReadFrame(first.grid, 0);
    WriteHeader(wb, SheetName);
    ColumnsAreColumnsOf(SheetName, df);
    ghost var body := SheetBody(df);
    WriteColumns(wb, SheetName, df, Columns(SheetName, df.headers, FrameTable(df)));
    AppendAssociative(old(wb.puts), HeaderPuts(SheetName), body.puts);
  }

  /** The loop over df.columns, from row 1. */
  method WriteColumns(wb: Workbook, sheet: string, df: Frame, ghost cols: (nat, nat) -> Block)
    requires ColumnsOf(cols, sheet, df)
    modifies wb
    ensures wb.sheetNames == old(wb.sheetNames) && wb.charts == old(wb.charts)
    ensures wb.puts == old(wb.puts) + Body(cols, |df.headers|).puts
  {
    var row: nat := 1;
    var j := 0;
    while j < |df.headers|
      invariant 0 <= j <= |df.headers|
      invariant wb.puts == old(wb.puts) + Body(cols, j).puts && row == 1 + Body(cols, j).height
      invariant wb.sheetNames == old(wb.sheetNames) && wb.charts == old(wb.charts)
    {
      row := WriteStep(wb, sheet, df, j, row, cols, old(wb.puts));
      j := j + 1;
    }
  }

  /** One turn of the loop: column j stacked below the ones before it. */
  method WriteStep(wb: Workbook, sheet: string, df: Frame, j: nat, row: nat, ghost cols: (nat, nat) -> Block, ghost base: seq<Put>)
    returns (next: nat)
    requires j < |df.headers| && ColumnsOf(cols, sheet, df)
    requires wb.puts == base + Body(cols, j).puts && row == 1 + Body(cols, j).height
    modifies wb
    ensures wb.puts == base + Body(cols, j + 1).puts && next == 1 + Body(cols, j + 1).height
    ensures wb.sheetNames == old(wb.sheetNames) && wb.charts == old(wb.charts)
  {
    ghost var acc := Body(cols, j);
    ghost var b := cols(j, row);
    BodyStep(cols, j);
    next := WriteColumn(wb, sheet, df, j, row, cols);
    AppendAssociative(base, acc.puts, b.puts);
  }

  /** One question: the cleaned percentages, then the title, the answer rows and the spacer. */
  method WriteColumn(wb: Workbook, sheet: string, df: Frame, j: nat, row: nat, ghost cols: (nat, nat) -> Block)
    returns (next: nat)
    requires j < |df.headers| && ColumnsOf(cols, sheet, df)
    modifies wb
    ensures wb.puts == old(wb.puts) + cols(j, row).puts && next == row + cols(j, row).height
    ensures wb.sheetNames == old(wb.sheetNames) && wb.charts == old(wb.charts)
  {
    var column := Column(df, j);
    var pct := ColumnPercentages(column);
    next := WritePercentages(wb, sheet, df.headers[j], pct, row);
  }

  /** The "Empty" substitution, then the rounded percentages. */
  method ColumnPercentages(column: seq<Cell>) returns (pct: seq<Share>)
    ensures pct == Percentages(column)
  {
    var s := MapEach(column, FilledCell);
    pct := ToPercentages(ValueCounts(s));
  }

  method WritePercentages(wb: Workbook, sheet: string, header: string, pct: seq<Share>, row: nat) returns (next: nat)
    modifies wb
    ensures var b := PercentBlock(sheet, header, pct, row);
      wb.puts == old(wb.puts) + b.puts && next == row + b.height
    ensures wb.sheetNames == old(wb.sheetNames) && wb.charts == old(wb.charts)
  {
    wb.Write(sheet, row, 0, Label("Question: " + header));
    WriteAnswers(wb, sheet, row + 1, pct);
    next := row + 1 + |pct| + 1;
  }
}
