/**
 * The 2025-09-20v2 script: one "Summary_<sheet>" worksheet for every sheet
 * of the input workbook, in order. Blank cells are dropped rather than
 * counted: a column left without answers gets a note, any other column its
 * percentages over the remaining answers (rounded to two decimals, by
 * decreasing percentage, written as fractions of 1) and a pie chart file
 * named after the sheet and the column. There is no control row.
 */
module AllColumnSheets {
  import opened Seqs
  import opened Cells
  import opened Cleaning
  import opened Naming
  import opened Book
  import opened Summary
  import opened SummaryLayout
  import opened ScriptCommon
  import Pipeline

  /**
   * clean_series(df[col]).dropna(), then
   * (value_counts(normalize=True) * 100).round(2).sort_values(ascending=False).
   */
  function Percentages(column: seq<Cell>): seq<Share> {
    ToPercentages(ValueCounts(CleanSingle(column)))
  }

  /** os.path.join(CHARTS_DIR, f"{sanitize_filename(raw, 50)}_{sanitize_filename(col, 70)}.jpg"). */
  function ChartPath(raw: string, header: string): string {
    PathJoin(ChartsFolder, SanitizeFilename(raw, 50) + "_" + SanitizeFilename(header, 70) + ".jpg")
  }

  /**
   * A question: its title, then either the note and a blank row, or one row
   * per percentage, a blank row and a pie of the percentages.
   */
  function QuestionOf(sheet: string, header: string, pct: seq<Share>, path: string, row: nat): Block {
    var title := TitlePut(sheet, row, header);
    if pct == [] then Block([title, Put(sheet, row + 1, 0, Label(ResponsesNote))], [], 3)
    else Tabulated(title, AnswerPuts(sheet, row + 1, pct), |pct|, [Chart(Pie, path, pct)])
  }

  /**
   * Only the answers left after dropping the blank cells count: the
   * percentages are empty exactly when every cell is blank, and otherwise are
   * the rounded shares of the counts over the number of answers, one entry per
   * distinct answer, by decreasing percentage.
   */
  lemma PercentagesOverAnswers(column: seq<Cell>)
    ensures Percentages(column) == [] <==> forall i :: 0 <= i < |column| ==> IsBlank(column[i])
    ensures NonIncreasing(Percentages(column), ShareKey)
    ensures DistinctBy(Percentages(column), ShareLabel)
    ensures CleanSingle(column) != [] ==>
      multiset(Percentages(column)) == multiset(Shares(ValueCounts(CleanSingle(column)), |CleanSingle(column)|))
  {
    ValueCountsFacts(CleanSingle(column));
    ToPercentagesDistinct(ValueCounts(CleanSingle(column)));
    CleanSingleEmptyIffAllBlank(column);
  }

  /**
   * A question keeps to its rows, top to bottom, with a blank last row: three
   * rows and no chart for the note, otherwise |pct| + 2 rows and one pie.
   */
  lemma QuestionLayout(sheet: string, header: string, pct: seq<Share>, path: string, row: nat)
    ensures var b := QuestionOf(sheet, header, pct, path, row);
      Laid(b, row) && BlankLast(b, row)
    ensures var b := QuestionOf(sheet, header, pct, path, row);
      pct == [] ==> (b.height == 3 && b.charts == [] &&
                     b.puts == [TitlePut(sheet, row, header), Put(sheet, row + 1, 0, Label(ResponsesNote))])
    ensures var b := QuestionOf(sheet, header, pct, path, row);
      pct != [] ==> b.height == |pct| + 2 && |b.puts| == 1 + 2 * |pct| && b.charts == [Chart(Pie, path, pct)]
  {
    if pct == [] {
      NoteLaid(TitlePut(sheet, row, header), Put(sheet, row + 1, 0, Label(ResponsesNote)), row);
    } else {
      AnswersTabulated(sheet, header, pct, [Chart(Pie, path, pct)], row);
    }
  }

  // ---------------------------------------------------------------------
  // One summary sheet
  // ---------------------------------------------------------------------

  /** The percentages of every column, column by column. */
  function PercentTable(columns: seq<seq<Cell>>): (t: seq<seq<Share>>)
    ensures |t| == |columns|
  {
    if columns == [] then [] else PercentTable(columns[..|columns| - 1]) + [Percentages(columns[|columns| - 1])]
  }

  lemma {:induction false} PercentTableAt(columns: seq<seq<Cell>>, j: nat)
    requires j < |columns|
    ensures PercentTable(columns)[j] == Percentages(columns[j])
  {
    if j < |columns| - 1 {
      PercentTableAt(columns[..|columns| - 1], j);
    }
  }

  function FrameTable(df: Frame): seq<seq<Share>> {
    PercentTable(ColumnList(df, |df.headers|))
  }

  /** Question j below its predecessors, given the table of percentages. */
  function Columns(sheet: string, raw: string, headers: seq<string>, table: seq<seq<Share>>): (nat, nat) -> Block {
    (j: nat, row: nat) =>
      if j < |headers| && j < |table| then QuestionOf(sheet, headers[j], table[j], ChartPath(raw, headers[j]), row)
      else Block([], [], 0)
  }

  /** What the loop writes for column j starting on `row`: the question of that column. */
  ghost predicate ColumnsOf(cols: (nat, nat) -> Block, sheet: string, raw: string, df: Frame) {
    forall j: nat, row: nat :: j < |df.headers| ==>
      cols(j, row) == QuestionOf(sheet, df.headers[j], Percentages(Column(df, j)), ChartPath(raw, df.headers[j]), row)
  }

  lemma ColumnsAreColumnsOf(sheet: string, raw: string, df: Frame)
    ensures ColumnsOf(Columns(sheet, raw, df.headers, FrameTable(df)), sheet, raw, df)
  {
    forall j: nat | j < |df.headers|
      ensures FrameTable(df)[j] == Percentages(Column(df, j))
    {
      ColumnListAt(df, |df.headers|, j);
      PercentTableAt(ColumnList(df, |df.headers|), j);
    }
  }

  /** Everything below the header row of the summary sheet `name` of the input sheet `raw`. */
  function SheetBody(name: string, raw: string, df: Frame): Block {
    Body(Columns(name, raw, df.headers, FrameTable(df)), |df.headers|)
  }

  function SheetOf(name: string, raw: string, df: Frame): Block {
    WithHeader(name, SheetBody(name, raw, df))
  }

  /** One column's block is laid out in its rows and charts only pies. */
  lemma ColumnsLayout(sheet: string, raw: string, headers: seq<string>, table: seq<seq<Share>>, j: nat, row: nat)
    ensures var b := Columns(sheet, raw, headers, table)(j, row);
      Laid(b, row) && forall c :: c in b.charts ==> c.kind == Pie
  {
    if j < |headers| && j < |table| {
      QuestionLayout(sheet, headers[j], table[j], ChartPath(raw, headers[j]), row);
    }
  }

  /** The header on row 0, then every question below the one before it; every chart saved is a pie. */
  lemma SheetLayout(name: string, raw: string, df: Frame)
    ensures RowsInOrder(SheetOf(name, raw, df).puts)
    ensures forall c :: c in SheetOf(name, raw, df).charts ==> c.kind == Pie
  {
    var table := FrameTable(df);
    var cols := Columns(name, raw, df.headers, table);
    forall j: nat, row: nat | j < |df.headers|
      ensures Laid(cols(j, row), row) && forall c :: c in cols(j, row).charts ==> c.kind == Pie
    {
      ColumnsLayout(name, raw, df.headers, table, j, row);
    }
    BodyLaid(cols, |df.headers|);
    HeaderAbove(name, SheetBody(name, raw, df));
    OnlyPies(cols, |df.headers|);
  }

  // ---------------------------------------------------------------------
  // The workbook
  // ---------------------------------------------------------------------

  /** The summary sheet of input sheet k under the name `name`. */
  function InputSheets(input: seq<InputSheet>): (nat, string) -> Block {
    (k: nat, name: string) =>
      if k < |input| then SheetOf(name, input[k].name, ReadFrame(input[k].grid, 0)) else Block([], [], 0)
  }

  ghost predicate SheetsOf(sheets: (nat, string) -> Block, input: seq<InputSheet>) {
    forall k: nat, name: string :: k < |input| ==>
      sheets(k, name) == SheetOf(name, input[k].name, ReadFrame(input[k].grid, 0))
  }

  lemma InputSheetsAreOf(input: seq<InputSheet>)
    ensures SheetsOf(InputSheets(input), input)
  {
  }

  /**
   * The script: for every input sheet in order, a new worksheet under a
   * fresh "Summary_" name holding the summary of that sheet (read with its
   * first row as the header), and the pie charts of its questions.
   */
  method SummarizeWorkbook(wb: Workbook, input: seq<InputSheet>)
    requires wb.sheetNames == []
    modifies wb
    ensures SummaryNames(wb.sheetNames, input)
    ensures wb.puts == old(wb.puts) + Pipeline.Sheets(InputSheets(input), wb.sheetNames).puts
    ensures wb.charts == old(wb.charts) + Pipeline.Sheets(InputSheets(input), wb.sheetNames).charts
  {
    ghost var sheets := InputSheets(input);
    InputSheetsAreOf(input);
    var used: set<string> := {};
    var k := 0;
    while k < |input|
      invariant 0 <= k <= |input|
      invariant SummaryNames(wb.sheetNames, input[..k])
      invariant forall n :: n in used <==> n in wb.sheetNames
      invariant wb.puts == old(wb.puts) + Pipeline.Sheets(sheets, wb.sheetNames).puts
      invariant wb.charts == old(wb.charts) + Pipeline.Sheets(sheets, wb.sheetNames).charts
    {
      used := SummarizeStep(wb, input, k, used, sheets, old(wb.puts), old(wb.charts));
      k := k + 1;
    }
    assert input[..k] == input;
  }

  /** One turn of the loop over the input sheets. */
  method SummarizeStep(wb: Workbook, input: seq<InputSheet>, k: nat, used: set<string>,
                       ghost sheets: (nat, string) -> Block, ghost base: seq<Put>, ghost chartBase: seq<Chart>)
    returns (used': set<string>)
    requires k < |input| && SheetsOf(sheets, input)
    requires SummaryNames(wb.sheetNames, input[..k]) && forall n :: n in used <==> n in wb.sheetNames
    requires wb.puts == base + Pipeline.Sheets(sheets, wb.sheetNames).puts
    requires wb.charts == chartBase + Pipeline.Sheets(sheets, wb.sheetNames).charts
    modifies wb
    ensures SummaryNames(wb.sheetNames, input[..k + 1]) && forall n :: n in used' <==> n in wb.sheetNames
    ensures wb.puts == base + Pipeline.Sheets(sheets, wb.sheetNames).puts
    ensures wb.charts == chartBase + Pipeline.Sheets(sheets, wb.sheetNames).charts
  {
    ghost var names := wb.sheetNames;
    var name := SummarizeSheet(wb, input[k].name, ReadFrame(input[k].grid, 0), used);
    SummaryNamesStep(names, input, k, name);
    Pipeline.SheetsStep(sheets, names, name);
    AppendAssociative(base, Pipeline.Sheets(sheets, names).puts, sheets(k, name).puts);
    AppendAssociative(chartBase, Pipeline.Sheets(sheets, names).charts, sheets(k, name).charts);
    used' := used + {name};
  }

  /** The summary sheet of the input sheet `raw`: a fresh name, the header row, every column. */
  method SummarizeSheet(wb: Workbook, raw: string, df: Frame, used: set<string>) returns (name: string)
    requires forall n :: n in used <==> n in wb.sheetNames
    modifies wb
    ensures name !in old(wb.sheetNames) && wb.sheetNames == old(wb.sheetNames) + [name]
    ensures ChosenSheetName(SummaryLabel(raw), SetOf(old(wb.sheetNames)), name)
    ensures wb.puts == old(wb.puts) + SheetOf(name, raw, df).puts
    ensures wb.charts == old(wb.charts) + SheetOf(name, raw, df).charts
  {
    assert used == SetOf(wb.sheetNames);
    name := SanitizeSheetName(SummaryLabel(raw), used);
    WriteHeader(wb, name);
    ColumnsAreColumnsOf(name, raw, df);
    WriteColumns(wb, name, raw, df, Columns(name, raw, df.headers, FrameTable(df)));
    AppendAssociative(old(wb.puts), HeaderPuts(name), SheetBody(name, raw, df).puts);
  }

  /** The loop over df.columns, from row 1. */
  method WriteColumns(wb: Workbook, sheet: string, raw: string, df: Frame, ghost cols: (nat, nat) -> Block)
    requires ColumnsOf(cols, sheet, raw, df)
    modifies wb
    ensures wb.sheetNames == old(wb.sheetNames)
    ensures wb.puts == old(wb.puts) + Body(cols, |df.headers|).puts
    ensures wb.charts == old(wb.charts) + Body(cols, |df.headers|).charts
  {
    var row: nat := 1;
    var j := 0;
    while j < |df.headers|
      invariant 0 <= j <= |df.headers|
      invariant wb.puts == old(wb.puts) + Body(cols, j).puts && row == 1 + Body(cols, j).height
      invariant wb.charts == old(wb.charts) + Body(cols, j).charts
      invariant wb.sheetNames == old(wb.sheetNames)
    {
      var path := ChartPath(raw, df.headers[j]);
      row := WriteStep(wb, sheet, df, j, path, row, cols, old(wb.puts), old(wb.charts));
      j := j + 1;
    }
  }

  /** One turn of the loop: column j stacked below the ones before it. */
  method WriteStep(wb: Workbook, sheet: string, df: Frame, j: nat, path: string, row: nat, ghost cols: (nat, nat) -> Block,
                   ghost base: seq<Put>, ghost chartBase: seq<Chart>)
    returns (next: nat)
    requires j < |df.headers|
    requires cols(j, row) == QuestionOf(sheet, df.headers[j], Percentages(Column(df, j)), path, row)
    requires wb.puts == base + Body(cols, j).puts && row == 1 + Body(cols, j).height
    requires wb.charts == chartBase + Body(cols, j).charts
    modifies wb
    ensures wb.puts == base + Body(cols, j + 1).puts && next == 1 + Body(cols, j + 1).height
    ensures wb.charts == chartBase + Body(cols, j + 1).charts
    ensures wb.sheetNames == old(wb.sheetNames)
  {
    ghost var b := cols(j, row);
    BodyAppend(cols, j, row, base, chartBase, b);
    next := WriteColumn(wb, sheet, df, j, path, row, b);
  }

  /** One question: clean the column, then the note or the percentages and the pie. */
  method WriteColumn(wb: Workbook, sheet: string, df: Frame, j: nat, path: string, row: nat, ghost b: Block)
    returns (next: nat)
    requires j < |df.headers|
    requires b == QuestionOf(sheet, df.headers[j], Percentages(Column(df, j)), path, row)
    modifies wb
    ensures wb.puts == old(wb.puts) + b.puts && next == row + b.height
    ensures wb.charts == old(wb.charts) + b.charts
    ensures wb.sheetNames == old(wb.sheetNames)
  {
    var s := CleanSingle(Column(df, j));
    next := WriteQuestion(wb, sheet, df.headers[j], s, path, row);
  }

  /** The body of the loop over df.columns for one column, given its cleaned answers. */
  method WriteQuestion(wb: Workbook, sheet: string, header: string, s: seq<Cell>, path: string, row: nat) returns (next: nat)
    modifies wb
    ensures var b := QuestionOf(sheet, header, ToPercentages(ValueCounts(s)), path, row);
      wb.puts == old(wb.puts) + b.puts && wb.charts == old(wb.charts) + b.charts && next == row + b.height
    ensures wb.sheetNames == old(wb.sheetNames)
  {
    PercentagesEmpty(s);
    if |s| == 0 {
      next := WriteNote(wb, sheet, header, path, row);
    } else {
      var pct := ToPercentages(ValueCounts(s));
      next := WritePercentages(wb, sheet, header, pct, path, row);
    }
  }

  /** No answers are left exactly when there are no percentages. */
  lemma PercentagesEmpty(s: seq<Cell>)
    ensures ToPercentages(ValueCounts(s)) == [] <==> s == []
  {
    ValueCountsFacts(s);
  }

  /** The title, the note, and two rows down. */
  method WriteNote(wb: Workbook, sheet: string, header: string, path: string, row: nat) returns (next: nat)
    modifies wb
    ensures var b := QuestionOf(sheet, header, [], path, row);
      wb.puts == old(wb.puts) + b.puts && wb.charts == old(wb.charts) + b.charts && next == row + b.height
    ensures wb.sheetNames == old(wb.sheetNames)
  {
    wb.Write(sheet, row, 0, Label("Question: " + header));
    wb.Write(sheet, row + 1, 0, Label(ResponsesNote));
    next := row + 3;
  }

  /** The title, the loop over percentages.items(), the pie, and the spacer row. */
  method WritePercentages(wb: Workbook, sheet: string, header: string, pct: seq<Share>, path: string, row: nat) returns (next: nat)
    requires pct != []
    modifies wb
    ensures var b := QuestionOf(sheet, header, pct, path, row);
      wb.puts == old(wb.puts) + b.puts && wb.charts == old(wb.charts) + b.charts && next == row + b.height
    ensures wb.sheetNames == old(wb.sheetNames)
  {
    wb.Write(sheet, row, 0, Label("Question: " + header));
    WriteAnswers(wb, sheet, row + 1, pct);
    wb.SaveChart(Chart(Pie, path, pct));
    next := row + 1 + |pct| + 1;
  }
}
