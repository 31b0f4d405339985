/**
 * summarize_df_to_excel_and_charts (summarizer.py): one summary worksheet
 * per DataFrame, with a header row and, for every column the control map
 * does not skip, a title row, then either a note or one row per answer and
 * a chart file.
 *
 * The sheet is specified by Body, a function of the DataFrame that gives
 * the cell writes, the charts and the number of rows used by the first n
 * columns; the method is proved to produce exactly that, and the layout
 * properties are lemmas about Body.
 */
module Summary {
  import opened Text
  import opened Seqs
  import opened Cells
  import opened Cleaning
  import opened Naming
  import opened Book

  // Control keywords and labels (config.py).
  const Fechada: string := "FECHADA"
  const Multipla: string := "M\U{00DA}LTIPLA"
  const Aberta: string := "ABERTA"
  const Ignorar: string := "IGNORAR"
  const OthersLabel: string := "Outros"
  const GeneralLabel: string := "Geral"
  const TopN: nat := 10
  const MultipleSeparator: char := ';'

  const ResponsesNote: string := "(no valid responses \U{2014} all blank/NA)"
  const SelectionsNote: string := "(no valid selections \U{2014} all blank/NA)"

  /** control_map.get(col, FECHADA). */
  function Keyword(controlMap: map<string, string>, header: string): string {
    if header in controlMap then controlMap[header] else Fechada
  }

  /** Columns marked IGNORAR or ABERTA get no rows. */
  predicate IsSkipped(kw: string) { kw == Ignorar || kw == Aberta }

  /** The answers counted for a column: expand_multiple for MÚLTIPLA, clean_single for anything else. */
  function Answers(kw: string, column: seq<Cell>): (r: seq<Cell>)
    ensures forall i :: 0 <= i < |r| ==> IsToken(r[i])
  {
    if kw == Multipla then
      ExpandMultipleTokens(column, MultipleSeparator);
      ExpandMultiple(column, MultipleSeparator)
    else CleanSingle(column)
  }

  function EmptyNote(kw: string): string {
    if kw == Multipla then SelectionsNote else ResponsesNote
  }

  /** value_counts, then cap_top_n_with_outros(n=10, "Outros"). */
  function Capped(answers: seq<Cell>): seq<Bin> {
    CapTopN(ValueCounts(answers), TopN, Str(OthersLabel))
  }

  /** to_percentages of the capped counts: what the chart shows. */
  function Distribution(answers: seq<Cell>): seq<Share> {
    ToPercentages(Capped(answers))
  }

  /** The order in which the rows are written: "Outros" moved to the end. */
  function WrittenOrder(pct: seq<Share>): seq<Share> {
    OthersLast(pct, Str(OthersLabel))
  }

  /** The chart file of the column at position j. */
  function ChartFile(chartsDir: string, sheetLabel: string, j: nat): string {
    PathJoin(chartsDir, SanitizeFilename(sheetLabel, 50) + "_column" + ColumnName(j) + ".jpg")
  }

  /** The chart file of every column of a sheet. */
  function ChartPaths(chartsDir: string, sheetLabel: string): nat -> string {
    (j: nat) => ChartFile(chartsDir, sheetLabel, j)
  }

  /** A pie for at most four answers, a bar chart otherwise. */
  function KindFor(pct: seq<Share>): ChartKind {
    if |pct| <= 4 then Pie else Bar
  }

  function HeaderPuts(sheet: string): seq<Put> {
    [Put(sheet, 0, 0, Label("Question / Answer")), Put(sheet, 0, 1, Label("Percentage"))]
  }

  /** The number written for a percentage p: p / 100. */
  function WrittenFraction(s: Share): real {
    s.hundredths as real / 10000.0
  }

  /** The two writes of one answer row. */
  function AnswerRow(sheet: string, row: nat, s: Share): seq<Put> {
    [Put(sheet, row, 0, Label(CellText(s.answer))), Put(sheet, row, 1, Fraction(WrittenFraction(s)))]
  }

  /** One answer row per entry, from `row` down. */
  function AnswerPuts(sheet: string, row: nat, pct: seq<Share>): (r: seq<Put>)
    ensures |r| == 2 * |pct|
  {
    if pct == [] then []
    else
      var k := |pct| - 1;
      AnswerPuts(sheet, row, pct[..k]) + AnswerRow(sheet, row + k, pct[k])
  }

  /** Entry i of the list is written on row `row + i`, as writes 2i and 2i + 1. */
  lemma {:induction false} AnswerPutsRows(sheet: string, row: nat, pct: seq<Share>)
    ensures forall i :: 0 <= i < |pct| ==> AnswerPuts(sheet, row, pct)[2 * i..2 * i + 2] == AnswerRow(sheet, row + i, pct[i])
  {
    if pct != [] {
      var k := |pct| - 1;
      var prev := AnswerPuts(sheet, row, pct[..k]);
      var r := AnswerPuts(sheet, row, pct);
      AnswerPutsRows(sheet, row, pct[..k]);
      forall i | 0 <= i < |pct|
        ensures r[2 * i..2 * i + 2] == AnswerRow(sheet, row + i, pct[i])
      {
        if i < k {
          assert r[2 * i..2 * i + 2] == prev[2 * i..2 * i + 2];
          assert pct[..k][i] == pct[i];
        }
      }
    }
  }

  /** One more entry adds its answer row below the others. */
  lemma AnswerPutsNext(sheet: string, row: nat, pct: seq<Share>, k: nat)
    requires k < |pct|
    ensures AnswerPuts(sheet, row, pct[..k + 1]) == AnswerPuts(sheet, row, pct[..k]) + AnswerRow(sheet, row + k, pct[k])
  {
    assert pct[..k + 1][..k] == pct[..k];
  }

  /** The cell writes, the charts, and the number of rows used by a stretch of the sheet. */
  datatype Block = Block(puts: seq<Put>, charts: seq<Chart>, height: nat)

  /** The rows of a column with answers, below its title: the answer rows and the chart. */
  function DistributionBlock(sheet: string, answers: seq<Cell>, path: string, row: nat): Block {
    var pct := Distribution(answers);
    var shown := WrittenOrder(pct);
    Block(AnswerPuts(sheet, row, shown), [Chart(KindFor(pct), path, pct)], |shown| + 1)
  }

  /** A column that is not skipped: its title row, then the note or the distribution. */
  function QuestionBlock(sheet: string, header: string, answers: seq<Cell>, kw: string, path: string, row: nat): Block {
    var title := Put(sheet, row, 0, Label("Question: " + header));
    if answers == [] then Block([title, Put(sheet, row + 1, 0, Label(EmptyNote(kw)))], [], 3)
    else
      var d := DistributionBlock(sheet, answers, path, row + 1);
      Block([title] + d.puts, d.charts, d.height + 1)
  }

  /** What one column adds when it starts at `row`. */
  function ColumnBlock(sheet: string, header: string, column: seq<Cell>, kw: string, path: string, row: nat): Block {
    if IsSkipped(kw) then Block([], [], 0)
    else QuestionBlock(sheet, header, Answers(kw, column), kw, path, row)
  }

  /** The column at position j of the DataFrame when it starts at `row`. */
  function ColumnAt(sheet: string, df: Frame, controlMap: map<string, string>, paths: nat -> string, j: nat, row: nat): Block
    requires j < |df.headers|
  {
    ColumnBlock(sheet, df.headers[j], Column(df, j), Keyword(controlMap, df.headers[j]), paths(j), row)
  }

  /** Every column of the DataFrame as a function of its position and first row; nothing past the last column. */
  function Columns(sheet: string, df: Frame, controlMap: map<string, string>, paths: nat -> string): (nat, nat) -> Block {
    (j: nat, row: nat) => if j < |df.headers| then ColumnAt(sheet, df, controlMap, paths, j, row) else Block([], [], 0)
  }

  /** `bottom` written below `top`. */
  function Stack(top: Block, bottom: Block): Block {
    Block(top.puts + bottom.puts, top.charts + bottom.charts, top.height + bottom.height)
  }

  /** The sheet below the header row after its first n columns, each starting on the row after the previous one. */
  function Body(cols: (nat, nat) -> Block, n: nat): Block {
    if n == 0 then Block([], [], 0)
    else
      var prev := Body(cols, n - 1);
      Stack(prev, cols(n - 1, 1 + prev.height))
  }

  /** The whole sheet below the header row. */
  function SheetBody(sheet: string, df: Frame, controlMap: map<string, string>, sheetLabel: string, chartsDir: string): Block {
    Body(Columns(sheet, df, controlMap, ChartPaths(chartsDir, sheetLabel)), |df.headers|)
  }

  /** `cols` gives the blocks of the columns of the DataFrame. */
  ghost predicate ColumnsOf(cols: (nat, nat) -> Block, sheet: string, df: Frame, controlMap: map<string, string>, paths: nat -> string) {
    forall j: nat, row: nat :: j < |df.headers| ==> cols(j, row) == ColumnAt(sheet, df, controlMap, paths, j, row)
  }

  lemma ColumnsAreColumnsOf(sheet: string, df: Frame, controlMap: map<string, string>, paths: nat -> string)
    ensures ColumnsOf(Columns(sheet, df, controlMap, paths), sheet, df, controlMap, paths)
  {
  }

  /**
   * summarize_df_to_excel_and_charts: a fresh worksheet name, the header
   * row, then every column in order.
   */
  method SummarizeSheet(wb: Workbook, df: Frame, sheetLabel: string, controlMap: map<string, string>, chartsDir: string)
    returns (name: string)
    modifies wb
    ensures name !in old(wb.sheetNames)
    ensures BaseSheetName(sheetLabel) !in old(wb.sheetNames) ==> name == BaseSheetName(sheetLabel)
    ensures ChosenSheetName(sheetLabel, SetOf(old(wb.sheetNames)), name)
    ensures wb.sheetNames == old(wb.sheetNames) + [name]
    ensures var b := SheetBody(name, df, controlMap, sheetLabel, chartsDir);
      wb.puts == old(wb.puts) + HeaderPuts(name) + b.puts && wb.charts == old(wb.charts) + b.charts
  {
    assert wb.SheetSet() == SetOf(wb.sheetNames);
    name := SanitizeSheetName(sheetLabel, wb.SheetSet());
    WriteHeader(wb, name);
    ghost var body := SheetBody(name, df, controlMap, sheetLabel, chartsDir);
    ColumnsAreColumnsOf(name, df, controlMap, ChartPaths(chartsDir, sheetLabel));
    WriteColumns(wb, name, df, controlMap, sheetLabel, chartsDir, Columns(name, df, controlMap, ChartPaths(chartsDir, sheetLabel)));
    AppendAssociative(old(wb.puts), HeaderPuts(name), body.puts);
  }

  /** The new worksheet and its header row. */
  method WriteHeader(wb: Workbook, name: string)
    requires name !in wb.sheetNames
    modifies wb
    ensures wb.sheetNames == old(wb.sheetNames) + [name]
    ensures wb.puts == old(wb.puts) + HeaderPuts(name) && wb.charts == old(wb.charts)
  {
    wb.AddWorksheet(name);
    wb.Write(name, 0, 0, Label("Question / Answer"));
    wb.Write(name, 0, 1, Label("Percentage"));
  }

  /** The loop over df.columns, from row 1. */
  method WriteColumns(wb: Workbook, name: string, df: Frame, controlMap: map<string, string>, sheetLabel: string, chartsDir: string,
                      ghost cols: (nat, nat) -> Block)
    requires ColumnsOf(cols, name, df, controlMap, ChartPaths(chartsDir, sheetLabel))
    modifies wb
    ensures wb.sheetNames == old(wb.sheetNames)
    ensures var b := Body(cols, |df.headers|);
      wb.puts == old(wb.puts) + b.puts && wb.charts == old(wb.charts) + b.charts
  {
    var row: nat := 1;
    var j := 0;
    while j < |df.headers|
      invariant 0 <= j <= |df.headers|
      invariant wb.puts == old(wb.puts) + Body(cols, j).puts && row == 1 + Body(cols, j).height
      invariant wb.charts == old(wb.charts) + Body(cols, j).charts
      invariant wb.sheetNames == old(wb.sheetNames)
    {
      row := WriteStep(wb, name, df, controlMap, j, sheetLabel, chartsDir, row, cols, old(wb.puts), old(wb.charts));
      j := j + 1;
    }
  }

  /** One turn of the loop: column j stacked below the ones before it. */
  method WriteStep(wb: Workbook, name: string, df: Frame, controlMap: map<string, string>, j: nat, sheetLabel: string, chartsDir: string,
                   row: nat, ghost cols: (nat, nat) -> Block, ghost base: seq<Put>, ghost chartBase: seq<Chart>)
    returns (next: nat)
    requires j < |df.headers| && ColumnsOf(cols, name, df, controlMap, ChartPaths(chartsDir, sheetLabel))
    requires wb.puts == base + Body(cols, j).puts && row == 1 + Body(cols, j).height
    requires wb.charts == chartBase + Body(cols, j).charts
    modifies wb
    ensures wb.puts == base + Body(cols, j + 1).puts && next == 1 + Body(cols, j + 1).height
    ensures wb.charts == chartBase + Body(cols, j + 1).charts
    ensures wb.sheetNames == old(wb.sheetNames)
  {
    ghost var b := cols(j, row);
    assert b == ColumnAt(name, df, controlMap, ChartPaths(chartsDir, sheetLabel), j, row);
    BodyAppend(cols, j, row, base, chartBase, b);
    next := WriteColumn(wb, name, df, controlMap, j, sheetLabel, chartsDir, row);
  }

  /** What the loop has written after column j: the writes of the columns before it, then those of column j. */
  lemma BodyAppend(cols: (nat, nat) -> Block, j: nat, row: nat, base: seq<Put>, chartBase: seq<Chart>, b: Block)
    requires row == 1 + Body(cols, j).height && b == cols(j, row)
    ensures base + Body(cols, j).puts + b.puts == base + Body(cols, j + 1).puts
    ensures chartBase + Body(cols, j).charts + b.charts == chartBase + Body(cols, j + 1).charts
    ensures row + b.height == 1 + Body(cols, j + 1).height
  {
    BodyStep(cols, j);
    AppendAssociative(base, Body(cols, j).puts, b.puts);
    AppendAssociative(chartBase, Body(cols, j).charts, b.charts);
  }

  /** One more column is the block of that column stacked below the previous ones. */
  lemma BodyStep(cols: (nat, nat) -> Block, j: nat)
    ensures Body(cols, j + 1) == Stack(Body(cols, j), cols(j, 1 + Body(cols, j).height))
  {
  }

  /** The body of the column loop for the column at position j, starting at `row`. */
  method WriteColumn(wb: Workbook, name: string, df: Frame, controlMap: map<string, string>, j: nat, sheetLabel: string, chartsDir: string, row: nat)
    returns (next: nat)
    requires j < |df.headers|
    modifies wb
    ensures var b := ColumnAt(name, df, controlMap, ChartPaths(chartsDir, sheetLabel), j, row);
      wb.puts == old(wb.puts) + b.puts && wb.charts == old(wb.charts) + b.charts && next == row + b.height
    ensures wb.sheetNames == old(wb.sheetNames)
  {
    var kw := Keyword(controlMap, df.headers[j]);
    if kw == Ignorar || kw == Aberta {
      next := row;
      assert wb.puts == old(wb.puts) + [] && wb.charts == old(wb.charts) + [];
      return;
    }
    var answers := CollectAnswers(kw, Column(df, j));
    next := WriteQuestion(wb, name, df.headers[j], answers, kw, j, sheetLabel, chartsDir, row);
  }

  /** The title row, then the note when no answer is left, or the distribution. */
  method WriteQuestion(wb: Workbook, name: string, header: string, answers: seq<Cell>, kw: string, j: nat, sheetLabel: string, chartsDir: string, row: nat)
    returns (next: nat)
    modifies wb
    ensures var b := QuestionBlock(name, header, answers, kw, ChartPaths(chartsDir, sheetLabel)(j), row);
      wb.puts == old(wb.puts) + b.puts && wb.charts == old(wb.charts) + b.charts && next == row + b.height
    ensures wb.sheetNames == old(wb.sheetNames)
  {
    wb.Write(name, row, 0, Label("Question: " + header));
    if |answers| == 0 {
      wb.Write(name, row + 1, 0, Label(EmptyNote(kw)));
      next := row + 3;
    } else {
      ghost var d := DistributionBlock(name, answers, ChartPaths(chartsDir, sheetLabel)(j), row + 1);
      next := WriteDistribution(wb, name, answers, j, sheetLabel, chartsDir, row + 1);
      AppendAssociative(old(wb.puts), [Put(name, row, 0, Label("Question: " + header))], d.puts);
    }
  }

  /** The three-way branch on the keyword: FECHADA, MÚLTIPLA, anything else. */
  method CollectAnswers(kw: string, column: seq<Cell>) returns (answers: seq<Cell>)
    ensures answers == Answers(kw, column)
  {
    if kw == Fechada {
      answers := CleanSingle(column);
    } else if kw == Multipla {
      answers := ExpandMultiple(column, MultipleSeparator);
    } else {
      answers := CleanSingle(column);
    }
  }

  /** Percentages, answer rows, chart, and the spacer row of a column with answers. */
  method WriteDistribution(wb: Workbook, name: string, answers: seq<Cell>, j: nat, sheetLabel: string, chartsDir: string, row: nat)
    returns (next: nat)
    modifies wb
    ensures var d := DistributionBlock(name, answers, ChartPaths(chartsDir, sheetLabel)(j), row);
      wb.puts == old(wb.puts) + d.puts && wb.charts == old(wb.charts) + d.charts && next == row + d.height
    ensures wb.sheetNames == old(wb.sheetNames)
  {
    var capped := CapTopN(ValueCounts(answers), TopN, Str(OthersLabel));
    var pct := ToPercentages(capped);
    var shown := OthersLast(pct, Str(OthersLabel));
    WriteAnswers(wb, name, row, shown);
    next := row + |shown|;
    SaveColumnChart(wb, pct, j, sheetLabel, chartsDir);
    next := next + 1;
  }

  /** The chart of a column: a pie for at most four answers, a bar chart otherwise, saved under the column's letter. */
  method SaveColumnChart(wb: Workbook, pct: seq<Share>, j: nat, sheetLabel: string, chartsDir: string)
    modifies wb
    ensures wb.charts == old(wb.charts) + [Chart(KindFor(pct), ChartPaths(chartsDir, sheetLabel)(j), pct)]
    ensures wb.puts == old(wb.puts) && wb.sheetNames == old(wb.sheetNames)
  {
    var letter := ColnumToExcel(j);
    var chartPath := PathJoin(chartsDir, SanitizeFilename(sheetLabel, 50) + "_column" + letter + ".jpg");
    if |pct| <= 4 {
      wb.SaveChart(Chart(Pie, chartPath, pct));
    } else {
      wb.SaveChart(Chart(Bar, chartPath, pct));
    }
  }

  /** The loop over pct_excel.items(): one answer row per entry. */
  method WriteAnswers(wb: Workbook, name: string, row: nat, shown: seq<Share>)
    modifies wb
    ensures wb.puts == old(wb.puts) + AnswerPuts(name, row, shown)
    ensures wb.charts == old(wb.charts) && wb.sheetNames == old(wb.sheetNames)
  {
    var r := row;
    var k := 0;
    while k < |shown|
      invariant 0 <= k <= |shown| && r == row + k
      invariant wb.puts == old(wb.puts) + AnswerPuts(name, row, shown[..k])
      invariant wb.charts == old(wb.charts) && wb.sheetNames == old(wb.sheetNames)
    {
      WriteAnswerRow(wb, name, r, shown[k]);
      AnswerPutsNext(name, row, shown, k);
      AppendAssociative(old(wb.puts), AnswerPuts(name, row, shown[..k]), AnswerRow(name, r, shown[k]));
      r := r + 1;
      k := k + 1;
    }
    assert shown[..k] == shown;
  }

  /** One row of the loop: the answer's text in column A, its percentage / 100 in column B. */
  method WriteAnswerRow(wb: Workbook, name: string, r: nat, s: Share)
    modifies wb
    ensures wb.puts == old(wb.puts) + AnswerRow(name, r, s)
    ensures wb.charts == old(wb.charts) && wb.sheetNames == old(wb.sheetNames)
  {
    wb.Write(name, r, 0, Label(CellText(s.answer)));
    wb.Write(name, r, 1, Fraction(WrittenFraction(s)));
  }
}
