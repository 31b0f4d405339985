/**
 * The 2025-09-20v3 script: one "Summary_<sheet>" worksheet for every sheet
 * of the input workbook, steered by the control row of one sheet. The
 * control sheet is "respostas_validas" when the workbook has one and its
 * first sheet otherwise; its first row holds the keywords and its second
 * row the column names, so it is read with header=1 and every other sheet
 * with header=0. IGNORAR and ABERTA columns are skipped; MÚLTIPLA columns
 * are split on ";"; anything else is a single choice. Each question gets
 * its percentages over the answers left (no top-N cap), written as
 * fractions of 1, and a pie chart named after the sheet and the column
 * letter.
 */
module ControlledSheets {
  import opened Seqs
  import opened Cells
  import opened Cleaning
  import opened Naming
  import opened Book
  import opened Summary
  import opened SummaryLayout
  import opened ScriptCommon
  import Pipeline

  // ---------------------------------------------------------------------
  // The control sheet and the control map
  // ---------------------------------------------------------------------

  /** The position of the first sheet called `name`, if any. */
  function SheetIndex(input: seq<InputSheet>, name: string): (r: Option<nat>)
    ensures r.None? <==> forall i :: 0 <= i < |input| ==> input[i].name != name
    ensures r.Some? ==> r.value < |input| && input[r.value].name == name
    ensures r.Some? ==> forall i :: 0 <= i < r.value ==> input[i].name != name
  {
    if input == [] then None
    else if input[0].name == name then Some(0)
    else match SheetIndex(input[1..], name)
      case None => None
      case Some(k) => Some(k + 1)
  }

  /** control_sheet: the sheet named respostas_validas when there is one, otherwise the first sheet. */
  function ControlIndex(input: seq<InputSheet>): (k: nat)
    requires input != []
    ensures k < |input|
    ensures (exists i :: 0 <= i < |input| && input[i].name == Pipeline.ControlSheetName) ==>
      input[k].name == Pipeline.ControlSheetName
    ensures (forall i :: 0 <= i < |input| ==> input[i].name != Pipeline.ControlSheetName) ==> k == 0
  {
    match SheetIndex(input, Pipeline.ControlSheetName)
    case None => 0
    case Some(k) => k
  }

  /** ctrl_row: the first row of the sheet read with header=None and nrows=1. */
  function ControlRow(grid: seq<seq<Cell>>): seq<Cell> {
    if grid == [] then [] else grid[0]
  }

  /** control_map: the column names of the second row of the control sheet, each mapped to the keyword above it. */
  function ControlMap(input: seq<InputSheet>): map<string, string>
    requires input != []
  {
    var grid := input[ControlIndex(input)].grid;
    Pipeline.ControlMapOf(ReadFrame(grid, 1).headers, ControlRow(grid))
  }

  /**
   * A column is steered by the keyword above the last column of the same
   * name in the control sheet; a name the control sheet does not have is a
   * closed question.
   */
  lemma KeywordOfColumn(input: seq<InputSheet>, header: string)
    requires input != []
    ensures var grid := input[ControlIndex(input)].grid;
      var names := ReadFrame(grid, 1).headers;
      header !in names ==> Keyword(ControlMap(input), header) == Fechada
    ensures var grid := input[ControlIndex(input)].grid;
      var names := ReadFrame(grid, 1).headers;
      forall i :: 0 <= i < |names| && names[i] == header && (forall k :: i < k < |names| ==> names[k] != header) ==>
        Keyword(ControlMap(input), header) == Pipeline.ControlKeyword(ControlRow(grid), i)
  {
    var grid := input[ControlIndex(input)].grid;
    var names := ReadFrame(grid, 1).headers;
    Pipeline.ControlMapKeys(names, ControlRow(grid));
    forall i | 0 <= i < |names| && names[i] == header && (forall k :: i < k < |names| ==> names[k] != header)
      ensures Keyword(ControlMap(input), header) == Pipeline.ControlKeyword(ControlRow(grid), i)
    {
      Pipeline.ControlMapLast(names, ControlRow(grid), i);
    }
  }

  /** The header row of a sheet: the second row for the control sheet, the first for any other. */
  function HeaderRow(raw: string, control: string): nat {
    if raw == control then 1 else 0
  }

  /** The DataFrame of input sheet k. */
  function FrameOf(input: seq<InputSheet>, k: nat): Frame
    requires k < |input|
  {
    ReadFrame(input[k].grid, HeaderRow(input[k].name, input[ControlIndex(input)].name))
  }

  /**
   * The keyword row of the control sheet is never read as an answer: the
   * control sheet's data starts on its third row, every other sheet's on
   * its second.
   */
  lemma ControlRowSkipped(input: seq<InputSheet>, k: nat)
    requires k < |input|
    ensures input[k].name == input[ControlIndex(input)].name && 2 <= |input[k].grid| ==>
      FrameOf(input, k).rows == input[k].grid[2..] && FrameOf(input, k).headers == HeaderNames(input[k].grid[1])
    ensures input[k].name != input[ControlIndex(input)].name && 1 <= |input[k].grid| ==>
      FrameOf(input, k).rows == input[k].grid[1..] && FrameOf(input, k).headers == HeaderNames(input[k].grid[0])
  {
  }

  // ---------------------------------------------------------------------
  // One question
  // ---------------------------------------------------------------------

  /** to_percentages(counts): the shares of value_counts() over all the answers, with no cap. */
  function Percentages(answers: seq<Cell>): seq<Share> {
    ToPercentages(ValueCounts(answers))
  }

  /**
   * The percentages are empty exactly when no answer is left; otherwise
   * they list every distinct answer once, by decreasing percentage, each
   * the rounded share of its count over the number of answers.
   */
  lemma PercentagesOfAnswers(answers: seq<Cell>)
    ensures Percentages(answers) == [] <==> answers == []
    ensures NonIncreasing(Percentages(answers), ShareKey)
    ensures DistinctBy(Percentages(answers), ShareLabel)
    ensures answers != [] ==>
      multiset(Percentages(answers)) == multiset(Shares(ValueCounts(answers), |answers|))
  {
    ValueCountsShape(answers);
    ToPercentagesDistinct(ValueCounts(answers));
  }

  /** Every answer listed in the percentages is one of the answers counted. */
  lemma PercentagesFromAnswers(answers: seq<Cell>)
    ensures forall i :: 0 <= i < |Percentages(answers)| ==> Percentages(answers)[i].answer in answers
  {
    var pct := Percentages(answers);
    var vc := ValueCounts(answers);
    ValueCountsMembers(answers);
    forall i | 0 <= i < |pct|
      ensures pct[i].answer in answers
    {
      assert pct[i] in multiset(pct);
      var m := ShareFromCount(vc, Total(vc), pct[i]);
    }
  }

  /** An entry of the shares comes from one of the counts, with its answer. */
  lemma ShareFromCount(counts: seq<Bin>, total: nat, s: Share) returns (m: nat)
    requires total > 0 && s in multiset(Shares(counts, total))
    ensures m < |counts| && counts[m].answer == s.answer
  {
    var sh := Shares(counts, total);
    m :| 0 <= m < |sh| && sh[m] == s;
  }

  /** A closed question has no answers left exactly when every cell of its column is blank. */
  lemma ClosedQuestionEmpty(kw: string, column: seq<Cell>)
    requires kw != Multipla
    ensures Answers(kw, column) == [] <==> forall i :: 0 <= i < |column| ==> IsBlank(column[i])
  {
    CleanSingleEmptyIffAllBlank(column);
  }

  /**
   * A question that is not skipped, given its percentages: its title, then
   * either the note and a blank row, or one row per percentage, a blank
   * row, and a pie of the percentages.
   */
  function QuestionOf(sheet: string, header: string, kw: string, pct: seq<Share>, path: string, row: nat): Block {
    var title := TitlePut(sheet, row, header);
    if pct == [] then Block([title, Put(sheet, row + 1, 0, Label(EmptyNote(kw)))], [], 3)
    else Tabulated(title, AnswerPuts(sheet, row + 1, pct), |pct|, [Chart(Pie, path, pct)])
  }

  /** The column at position j when it starts on `row`. */
  function ColumnOf(sheet: string, raw: string, df: Frame, controlMap: map<string, string>, j: nat, row: nat): Block
    requires j < |df.headers|
  {
    var kw := Keyword(controlMap, df.headers[j]);
    if IsSkipped(kw) then Block([], [], 0)
    else QuestionOf(sheet, df.headers[j], kw, Percentages(Answers(kw, Column(df, j))), ChartFile(ChartsFolder, raw, j), row)
  }

  /**
   * A question keeps to its rows, top to bottom, with a blank last row:
   * three rows and no chart when no answer is left, otherwise one row per
   * distinct answer plus two and exactly one pie.
   */
  lemma QuestionLayout(sheet: string, header: string, kw: string, pct: seq<Share>, path: string, row: nat)
    ensures var b := QuestionOf(sheet, header, kw, pct, path, row);
      Laid(b, row) && BlankLast(b, row)
    ensures var b := QuestionOf(sheet, header, kw, pct, path, row);
      pct == [] ==>
        b.height == 3 && b.charts == [] && b.puts == [TitlePut(sheet, row, header), Put(sheet, row + 1, 0, Label(EmptyNote(kw)))]
    ensures var b := QuestionOf(sheet, header, kw, pct, path, row);
      pct != [] ==> b.height == |pct| + 2 && |b.puts| == 1 + 2 * |pct| && b.charts == [Chart(Pie, path, pct)]
  {
    if pct == [] {
      NoteLaid(TitlePut(sheet, row, header), Put(sheet, row + 1, 0, Label(EmptyNote(kw))), row);
    } else {
      AnswersTabulated(sheet, header, pct, [Chart(Pie, path, pct)], row);
    }
  }

  /**
   * A skipped column writes nothing; any other is the question of its
   * answers, with its pie saved under the column's letter.
   */
  lemma ColumnLayout(sheet: string, raw: string, df: Frame, controlMap: map<string, string>, j: nat, row: nat)
    requires j < |df.headers|
    ensures var b := ColumnOf(sheet, raw, df, controlMap, j, row);
      IsSkipped(Keyword(controlMap, df.headers[j])) <==> b == Block([], [], 0)
    ensures var b := ColumnOf(sheet, raw, df, controlMap, j, row);
      Laid(b, row) && BlankLast(b, row)
    ensures var b := ColumnOf(sheet, raw, df, controlMap, j, row);
      forall c :: c in b.charts ==> c == Chart(Pie, ChartFile(ChartsFolder, raw, j), c.data)
  {
    var kw := Keyword(controlMap, df.headers[j]);
    if !IsSkipped(kw) {
      QuestionLayout(sheet, df.headers[j], kw, Percentages(Answers(kw, Column(df, j))), ChartFile(ChartsFolder, raw, j), row);
    }
  }

  // ---------------------------------------------------------------------
  // One summary sheet
  // ---------------------------------------------------------------------

  /** Every column as a function of its position and first row; nothing past the last column. */
  function Columns(sheet: string, raw: string, df: Frame, controlMap: map<string, string>): (nat, nat) -> Block {
    (j: nat, row: nat) => if j < |df.headers| then ColumnOf(sheet, raw, df, controlMap, j, row) else Block([], [], 0)
  }

  ghost predicate ColumnsOf(cols: (nat, nat) -> Block, sheet: string, raw: string, df: Frame, controlMap: map<string, string>) {
    forall j: nat, row: nat :: j < |df.headers| ==> cols(j, row) == ColumnOf(sheet, raw, df, controlMap, j, row)
  }

  lemma ColumnsAreColumnsOf(sheet: string, raw: string, df: Frame, controlMap: map<string, string>)
    ensures ColumnsOf(Columns(sheet, raw, df, controlMap), sheet, raw, df, controlMap)
  {
  }

  function SheetBody(name: string, raw: string, df: Frame, controlMap: map<string, string>): Block {
    Body(Columns(name, raw, df, controlMap), |df.headers|)
  }

  function SheetOf(name: string, raw: string, df: Frame, controlMap: map<string, string>): Block {
    WithHeader(name, SheetBody(name, raw, df, controlMap))
  }

  /** The header on row 0, then every question below the one before it; every chart saved is a pie. */
  lemma SheetLayout(name: string, raw: string, df: Frame, controlMap: map<string, string>)
    ensures RowsInOrder(SheetOf(name, raw, df, controlMap).puts)
    ensures forall c :: c in SheetOf(name, raw, df, controlMap).charts ==> c.kind == Pie
  {
    var cols := Columns(name, raw, df, controlMap);
    forall j: nat, row: nat | j < |df.headers|
      ensures Laid(cols(j, row), row) && forall c :: c in cols(j, row).charts ==> c.kind == Pie
    {
      ColumnLayout(name, raw, df, controlMap, j, row);
    }
    BodyLaid(cols, |df.headers|);
    HeaderAbove(name, SheetBody(name, raw, df, controlMap));
    OnlyPies(cols, |df.headers|);
  }

  // ---------------------------------------------------------------------
  // The workbook
  // ---------------------------------------------------------------------

  /** The summary sheet of input sheet k under the name `name`. */
  function InputSheets(input: seq<InputSheet>): (nat, string) -> Block
    requires input != []
  {
    (k: nat, name: string) =>
      if k < |input| then SheetOf(name, input[k].name, FrameOf(input, k), ControlMap(input)) else Block([], [], 0)
  }

  ghost predicate SheetsOf(sheets: (nat, string) -> Block, input: seq<InputSheet>)
    requires input != []
  {
    forall k: nat, name: string :: k < |input| ==>
      sheets(k, name) == SheetOf(name, input[k].name, FrameOf(input, k), ControlMap(input))
  }

  lemma InputSheetsAreOf(input: seq<InputSheet>)
    requires input != []
    ensures SheetsOf(InputSheets(input), input)
  {
  }

  /**
   * The script: pick the control sheet, build the control map from it, then
   * for every input sheet in order a new worksheet under a fresh "Summary_"
   * name holding the summary of that sheet, and the pie charts of its
   * questions.
   */
  method SummarizeWorkbook(wb: Workbook, input: seq<InputSheet>)
    requires input != [] && wb.sheetNames == []
    modifies wb
    ensures SummaryNames(wb.sheetNames, input)
    ensures wb.puts == old(wb.puts) + Pipeline.Sheets(InputSheets(input), wb.sheetNames).puts
    ensures wb.charts == old(wb.charts) + Pipeline.Sheets(InputSheets(input), wb.sheetNames).charts
  {
    var control := input[ControlIndex(input)];
    var controlMap := Pipeline.BuildControlMap(ReadFrame(control.grid, 1).headers, ControlRow(control.grid));
    ghost var sheets := InputSheets(input);
    InputSheetsAreOf(input);
    var used: set<string> := {};
    var k := 0;
    while k < |input|
      invariant 0 <= k <= |input|
      invariant SummaryNames(wb.sheetNames, input[..k])
      invariant forall n :: n in used <==> n in wb.sheetNames
      invariant wb.puts == old(wb.puts) + Pipeline.Sheets(sheets, wb.sheetNames).puts
      invariant wb.charts == old(wb.charts) + Pipeline.Sheets(sheets, wb.sheetNames).charts
    {
      used := SummarizeStep(wb, input, k, control.name, controlMap, used, sheets, old(wb.puts), old(wb.charts));
      k := k + 1;
    }
    assert input[..k] == input;
  }

  /** One turn of the loop over the input sheets: read the sheet with the right header row, then summarize it. */
  method SummarizeStep(wb: Workbook, input: seq<InputSheet>, k: nat, control: string, controlMap: map<string, string>,
                       used: set<string>, ghost sheets: (nat, string) -> Block, ghost base: seq<Put>, ghost chartBase: seq<Chart>)
    returns (used': set<string>)
    requires k < |input| && SheetsOf(sheets, input)
    requires control == input[ControlIndex(input)].name && controlMap == ControlMap(input)
    requires SummaryNames(wb.sheetNames, input[..k]) && forall n :: n in used <==> n in wb.sheetNames
    requires wb.puts == base + Pipeline.Sheets(sheets, wb.sheetNames).puts
    requires wb.charts == chartBase + Pipeline.Sheets(sheets, wb.sheetNames).charts
    modifies wb
    ensures SummaryNames(wb.sheetNames, input[..k + 1]) && forall n :: n in used' <==> n in wb.sheetNames
    ensures wb.puts == base + Pipeline.Sheets(sheets, wb.sheetNames).puts
    ensures wb.charts == chartBase + Pipeline.Sheets(sheets, wb.sheetNames).charts
  {
    ghost var names := wb.sheetNames;
    var h := if input[k].name == control then 1 else 0;
    var df := ReadFrame(input[k].grid, h);
    assert df == FrameOf(input, k);
    var name := SummarizeSheet(wb, input[k].name, df, controlMap, used);
    SummaryNamesStep(names, input, k, name);
    Pipeline.SheetsStep(sheets, names, name);
    AppendAssociative(base, Pipeline.Sheets(sheets, names).puts, sheets(k, name).puts);
    AppendAssociative(chartBase, Pipeline.Sheets(sheets, names).charts, sheets(k, name).charts);
    used' := used + {name};
  }

  /** The summary sheet of the input sheet `raw`: a fresh name, the header row, every column. */
  method SummarizeSheet(wb: Workbook, raw: string, df: Frame, controlMap: map<string, string>, used: set<string>)
    returns (name: string)
    requires forall n :: n in used <==> n in wb.sheetNames
    modifies wb
    ensures name !in old(wb.sheetNames) && wb.sheetNames == old(wb.sheetNames) + [name]
    ensures ChosenSheetName(SummaryLabel(raw), SetOf(old(wb.sheetNames)), name)
    ensures wb.puts == old(wb.puts) + SheetOf(name, raw, df, controlMap).puts
    ensures wb.charts == old(wb.charts) + SheetOf(name, raw, df, controlMap).charts
  {
    assert used == SetOf(wb.sheetNames);
    name := SanitizeSheetName(SummaryLabel(raw), used);
    WriteHeader(wb, name);
    ColumnsAreColumnsOf(name, raw, df, controlMap);
    WriteColumns(wb, name, raw, df, controlMap, Columns(name, raw, df, controlMap));
    AppendAssociative(old(wb.puts), HeaderPuts(name), SheetBody(name, raw, df, controlMap).puts);
  }

  /** The loop over df.columns, from row 1. */
  method WriteColumns(wb: Workbook, sheet: string, raw: string, df: Frame, controlMap: map<string, string>,
                      ghost cols: (nat, nat) -> Block)
    requires ColumnsOf(cols, sheet, raw, df, controlMap)
    modifies wb
    ensures wb.sheetNames == old(wb.sheetNames)
    ensures wb.puts == old(wb.puts) + Body(cols, |df.headers|).puts
    ensures wb.charts == old(wb.charts) + Body(cols, |df.headers|).charts
  {
    var row: nat := 1;
    var j := 0;
    while j < |df.headers|
      invariant 0 <= j <= |df.headers|
      invariant wb.puts == old(wb.puts) + Body(cols, j).puts && row == 1 + Body(cols, j).height
      invariant wb.charts == old(wb.charts) + Body(cols, j).charts
      invariant wb.sheetNames == old(wb.sheetNames)
    {
      row := WriteStep(wb, sheet, raw, df, controlMap, j, row, cols, old(wb.puts), old(wb.charts));
      j := j + 1;
    }
  }

  /** One turn of the loop: column j stacked below the ones before it. */
  method WriteStep(wb: Workbook, sheet: string, raw: string, df: Frame, controlMap: map<string, string>, j: nat, row: nat,
                   ghost cols: (nat, nat) -> Block, ghost base: seq<Put>, ghost chartBase: seq<Chart>)
    returns (next: nat)
    requires j < |df.headers| && ColumnsOf(cols, sheet, raw, df, controlMap)
    requires wb.puts == base + Body(cols, j).puts && row == 1 + Body(cols, j).height
    requires wb.charts == chartBase + Body(cols, j).charts
    modifies wb
    ensures wb.puts == base + Body(cols, j + 1).puts && next == 1 + Body(cols, j + 1).height
    ensures wb.charts == chartBase + Body(cols, j + 1).charts
    ensures wb.sheetNames == old(wb.sheetNames)
  {
    ghost var b := cols(j, row);
    assert b == ColumnOf(sheet, raw, df, controlMap, j, row);
    BodyAppend(cols, j, row, base, chartBase, b);
    next := WriteColumn(wb, sheet, raw, df, controlMap, j, row);
  }

  /** The body of the loop for column j: skip it, or write its title and then the note or the percentages. */
  method WriteColumn(wb: Workbook, sheet: string, raw: string, df: Frame, controlMap: map<string, string>, j: nat, row: nat)
    returns (next: nat)
    requires j < |df.headers|
    modifies wb
    ensures var b := ColumnOf(sheet, raw, df, controlMap, j, row);
      wb.puts == old(wb.puts) + b.puts && wb.charts == old(wb.charts) + b.charts && next == row + b.height
    ensures wb.sheetNames == old(wb.sheetNames)
  {
    var kw := Keyword(controlMap, df.headers[j]);
    if kw == Ignorar || kw == Aberta {
      next := row;
      assert wb.puts == old(wb.puts) + [] && wb.charts == old(wb.charts) + [];
      return;
    }
    var answers := CollectAnswers(kw, Column(df, j));
    var path := ChartPath(raw, j);
    next := WriteQuestion(wb, sheet, df.headers[j], kw, answers, path, row);
  }

  /** os.path.join(CHARTS_DIR, f"{sanitize_filename(raw_name, 50)}_column{colnum_to_excel(j)}.jpg"). */
  method ChartPath(raw: string, j: nat) returns (path: string)
    ensures path == ChartFile(ChartsFolder, raw, j)
  {
    var letter := ColnumToExcel(j);
    path := PathJoin(ChartsFolder, SanitizeFilename(raw, 50) + "_column" + letter + ".jpg");
  }

  /** The title row, then the note and two rows down, or the answer rows, the pie and the spacer row. */
  method WriteQuestion(wb: Workbook, sheet: string, header: string, kw: string, answers: seq<Cell>, path: string, row: nat)
    returns (next: nat)
    modifies wb
    ensures var b := QuestionOf(sheet, header, kw, Percentages(answers), path, row);
      wb.puts == old(wb.puts) + b.puts && wb.charts == old(wb.charts) + b.charts && next == row + b.height
    ensures wb.sheetNames == old(wb.sheetNames)
  {
    PercentagesOfAnswers(answers);
    if |answers| == 0 {
      next := WriteNote(wb, sheet, header, kw, path, row);
    } else {
      var pct := ToPercentages(ValueCounts(answers));
      next := WritePercentages(wb, sheet, header, kw, pct, path, row);
    }
  }

  /** The title, the note, and two rows down. */
  method WriteNote(wb: Workbook, sheet: string, header: string, kw: string, path: string, row: nat) returns (next: nat)
    modifies wb
    ensures var b := QuestionOf(sheet, header, kw, [], path, row);
      wb.puts == old(wb.puts) + b.puts && wb.charts == old(wb.charts) + b.charts && next == row + b.height
    ensures wb.sheetNames == old(wb.sheetNames)
  {
    wb.Write(sheet, row, 0, Label("Question: " + header));
    wb.Write(sheet, row + 1, 0, Label(EmptyNote(kw)));
    next := row + 3;
  }

  /** The title, the loop over pct.items(), the pie, and the spacer row. */
  method WritePercentages(wb: Workbook, sheet: string, header: string, kw: string, pct: seq<Share>, path: string, row: nat)
    returns (next: nat)
    requires pct != []
    modifies wb
    ensures var b := QuestionOf(sheet, header, kw, pct, path, row);
      wb.puts == old(wb.puts) + b.puts && wb.charts == old(wb.charts) + b.charts && next == row + b.height
    ensures wb.sheetNames == old(wb.sheetNames)
  {
    wb.Write(sheet, row, 0, Label("Question: " + header));
    WriteAnswers(wb, sheet, row + 1, pct);
    wb.SaveChart(Chart(Pie, path, pct));
    next := row + 1 + |pct| + 1;
  }
}
