/**
 * What the dated one-off scripts (2025-09-16.py, 2025-09-20.py,
 * 2025-09-20v2.py and 2025-09-20v3.py) have in common: the input workbook
 * as a list of named sheets, the "Summary_" sheet names, the "Empty"
 * substitution, the question title row, and the shape of a tabulated
 * question (its title, one row per answer, a blank row).
 */
module ScriptCommon {
  import opened Text
  import opened Seqs
  import opened Cells
  import opened Cleaning
  import opened Naming
  import opened Book
  import opened Summary
  import opened SummaryLayout

  /** The folder the scripts save their charts in. */
  const ChartsFolder: string := "charts"

  /** One sheet of the input workbook: its name and its cells row by row, as read with header=None. */
  datatype InputSheet = InputSheet(name: string, grid: seq<seq<Cell>>)

  /** The column name pandas gives a header cell at position k: a blank one becomes "Unnamed: k". */
  function HeaderName(c: Cell, k: nat): (r: string)
    ensures r != []
    ensures c.Str? && c.s != [] ==> r == c.s
    ensures c.Missing? ==> r == "Unnamed: " + NatToString(k)
  {
    if c.Missing? then "Unnamed: " + NatToString(k) else if c.Str? && c.s == [] then "Unnamed: " + NatToString(k) else CellText(c)
  }

  /** The names of a header row, column by column. */
  function HeaderNames(row: seq<Cell>): (r: seq<string>)
    ensures |r| == |row|
    ensures forall k :: 0 <= k < |r| ==> r[k] == HeaderName(row[k], k)
  {
    seq(|row|, k requires 0 <= k < |row| => HeaderName(row[k], k))
  }

  /** Two blank header cells never give two columns the same name. */
  lemma BlankHeadersDistinct(row: seq<Cell>, i: nat, j: nat)
    requires i < |row| && j < |row| && i != j
    requires row[i].Missing? && row[j].Missing?
    ensures HeaderNames(row)[i] != HeaderNames(row)[j]
  {
    var p := "Unnamed: ";
    if HeaderNames(row)[i] == HeaderNames(row)[j] {
      assert p + NatToString(i) == p + NatToString(j);
      assert NatToString(i) == (p + NatToString(i))[|p|..];
      assert NatToString(j) == (p + NatToString(j))[|p|..];
      NatToStringInjective(i, j);
    }
  }

  /**
   * read_excel with header=h: row h names the columns and the rows below it
   * are the data. A sheet without a row h reads as an empty DataFrame here;
   * pandas does that only for a sheet with no rows, and raises ParserError
   * for a non-empty one.
   */
  function ReadFrame(grid: seq<seq<Cell>>, h: nat): (df: Frame)
    ensures h < |grid| ==> df.headers == HeaderNames(grid[h]) && df.rows == grid[h + 1..]
    ensures h >= |grid| ==> df.headers == [] && df.rows == []
  {
    if h < |grid| then Frame(HeaderNames(grid[h]), grid[h + 1..]) else Frame([], [])
  }

  /** The first n columns of the frame, in order. */
  function ColumnList(df: Frame, n: nat): (cs: seq<seq<Cell>>)
    ensures |cs| == n
  {
    if n == 0 then [] else ColumnList(df, n - 1) + [Column(df, n - 1)]
  }

  lemma {:induction false} ColumnListAt(df: Frame, n: nat, j: nat)
    requires j < n
    ensures ColumnList(df, n)[j] == Column(df, j)
  {
    if j < n - 1 {
      ColumnListAt(df, n - 1, j);
    }
  }

  /** A summary worksheet: the header row, then its body from row 1. */
  function WithHeader(name: string, body: Block): Block {
    Block(HeaderPuts(name) + body.puts, body.charts, 1 + body.height)
  }

  /** f"Summary_{raw_name}". */
  function SummaryLabel(raw: string): string { "Summary_" + raw }

  /**
   * The summary sheet names of the input sheets, in order: each is the name
   * sanitize_sheet_name gives the "Summary_" label of its sheet against the
   * names before it, so they are all distinct.
   */
  ghost predicate SummaryNames(names: seq<string>, input: seq<InputSheet>) {
    |names| == |input| && Distinct(names) &&
    forall k :: 0 <= k < |names| ==> ChosenSheetName(SummaryLabel(input[k].name), SetOf(names[..k]), names[k])
  }

  /** One more sheet, named by the rule against the ones before it. */
  lemma SummaryNamesStep(names: seq<string>, input: seq<InputSheet>, k: nat, name: string)
    requires k < |input| && SummaryNames(names, input[..k])
    requires ChosenSheetName(SummaryLabel(input[k].name), SetOf(names), name)
    ensures SummaryNames(names + [name], input[..k + 1])
  {
    var r := names + [name];
    assert r[..k] == names;
    forall i | 0 <= i < k ensures input[..k + 1][i] == input[..k][i] && r[..i] == names[..i] {
    }
  }

  // ---------------------------------------------------------------------
  // The "Empty" substitution (2025-09-16.py and 2025-09-20.py)
  // ---------------------------------------------------------------------

  const EmptyLabel: string := "Empty"

  /** A missing or whitespace-only cell becomes "Empty", a string is stripped, anything else is kept. */
  function FilledCell(c: Cell): (r: Cell)
    ensures IsToken(r)
    ensures IsBlank(c) ==> r == Str(EmptyLabel)
    ensures !IsBlank(c) ==> r == NormalizeCell(c)
  {
    assert IsToken(Str(EmptyLabel));
    match c
    case Missing => Str(EmptyLabel)
    case Str(s) =>
      StripFacts(s);
      if Strip(s) == "" then Str(EmptyLabel) else Str(Strip(s))
    case Num(_) => c
  }

  /** The lambda applied to every cell of the column. */
  function FillEmpty(column: seq<Cell>): seq<Cell> {
    Map(column, FilledCell)
  }

  predicate IsEmptyAnswer(c: Cell) { c == Str(EmptyLabel) }

  predicate IsOtherAnswer(c: Cell) { c != Str(EmptyLabel) }

  /**
   * Filling in "Empty" agrees with clean_single on every other answer, in
   * order, and the "Empty" answers are the blank cells plus the answers that
   * read "Empty" themselves.
   */
  lemma {:induction false} FillEmptyAgrees(column: seq<Cell>)
    ensures Filter(FillEmpty(column), IsOtherAnswer) == Filter(CleanSingle(column), IsOtherAnswer)
    ensures |Filter(FillEmpty(column), IsEmptyAnswer)| ==
      |Filter(column, IsBlank)| + |Filter(CleanSingle(column), IsEmptyAnswer)|
  {
    if column != [] {
      var c := column[0];
      var rest := column[1..];
      var f := FillEmpty(column);
      assert f == [FilledCell(c)] + FillEmpty(rest);
      var n := NormalizeCell(c);
      var kept := if n.Missing? then [] else [n];
      assert CleanSingle(column) == kept + CleanSingle(rest);
      FillEmptyAgrees(rest);
      FilterAppend([FilledCell(c)], FillEmpty(rest), IsOtherAnswer);
      FilterAppend([FilledCell(c)], FillEmpty(rest), IsEmptyAnswer);
      FilterAppend(kept, CleanSingle(rest), IsOtherAnswer);
      FilterAppend(kept, CleanSingle(rest), IsEmptyAnswer);
      FilterAppend([c], rest, IsBlank);
      assert column == [c] + rest;
    }
  }

  // ---------------------------------------------------------------------
  // A tabulated question
  // ---------------------------------------------------------------------

  /** f"Question: {col}" on the question's first row. */
  function TitlePut(sheet: string, row: nat, header: string): Put {
    Put(sheet, row, 0, Label("Question: " + header))
  }

  /** A question's title on its first row, `rows` rows of answers written by `answers`, then a blank row. */
  function Tabulated(title: Put, answers: seq<Put>, rows: nat, charts: seq<Chart>): Block {
    Block([title] + answers, charts, rows + 2)
  }

  /** A tabulated question keeps to its rows, top to bottom, and leaves its last row blank. */
  lemma TabulatedLaid(title: Put, answers: seq<Put>, rows: nat, charts: seq<Chart>, row: nat)
    requires title.row == row
    requires RowsWithin(answers, row + 1, row + 1 + rows) && RowsInOrder(answers)
    ensures Laid(Tabulated(title, answers, rows, charts), row)
    ensures BlankLast(Tabulated(title, answers, rows, charts), row)
  {
    var s := [title] + answers;
    forall i | 0 < i < |s|
      ensures s[i] == answers[i - 1]
    {
    }
  }

  /** The answer rows of a list of percentages, each written as p / 100, keep to one row per entry. */
  lemma AnswersTabulated(sheet: string, header: string, pct: seq<Share>, charts: seq<Chart>, row: nat)
    ensures var b := Tabulated(TitlePut(sheet, row, header), AnswerPuts(sheet, row + 1, pct), |pct|, charts);
      Laid(b, row) && BlankLast(b, row) && b.height == |pct| + 2 && |b.puts| == 1 + 2 * |pct|
  {
    AnswerPutsLaid(sheet, row + 1, pct);
    TabulatedLaid(TitlePut(sheet, row, header), AnswerPuts(sheet, row + 1, pct), |pct|, charts, row);
  }

  /** The whole sheet: the header on row 0, then the columns below it, top to bottom. */
  lemma HeaderAbove(sheet: string, body: Block)
    requires Laid(body, 1)
    ensures RowsInOrder(HeaderPuts(sheet) + body.puts)
  {
    StackLaid(Block(HeaderPuts(sheet), [], 1), body, 0);
  }

  /** Columns that save no chart leave the body without charts. */
  lemma {:induction false} NoCharts(cols: (nat, nat) -> Block, n: nat)
    requires forall j: nat, row: nat :: j < n ==> cols(j, row).charts == []
    ensures Body(cols, n).charts == []
  {
    if n > 0 {
      NoCharts(cols, n - 1);
    }
  }

  /** Columns that save only pie charts leave only pie charts in the body. */
  lemma {:induction false} OnlyPies(cols: (nat, nat) -> Block, n: nat)
    requires forall j: nat, row: nat :: j < n ==> forall c :: c in cols(j, row).charts ==> c.kind == Pie
    ensures forall c :: c in Body(cols, n).charts ==> c.kind == Pie
  {
    if n > 0 {
      OnlyPies(cols, n - 1);
    }
  }
}
