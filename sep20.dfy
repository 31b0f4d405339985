/**
 * The 2025-09-20 script: one "Summary_<sheet>" worksheet for every sheet of
 * the input workbook, in order. Every column is tabulated over all its
 * rows, with blank cells counted as the answer "Empty"; each answer is
 * written with its exact share of the rows (value_counts(normalize=True)),
 * as is, by decreasing share. There is no control row and no chart.
 */
module ShareSheets {
  import opened Seqs
  import opened Cells
  import opened Cleaning
  import opened Naming
  import opened Book
  import opened Summary
  import opened SummaryLayout
  import opened ScriptCommon
  import Pipeline

  /** One entry of value_counts(normalize=True): an answer and its share of the rows. */
  datatype Portion = Portion(answer: Cell, fraction: real)

  function PortionKey(p: Portion): real { p.fraction }

  function PortionLabel(p: Portion): Cell { p.answer }

  /** Every count divided by the number of rows. */
  function Fractions(bins: seq<Bin>, total: nat): (r: seq<Portion>)
    requires total > 0
    ensures |r| == |bins|
  {
    if bins == [] then []
    else [Portion(bins[0].answer, bins[0].count as real / total as real)] + Fractions(bins[1..], total)
  }

  /**
   * value_counts(dropna=False, normalize=True) of the filled column, then
   * sort_values(ascending=False); an empty column has no entries.
   */
  function Portions(column: seq<Cell>): seq<Portion> {
    if column == [] then [] else SortDesc(Fractions(ValueCounts(FillEmpty(column)), |column|), PortionKey)
  }

  /** The sum of the shares. */
  function FractionSum(ps: seq<Portion>): real {
    if ps == [] then 0.0 else ps[0].fraction + FractionSum(ps[1..])
  }

  lemma {:induction false} FractionsAt(bins: seq<Bin>, total: nat, i: nat)
    requires total > 0 && i < |bins|
    ensures Fractions(bins, total)[i] == Portion(bins[i].answer, bins[i].count as real / total as real)
  {
    if i > 0 {
      FractionsAt(bins[1..], total, i - 1);
    }
  }

  lemma DivMonotone(a: real, b: real, t: real)
    requires t > 0.0 && a >= b
    ensures a / t >= b / t
  {
    assert (a / t) * t == a && (b / t) * t == b;
  }

  /** The shares of a list of counts add up to their total over the number of rows. */
  lemma {:induction false} FractionsSum(bins: seq<Bin>, total: nat)
    requires total > 0
    ensures FractionSum(Fractions(bins, total)) == Total(bins) as real / total as real
  {
    if bins != [] {
      FractionsSum(bins[1..], total);
      assert Total(bins) == bins[0].count + Total(bins[1..]);
      DivAdd(bins[0].count as real, Total(bins[1..]) as real, total as real);
    }
  }

  /** Dividing by the same positive number keeps the order of the counts. */
  lemma FractionsNonIncreasing(bins: seq<Bin>, total: nat)
    requires total > 0 && NonIncreasing(bins, BinKey)
    ensures NonIncreasing(Fractions(bins, total), PortionKey)
  {
    var f := Fractions(bins, total);
    forall i, j | 0 <= i < j < |f|
      ensures PortionKey(f[i]) >= PortionKey(f[j])
    {
      FractionsAt(bins, total, i);
      FractionsAt(bins, total, j);
      DivMonotone(bins[i].count as real, bins[j].count as real, total as real);
    }
  }

  lemma {:induction false} MultiplicityAtMost<T>(s: seq<T>, x: T)
    ensures multiset(s)[x] <= |s|
  {
    if s != [] {
      MultiplicityAtMost(s[1..], x);
      assert s == [s[0]] + s[1..];
    }
  }

  /** value_counts(normalize=True) comes out already sorted, so sort_values leaves it as it is. */
  lemma PortionsAreFractions(column: seq<Cell>)
    requires column != []
    ensures Portions(column) == Fractions(ValueCounts(FillEmpty(column)), |column|)
  {
    var tokens := FillEmpty(column);
    ValueCountsFacts(tokens);
    FractionsNonIncreasing(ValueCounts(tokens), |column|);
    SortDescOfSorted(Fractions(ValueCounts(tokens), |column|), PortionKey);
  }

  /** Distinct answers stay distinct. */
  lemma FractionsDistinct(bins: seq<Bin>, total: nat)
    requires total > 0 && DistinctLabels(bins)
    ensures DistinctBy(Fractions(bins, total), PortionLabel)
  {
    var f := Fractions(bins, total);
    forall i, j | 0 <= i < j < |f|
      ensures PortionLabel(f[i]) != PortionLabel(f[j])
    {
      FractionsAt(bins, total, i);
      FractionsAt(bins, total, j);
    }
  }

  /** A count between 1 and the number of rows gives a share above 0 and at most 1. */
  lemma FractionBounds(count: nat, total: nat)
    requires 1 <= count <= total
    ensures 0.0 < count as real / total as real <= 1.0
  {
    DivMonotone(count as real, 0.0, total as real);
    DivMonotone(total as real, count as real, total as real);
  }

  /** The shares of the counts of n answers: one per distinct answer, adding up to 1. */
  lemma FractionsOfCounts(tokens: seq<Cell>)
    requires tokens != []
    ensures var f := Fractions(ValueCounts(tokens), |tokens|);
      NonIncreasing(f, PortionKey) && DistinctBy(f, PortionLabel) && FractionSum(f) == 1.0
  {
    var n := |tokens|;
    var bins := ValueCounts(tokens);
    ValueCountsFacts(tokens);
    FractionsNonIncreasing(bins, n);
    FractionsDistinct(bins, n);
    FractionsSum(bins, n);
    DivSelf(n as real);
  }

  /** Entry i of the counts of n answers becomes that answer's multiplicity over n. */
  lemma FractionOfCount(tokens: seq<Cell>, i: nat)
    requires tokens != [] && i < |ValueCounts(tokens)|
    ensures var f := Fractions(ValueCounts(tokens), |tokens|);
      0.0 < f[i].fraction <= 1.0 && f[i].fraction == multiset(tokens)[f[i].answer] as real / |tokens| as real
  {
    var bins := ValueCounts(tokens);
    ValueCountsFacts(tokens);
    FractionsAt(bins, |tokens|, i);
    CountOfDistinct(bins, i);
    MultiplicityAtMost(tokens, bins[i].answer);
    FractionBounds(bins[i].count, |tokens|);
  }

  /** Each share is the number of answers equal to its label over n: above 0 and at most 1. */
  lemma FractionsOfCountsEntries(tokens: seq<Cell>)
    requires tokens != []
    ensures var f := Fractions(ValueCounts(tokens), |tokens|);
      forall i :: 0 <= i < |f| ==>
        0.0 < f[i].fraction <= 1.0 && f[i].fraction == multiset(tokens)[f[i].answer] as real / |tokens| as real
  {
    forall i | 0 <= i < |Fractions(ValueCounts(tokens), |tokens|)|
      ensures var f := Fractions(ValueCounts(tokens), |tokens|);
        0.0 < f[i].fraction <= 1.0 && f[i].fraction == multiset(tokens)[f[i].answer] as real / |tokens| as real
    {
      FractionOfCount(tokens, i);
    }
  }

  /**
   * Every row is counted, "Empty" included: a column with rows gets one
   * entry per distinct answer, each the number of rows holding that answer
   * over the number of rows, so above 0 and at most 1, by decreasing share,
   * and the shares add up to exactly 1.
   */
  lemma PortionsShape(column: seq<Cell>)
    ensures Portions(column) == [] <==> column == []
    ensures NonIncreasing(Portions(column), PortionKey)
    ensures DistinctBy(Portions(column), PortionLabel)
    ensures column != [] ==> FractionSum(Portions(column)) == 1.0
    ensures forall i :: 0 <= i < |Portions(column)| ==>
      0.0 < Portions(column)[i].fraction <= 1.0 &&
      Portions(column)[i].fraction == multiset(FillEmpty(column))[Portions(column)[i].answer] as real / |column| as real
  {
    if column != [] {
      PortionsAreFractions(column);
      FractionsOfCounts(FillEmpty(column));
      FractionsOfCountsEntries(FillEmpty(column));
    }
  }

  // ---------------------------------------------------------------------
  // The rows of a question
  // ---------------------------------------------------------------------

  /** One answer row: str(answer) in column A, float(pct) as it is in column B. */
  function PortionRow(sheet: string, row: nat, p: Portion): seq<Put> {
    [Put(sheet, row, 0, Label(CellText(p.answer))), Put(sheet, row, 1, Fraction(p.fraction))]
  }

  /** One answer row per entry, from `row` down. */
  function PortionPuts(sheet: string, row: nat, ps: seq<Portion>): (r: seq<Put>)
    ensures |r| == 2 * |ps|
  {
    if ps == [] then []
    else
      var k := |ps| - 1;
      PortionPuts(sheet, row, ps[..k]) + PortionRow(sheet, row + k, ps[k])
  }

  /** Entry i is written on row `row + i`, as writes 2i and 2i + 1. */
  lemma {:induction false} PortionPutsRows(sheet: string, row: nat, ps: seq<Portion>)
    ensures forall i :: 0 <= i < |ps| ==> PortionPuts(sheet, row, ps)[2 * i..2 * i + 2] == PortionRow(sheet, row + i, ps[i])
  {
    if ps != [] {
      var k := |ps| - 1;
      var prev := PortionPuts(sheet, row, ps[..k]);
      var r := PortionPuts(sheet, row, ps);
      PortionPutsRows(sheet, row, ps[..k]);
      forall i | 0 <= i < |ps|
        ensures r[2 * i..2 * i + 2] == PortionRow(sheet, row + i, ps[i])
      {
        if i < k {
          assert r[2 * i..2 * i + 2] == prev[2 * i..2 * i + 2];
          assert ps[..k][i] == ps[i];
        }
      }
    }
  }

  /** The answer rows take one row each, in the order of the list. */
  lemma PortionPutsLaid(sheet: string, row: nat, ps: seq<Portion>)
    ensures RowsWithin(PortionPuts(sheet, row, ps), row, row + |ps|)
    ensures RowsInOrder(PortionPuts(sheet, row, ps))
  {
    var r := PortionPuts(sheet, row, ps);
    forall w | 0 <= w < |r|
      ensures r[w].row == row + w / 2
    {
      PortionPutsAt(sheet, row, ps, w);
    }
  }

  lemma PortionPutsAt(sheet: string, row: nat, ps: seq<Portion>, w: nat)
    requires w < 2 * |ps|
    ensures PortionPuts(sheet, row, ps)[w] == PortionRow(sheet, row + w / 2, ps[w / 2])[w % 2]
  {
    var i := w / 2;
    PortionPutsRows(sheet, row, ps);
    assert PortionPuts(sheet, row, ps)[2 * i..2 * i + 2] == PortionRow(sheet, row + i, ps[i]);
    assert PortionPuts(sheet, row, ps)[w] == PortionPuts(sheet, row, ps)[2 * i..2 * i + 2][w % 2];
  }

  lemma PortionPutsNext(sheet: string, row: nat, ps: seq<Portion>, k: nat)
    requires k < |ps|
    ensures PortionPuts(sheet, row, ps[..k + 1]) == PortionPuts(sheet, row, ps[..k]) + PortionRow(sheet, row + k, ps[k])
  {
    assert ps[..k + 1][..k] == ps[..k];
  }

  /** A question: its title, one row per entry, a spacer row. */
  function PortionBlock(sheet: string, header: string, ps: seq<Portion>, row: nat): Block {
    Tabulated(TitlePut(sheet, row, header), PortionPuts(sheet, row + 1, ps), |ps|, [])
  }

  /** A question keeps to its title row, one row per entry and a blank spacer row, top to bottom. */
  lemma PortionBlockLayout(sheet: string, header: string, ps: seq<Portion>, row: nat)
    ensures var b := PortionBlock(sheet, header, ps, row);
      Laid(b, row) && BlankLast(b, row) && b.height == |ps| + 2 && b.charts == []
  {
    PortionPutsLaid(sheet, row + 1, ps);
    TabulatedLaid(TitlePut(sheet, row, header), PortionPuts(sheet, row + 1, ps), |ps|, [], row);
  }

  /** The title first, then entry k on the k-th row below it, its share written as it is. */
  lemma PortionBlockRows(sheet: string, header: string, ps: seq<Portion>, row: nat)
    ensures var b := PortionBlock(sheet, header, ps, row);
      |b.puts| == 1 + 2 * |ps| && b.puts[0] == TitlePut(sheet, row, header) &&
      forall k :: 0 <= k < |ps| ==>
        b.puts[1 + 2 * k] == Put(sheet, row + 1 + k, 0, Label(CellText(ps[k].answer))) &&
        b.puts[2 + 2 * k] == Put(sheet, row + 1 + k, 1, Fraction(ps[k].fraction))
  {
    PortionPutsRows(sheet, row + 1, ps);
    var b := PortionBlock(sheet, header, ps, row);
    var r := PortionPuts(sheet, row + 1, ps);
    forall k | 0 <= k < |ps|
      ensures b.puts[1 + 2 * k] == Put(sheet, row + 1 + k, 0, Label(CellText(ps[k].answer)))
      ensures b.puts[2 + 2 * k] == Put(sheet, row + 1 + k, 1, Fraction(ps[k].fraction))
    {
      assert b.puts[1 + 2 * k] == r[2 * k] == r[2 * k..2 * k + 2][0];
      assert b.puts[2 + 2 * k] == r[2 * k + 1] == r[2 * k..2 * k + 2][1];
    }
  }

  // ---------------------------------------------------------------------
  // One summary sheet
  // ---------------------------------------------------------------------

  /** The shares of every column, column by column. */
  function PortionTable(columns: seq<seq<Cell>>): (t: seq<seq<Portion>>)
    ensures |t| == |columns|
  {
    if columns == [] then [] else PortionTable(columns[..|columns| - 1]) + [Portions(columns[|columns| - 1])]
  }

  lemma {:induction false} PortionTableAt(columns: seq<seq<Cell>>, j: nat)
    requires j < |columns|
    ensures PortionTable(columns)[j] == Portions(columns[j])
  {
    if j < |columns| - 1 {
      PortionTableAt(columns[..|columns| - 1], j);
    }
  }

  function FrameTable(df: Frame): seq<seq<Portion>> {
    PortionTable(ColumnList(df, |df.headers|))
  }

  /** Question j below its predecessors, given the table of shares. */
  function Columns(sheet: string, headers: seq<string>, table: seq<seq<Portion>>): (nat, nat) -> Block {
    (j: nat, row: nat) =>
      if j < |headers| && j < |table| then PortionBlock(sheet, headers[j], table[j], row) else Block([], [], 0)
  }

  /** What the loop writes for column j starting on `row`: the question of that column. */
  ghost predicate ColumnsOf(cols: (nat, nat) -> Block, sheet: string, df: Frame) {
    forall j: nat, row: nat :: j < |df.headers| ==> cols(j, row) == PortionBlock(sheet, df.headers[j], Portions(Column(df, j)), row)
  }

  lemma ColumnsAreColumnsOf(sheet: string, df: Frame)
    ensures ColumnsOf(Columns(sheet, df.headers, FrameTable(df)), sheet, df)
  {
    forall j: nat | j < |df.headers|
      ensures FrameTable(df)[j] == Portions(Column(df, j))
    {
      ColumnListAt(df, |df.headers|, j);
      PortionTableAt(ColumnList(df, |df.headers|), j);
    }
  }

  /** Everything below the header row of the summary sheet named `name`. */
  function SheetBody(name: string, df: Frame): Block {
    Body(Columns(name, df.headers, FrameTable(df)), |df.headers|)
  }

  /** The summary sheet of one input sheet. */
  function SheetOf(name: string, df: Frame): Block {
    WithHeader(name, SheetBody(name, df))
  }

  /** The header on row 0, then every question below the one before it, and no chart. */
  lemma SheetLayout(name: string, df: Frame)
    ensures RowsInOrder(SheetOf(name, df).puts)
    ensures SheetOf(name, df).charts == []
  {
    var table := FrameTable(df);
    var cols := Columns(name, df.headers, table);
    forall j: nat, row: nat | j < |df.headers|
      ensures Laid(cols(j, row), row) && cols(j, row).charts == []
    {
      PortionBlockLayout(name, df.headers[j], table[j], row);
    }
    BodyLaid(cols, |df.headers|);
    HeaderAbove(name, SheetBody(name, df));
    NoCharts(cols, |df.headers|);
  }

  // ---------------------------------------------------------------------
  // The workbook
  // ---------------------------------------------------------------------

  /** The summary sheet of input sheet k under the name `name`. */
  function InputSheets(input: seq<InputSheet>): (nat, string) -> Block {
    (k: nat, name: string) => if k < |input| then SheetOf(name, ReadFrame(input[k].grid, 0)) else Block([], [], 0)
  }

  ghost predicate SheetsOf(sheets: (nat, string) -> Block, input: seq<InputSheet>) {
    forall k: nat, name: string :: k < |input| ==> sheets(k, name) == SheetOf(name, ReadFrame(input[k].grid, 0))
  }

  lemma InputSheetsAreOf(input: seq<InputSheet>)
    ensures SheetsOf(InputSheets(input), input)
  {
  }

  /**
   * The script: for every input sheet in order, a new worksheet under a
   * fresh "Summary_" name, holding the summary of that sheet (read with its
   * first row as the header).
   */
  method SummarizeWorkbook(wb: Workbook, input: seq<InputSheet>)
    requires wb.sheetNames == []
    modifies wb
    ensures SummaryNames(wb.sheetNames, input)
    ensures wb.puts == old(wb.puts) + Pipeline.Sheets(InputSheets(input), wb.sheetNames).puts
    ensures wb.charts == old(wb.charts)
  {
    ghost var sheets := InputSheets(input);
    InputSheetsAreOf(input);
    var used: set<string> := {};
    var k := 0;
    while k < |input|
      invariant 0 <= k <= |input|
      invariant SummaryNames(wb.sheetNames, input[..k])
      invariant forall n :: n in used <==> n in wb.sheetNames
      invariant wb.puts == old(wb.puts) + Pipeline.Sheets(sheets, wb.sheetNames).puts
      invariant wb.charts == old(wb.charts)
    {
      used := SummarizeStep(wb, input, k, used, sheets, old(wb.puts));
      k := k + 1;
    }
    assert input[..k] == input;
  }

  /** One turn of the loop over the input sheets. */
  method SummarizeStep(wb: Workbook, input: seq<InputSheet>, k: nat, used: set<string>,
                       ghost sheets: (nat, string) -> Block, ghost base: seq<Put>)
    returns (used': set<string>)
    requires k < |input| && SheetsOf(sheets, input)
    requires SummaryNames(wb.sheetNames, input[..k]) && forall n :: n in used <==> n in wb.sheetNames
    requires wb.puts == base + Pipeline.Sheets(sheets, wb.sheetNames).puts
    modifies wb
    ensures SummaryNames(wb.sheetNames, input[..k + 1]) && forall n :: n in used' <==> n in wb.sheetNames
    ensures wb.puts == base + Pipeline.Sheets(sheets, wb.sheetNames).puts
    ensures wb.charts == old(wb.charts)
  {
    ghost var names := wb.sheetNames;
    var name := SummarizeSheet(wb, input[k].name, ReadFrame(input[k].grid, 0), used);
    SummaryNamesStep(names, input, k, name);
    Pipeline.SheetsStep(sheets, names, name);
    AppendAssociative(base, Pipeline.Sheets(sheets, names).puts, sheets(k, name).puts);
    used' := used + {name};
  }

  /** The summary sheet of the input sheet `raw`: a fresh name, the header row, every column. */
  method SummarizeSheet(wb: Workbook, raw: string, df: Frame, used: set<string>) returns (name: string)
    requires forall n :: n in used <==> n in wb.sheetNames
    modifies wb
    ensures name !in old(wb.sheetNames) && wb.sheetNames == old(wb.sheetNames) + [name]
    ensures ChosenSheetName(SummaryLabel(raw), SetOf(old(wb.sheetNames)), name)
    ensures wb.puts == old(wb.puts) + SheetOf(name, df).puts && wb.charts == old(wb.charts)
  {
    assert used == SetOf(wb.sheetNames);
    name := SanitizeSheetName(SummaryLabel(raw), used);
    WriteHeader(wb, name);
    ColumnsAreColumnsOf(name, df);
    WriteColumns(wb, name, df, Columns(name, df.headers, FrameTable(df)));
    AppendAssociative(old(wb.puts), HeaderPuts(name), SheetBody(name, df).puts);
  }

  /** The loop over df.columns, from row 1. */
  method WriteColumns(wb: Workbook, sheet: string, df: Frame, ghost cols: (nat, nat) -> Block)
    requires ColumnsOf(cols, sheet, df)
    modifies wb
    ensures wb.sheetNames == old(wb.sheetNames) && wb.charts == old(wb.charts)
    ensures wb.puts == old(wb.puts) + Body(cols, |df.headers|).puts
  {
    var row: nat := 1;
    var j := 0;
    while j < |df.headers|
      invariant 0 <= j <= |df.headers|
      invariant wb.puts == old(wb.puts) + Body(cols, j).puts && row == 1 + Body(cols, j).height
      invariant wb.sheetNames == old(wb.sheetNames) && wb.charts == old(wb.charts)
    {
      row := WriteStep(wb, sheet, df, j, row, cols, old(wb.puts));
      j := j + 1;
    }
  }

  /** One turn of the loop: column j stacked below the ones before it. */
  method WriteStep(wb: Workbook, sheet: string, df: Frame, j: nat, row: nat, ghost cols: (nat, nat) -> Block, ghost base: seq<Put>)
    returns (next: nat)
    requires j < |df.headers| && ColumnsOf(cols, sheet, df)
    requires wb.puts == base + Body(cols, j).puts && row == 1 + Body(cols, j).height
    modifies wb
    ensures wb.puts == base + Body(cols, j + 1).puts && next == 1 + Body(cols, j + 1).height
    ensures wb.sheetNames == old(wb.sheetNames) && wb.charts == old(wb.charts)
  {
    next := WriteColumn(wb, sheet, df, j, row, cols);
    BodyStep(cols, j);
    AppendAssociative(base, Body(cols, j).puts, cols(j, row).puts);
  }

  /** One question: the shares of column j, then its title, answer rows and spacer. */
  method WriteColumn(wb: Workbook, sheet: string, df: Frame, j: nat, row: nat, ghost cols: (nat, nat) -> Block)
    returns (next: nat)
    requires j < |df.headers| && ColumnsOf(cols, sheet, df)
    modifies wb
    ensures wb.puts == old(wb.puts) + cols(j, row).puts && next == row + cols(j, row).height
    ensures wb.sheetNames == old(wb.sheetNames) && wb.charts == old(wb.charts)
  {
    var ps := ColumnPortions(Column(df, j));
    next := WritePortions(wb, sheet, df.headers[j], ps, row);
  }

  /** The "Empty" substitution, then the shares by decreasing value. */
  method ColumnPortions(column: seq<Cell>) returns (ps: seq<Portion>)
    ensures ps == Portions(column)
  {
    var s := MapEach(column, FilledCell);
    if |s| == 0 {
      ps := [];
    } else {
      ps := SortDesc(Fractions(ValueCounts(s), |s|), PortionKey);
    }
  }

  /** The title, the loop over percentages.items(), and the spacer row. */
  method WritePortions(wb: Workbook, sheet: string, header: string, ps: seq<Portion>, row: nat) returns (next: nat)
    modifies wb
    ensures var b := PortionBlock(sheet, header, ps, row);
      wb.puts == old(wb.puts) + b.puts && next == row + b.height
    ensures wb.sheetNames == old(wb.sheetNames) && wb.charts == old(wb.charts)
  {
    wb.Write(sheet, row, 0, Label("Question: " + header));
    var r := row + 1;
    var k := 0;
    while k < |ps|
      invariant 0 <= k <= |ps| && r == row + 1 + k
      invariant wb.puts == old(wb.puts) + [TitlePut(sheet, row, header)] + PortionPuts(sheet, row + 1, ps[..k])
      invariant wb.sheetNames == old(wb.sheetNames) && wb.charts == old(wb.charts)
    {
      wb.Write(sheet, r, 0, Label(CellText(ps[k].answer)));
      wb.Write(sheet, r, 1, Fraction(ps[k].fraction));
      PortionPutsNext(sheet, row + 1, ps, k);
      r := r + 1;
      k := k + 1;
    }
    assert ps[..k] == ps;
    next := r + 1;
  }
}
