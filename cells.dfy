/**
 * A spreadsheet cell as pandas hands it over after read_excel: missing
 * (NaN/None), a string, or a number. Numbers are modelled as integers.
 */
module Cells {
  import opened Text
  import opened Seqs

  datatype Cell = Missing | Str(s: string) | Num(n: int)

  /** str(x) of a cell; a missing cell prints as "nan". */
  function CellText(c: Cell): (r: string)
    ensures c.Str? ==> r == c.s
    ensures c.Missing? ==> r == "nan"
    ensures r != [] || c.Str?
  {
    match c
    case Missing => "nan"
    case Str(s) => s
    case Num(n) => IntToString(n)
  }

  /**
   * An answer that survives cleaning: a number, or a non-empty string with no
   * surrounding whitespace.
   */
  predicate IsToken(c: Cell) {
    match c
    case Missing => false
    case Str(s) => s != [] && IsStripped(s)
    case Num(_) => true
  }

  /** A cell that cleaning throws away: missing, or a string of whitespace only. */
  predicate IsBlank(c: Cell) {
    match c
    case Missing => true
    case Str(s) => forall i :: 0 <= i < |s| ==> IsSpace(s[i])
    case Num(_) => false
  }

  function StrCell(s: string): Cell { Str(s) }

  /** A sheet read with one header row: column names and rows of cells. */
  datatype Frame = Frame(headers: seq<string>, rows: seq<seq<Cell>>)

  /** The cell of column j in a row; a short row reads as missing there. */
  function At(row: seq<Cell>, j: nat): Cell {
    if j < |row| then row[j] else Missing
  }

  /** df[col] for the column at position j. */
  function Column(df: Frame, j: nat): (r: seq<Cell>)
    ensures |r| == |df.rows|
    ensures forall i :: 0 <= i < |r| ==> r[i] == At(df.rows[i], j)
    decreases |df.rows|
  {
    if df.rows == [] then []
    else [At(df.rows[0], j)] + Column(Frame(df.headers, df.rows[1..]), j)
  }
}
