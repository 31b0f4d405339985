/**
 * The output workbook as the scripts use it through xlsxwriter: worksheets
 * added by name, cell writes appended to a log, and the chart files saved
 * beside it. Formats, column widths and the chart pictures themselves are
 * not modelled.
 */
module Book {
  import opened Cleaning

  /** What a cell write puts in a cell: a string, or a number (a percentage as a fraction of 1). */
  datatype Value = Label(s: string) | Fraction(x: real)

  /** One ws.write(row, col, value) on the worksheet named `sheet`. */
  datatype Put = Put(sheet: string, row: nat, col: nat, value: Value)

  datatype ChartKind = Pie | Bar

  /** One saved chart: its kind, its file path and the percentages it shows. */
  datatype Chart = Chart(kind: ChartKind, path: string, data: seq<Share>)

  class Workbook {
    /** Worksheet names in the order they were added (writer.sheets). */
    var sheetNames: seq<string>
    /** Every cell write, in order. */
    var puts: seq<Put>
    /** Every chart file saved, in order. */
    var charts: seq<Chart>

    constructor()
      ensures sheetNames == [] && puts == [] && charts == []
    {
      sheetNames := [];
      puts := [];
      charts := [];
    }

    /** set(writer.sheets.keys()). */
    function SheetSet(): (r: set<string>)
      reads this
      ensures forall n :: n in r <==> n in sheetNames
    {
      set n | n in sheetNames
    }

    /** workbook.add_worksheet(name); a name already in use is refused. */
    method AddWorksheet(name: string)
      requires name !in sheetNames
      modifies this
      ensures sheetNames == old(sheetNames) + [name]
      ensures puts == old(puts) && charts == old(charts)
    {
      sheetNames := sheetNames + [name];
    }

    /** ws.write / ws.write_number. */
    method Write(sheet: string, row: nat, col: nat, v: Value)
      modifies this
      ensures puts == old(puts) + [Put(sheet, row, col, v)]
      ensures sheetNames == old(sheetNames) && charts == old(charts)
    {
      puts := puts + [Put(sheet, row, col, v)];
    }

    /** save_pie_jpg / save_bar_jpg. */
    method SaveChart(c: Chart)
      modifies this
      ensures charts == old(charts) + [c]
      ensures sheetNames == old(sheetNames) && puts == old(puts)
    {
      charts := charts + [c];
    }
  }
}
