/**
 * The driver script main.py, and its copy at the end of analysis.py, which
 * differs only in the label of the overall sheet: check that the answers
 * sheet exists, build the control map from the first row of that sheet,
 * write the general summary sheet, then, when a grouping column is
 * configured, one summary sheet per group of rows.
 *
 * Reading the input file, cleaning the output folder, the report generation
 * and the ZIP packaging are not part of this model; the sheet names of the
 * input file, its control row and its DataFrame are parameters.
 */
module Pipeline {
  import opened Text
  import opened Seqs
  import opened Cells
  import opened Naming
  import opened Book
  import opened Summary

  /** The sheet of the input workbook that holds the answers. */
  const ControlSheetName: string := "respostas_validas"

  /** The label used for a group whose stripped name is empty. */
  const UnknownGroup: string := "Unknown"

  /** How a run ends: normally, with the ValueError of a missing sheet, or with the IndexError of a bad grouping column. */
  datatype Outcome = Completed | SheetNotFound(sheet: string) | GroupIndexOutOfRange(index: nat)

  // ---------------------------------------------------------------------
  // The control map
  // ---------------------------------------------------------------------

  /**
   * The keyword of column i: the cell of the control row above it, or
   * FECHADA when the row is shorter or the cell is empty, then
   * str(kw).strip().upper().
   */
  function ControlKeyword(ctrlRow: seq<Cell>, i: nat): (kw: string)
    ensures forall k :: 0 <= k < |kw| ==> !IsAsciiLower(kw[k])
  {
    var c := if i < |ctrlRow| then ctrlRow[i] else Missing;
    var v := if c.Missing? then Str(Fechada) else c;
    Upper(Strip(CellText(v)))
  }

  /** An empty or absent control cell makes the column a closed question. */
  lemma MissingKeywordIsClosed(ctrlRow: seq<Cell>, i: nat)
    requires i >= |ctrlRow| || ctrlRow[i].Missing?
    ensures ControlKeyword(ctrlRow, i) == Fechada
  {
    StripOfStripped(Fechada);
    UpperOfUpper(Fechada);
  }

  /** The keyword of every column 0..n-1. */
  function Keywords(ctrlRow: seq<Cell>, n: nat): (r: seq<string>)
    ensures |r| == n
  {
    seq(n, (i: int) requires 0 <= i < n => ControlKeyword(ctrlRow, i))
  }

  /** dict assignment key by key, in order: a repeated key keeps its last value. */
  function ZipMap<K, V>(keys: seq<K>, vals: seq<V>): map<K, V>
    requires |keys| == |vals|
  {
    if keys == [] then map[]
    else
      var n := |keys| - 1;
      ZipMap(keys[..n], vals[..n])[keys[n] := vals[n]]
  }

  /** Every key has an entry and nothing else does. */
  lemma {:induction false} ZipMapKeys<K, V>(keys: seq<K>, vals: seq<V>)
    requires |keys| == |vals|
    ensures forall k :: k in ZipMap(keys, vals) <==> k in keys
  {
    if keys != [] {
      var n := |keys| - 1;
      ZipMapKeys(keys[..n], vals[..n]);
      assert keys == keys[..n] + [keys[n]];
    }
  }

  /** The entry of a key is the value paired with its last occurrence. */
  lemma {:induction false} ZipMapLast<K, V>(keys: seq<K>, vals: seq<V>, i: nat)
    requires |keys| == |vals|
    requires i < |keys| && forall k :: i < k < |keys| ==> keys[k] != keys[i]
    ensures keys[i] in ZipMap(keys, vals) && ZipMap(keys, vals)[keys[i]] == vals[i]
  {
    var n := |keys| - 1;
    if i < n {
      assert forall k :: i < k < n ==> keys[..n][k] != keys[..n][i];
      ZipMapLast(keys[..n], vals[..n], i);
    }
  }

  /** One more assignment. */
  lemma ZipMapStep<K, V>(keys: seq<K>, vals: seq<V>, i: nat)
    requires |keys| == |vals| && i < |keys|
    ensures ZipMap(keys[..i + 1], vals[..i + 1]) == ZipMap(keys[..i], vals[..i])[keys[i] := vals[i]]
  {
    assert keys[..i + 1][..i] == keys[..i];
    assert vals[..i + 1][..i] == vals[..i];
  }

  /** control_map: each header mapped to the keyword above it, a repeated header keeping its last column's. */
  function ControlMapOf(headers: seq<string>, ctrlRow: seq<Cell>): map<string, string> {
    ZipMap(headers, Keywords(ctrlRow, |headers|))
  }

  /** Every header has an entry and nothing else does. */
  lemma ControlMapKeys(headers: seq<string>, ctrlRow: seq<Cell>)
    ensures forall h :: h in ControlMapOf(headers, ctrlRow) <==> h in headers
  {
    ZipMapKeys(headers, Keywords(ctrlRow, |headers|));
  }

  /** The entry of a header is the keyword above the last column of that name. */
  lemma ControlMapLast(headers: seq<string>, ctrlRow: seq<Cell>, i: nat)
    requires i < |headers| && forall k :: i < k < |headers| ==> headers[k] != headers[i]
    ensures headers[i] in ControlMapOf(headers, ctrlRow)
    ensures ControlMapOf(headers, ctrlRow)[headers[i]] == ControlKeyword(ctrlRow, i)
  {
    ZipMapLast(headers, Keywords(ctrlRow, |headers|), i);
  }

  /** The for loop over enumerate(control_headers). */
  method BuildControlMap(headers: seq<string>, ctrlRow: seq<Cell>) returns (controlMap: map<string, string>)
    ensures controlMap == ControlMapOf(headers, ctrlRow)
  {
    ghost var kws := Keywords(ctrlRow, |headers|);
    controlMap := map[];
    var i := 0;
    while i < |headers|
      invariant 0 <= i <= |headers|
      invariant controlMap == ZipMap(headers[..i], kws[..i])
    {
      var kw := ControlKeyword(ctrlRow, i);
      ZipMapStep(headers, kws, i);
      controlMap := controlMap[headers[i] := kw];
      i := i + 1;
    }
    assert headers[..i] == headers && kws[..i] == kws;
  }

  // ---------------------------------------------------------------------
  // Groups
  // ---------------------------------------------------------------------

  /**
   * pandas gives the grouping column the object dtype when some cell of it
   * is a string; a column of numbers and missing cells is numeric.
   */
  predicate IsObjectColumn(rows: seq<seq<Cell>>, idx: nat) {
    exists i :: 0 <= i < |rows| && At(rows[i], idx).Str?
  }

  /**
   * The group cell after the clean-up: in an object column every cell goes
   * through astype(str).str.strip(), so a missing cell becomes the text
   * "nan" and a number its decimal text; a numeric column is left as it is.
   */
  function GroupKey(c: Cell, isObject: bool): (k: Cell)
    ensures isObject ==> k.Str? && IsStripped(k.s)
    ensures isObject && c.Missing? ==> k == Str("nan")
    ensures isObject && c.Str? ==> k == Str(Strip(c.s))
    ensures !isObject ==> k == c
  {
    if !isObject then c
    else if c.Missing? then
      NanIsStripped();
      Str("nan")
    else
      StripIdempotent(CellText(c));
      Str(Strip(CellText(c)))
  }

  lemma NanIsStripped()
    ensures IsStripped("nan") && Strip("nan") == "nan"
  {
    assert !IsSpace('n');
    StripOfStripped("nan");
  }

  /** The two filters, notna() and != "": the group cell is neither missing nor the empty string. */
  predicate HasGroup(k: Cell) { !k.Missing? && k != Str("") }

  /** A row with its group cell cleaned up; the other cells read as before. */
  function RekeyRow(row: seq<Cell>, idx: nat, isObject: bool): (r: seq<Cell>)
    ensures At(r, idx) == GroupKey(At(row, idx), isObject)
    ensures forall j: nat :: j != idx ==> At(r, j) == At(row, j)
  {
    var k := GroupKey(At(row, idx), isObject);
    if idx < |row| then row[idx := k] else row + seq(idx - |row|, _ => Missing) + [k]
  }

  /** The rows whose cleaned group cell passes both filters, in order, with that cell cleaned. */
  function KeptRows(rows: seq<seq<Cell>>, idx: nat, isObject: bool): (r: seq<seq<Cell>>)
    ensures |r| <= |rows|
    ensures forall i :: 0 <= i < |r| ==> HasGroup(At(r[i], idx))
  {
    if rows == [] then []
    else
      var n := |rows| - 1;
      var row := RekeyRow(rows[n], idx, isObject);
      KeptRows(rows[..n], idx, isObject) + (if HasGroup(At(row, idx)) then [row] else [])
  }

  /** groups_df: the kept rows, the dtype decided by the whole column. */
  function GroupedRows(rows: seq<seq<Cell>>, idx: nat): seq<seq<Cell>> {
    KeptRows(rows, idx, IsObjectColumn(rows, idx))
  }

  /** Whether a row survives the two filters once its group cell is cleaned. */
  function KeepsGroup(idx: nat, isObject: bool): seq<Cell> -> bool {
    (row: seq<Cell>) => HasGroup(GroupKey(At(row, idx), isObject))
  }

  function Rekey(idx: nat, isObject: bool): seq<Cell> -> seq<Cell> {
    (row: seq<Cell>) => RekeyRow(row, idx, isObject)
  }

  /**
   * groups_df is the selection of the rows that pass the filters, each with
   * its group cell cleaned up, in the order of the sheet.
   */
  lemma {:induction false} KeptRowsAre(rows: seq<seq<Cell>>, idx: nat, isObject: bool)
    ensures KeptRows(rows, idx, isObject) == Map(Filter(rows, KeepsGroup(idx, isObject)), Rekey(idx, isObject))
  {
    if rows != [] {
      var n := |rows| - 1;
      var p, f := KeepsGroup(idx, isObject), Rekey(idx, isObject);
      var init, last := rows[..n], rows[n];
      KeptRowsAre(init, idx, isObject);
      assert KeptRows(rows, idx, isObject) == KeptRows(init, idx, isObject) + (if p(last) then [f(last)] else []);
      assert rows == init + [last];
      FilterSnoc(init, last, p);
      if p(last) {
        MapSnoc(Filter(init, p), last, f);
      }
    }
  }

  /**
   * Which rows get a group: in a numeric column those whose cell is present;
   * in an object column every row whose stripped text is not empty, so a
   * missing cell lands in the group "nan".
   */
  lemma RowHasGroup(rows: seq<seq<Cell>>, idx: nat, i: nat)
    requires i < |rows|
    ensures !IsObjectColumn(rows, idx) ==> (KeepsGroup(idx, false)(rows[i]) <==> !At(rows[i], idx).Missing?)
    ensures IsObjectColumn(rows, idx) && At(rows[i], idx).Missing? ==>
      KeepsGroup(idx, true)(rows[i]) && GroupKey(At(rows[i], idx), true) == Str("nan")
  {
    if !IsObjectColumn(rows, idx) {
      assert !At(rows[i], idx).Str?;
    }
  }

  /** The elements of s whose key is g, in order. */
  function Select<T(==), K(==)>(s: seq<T>, key: T -> K, g: K): (r: seq<T>)
    ensures |r| <= |s|
    ensures forall i :: 0 <= i < |r| ==> key(r[i]) == g && r[i] in s
  {
    if s == [] then []
    else
      var n := |s| - 1;
      Select(s[..n], key, g) + (if key(s[n]) == g then [s[n]] else [])
  }

  /** Every element whose key is g is selected. */
  lemma {:induction false} SelectKeeps<T, K>(s: seq<T>, key: T -> K, g: K, i: nat)
    requires i < |s| && key(s[i]) == g
    ensures s[i] in Select(s, key, g)
  {
    var n := |s| - 1;
    if i < n {
      SelectKeeps(s[..n], key, g, i);
    }
  }

  /** The group cell of a row. */
  function KeyAt(idx: nat): seq<Cell> -> Cell {
    (row: seq<Cell>) => At(row, idx)
  }

  /** The group cells of the rows, in order. */
  function Keys<T, K>(s: seq<T>, key: T -> K): (r: seq<K>)
    ensures |r| == |s| && forall i :: 0 <= i < |s| ==> r[i] == key(s[i])
  {
    if s == [] then [] else Keys(s[..|s| - 1], key) + [key(s[|s| - 1])]
  }

  /** unique_groups. */
  function Groups(df: Frame, idx: nat): seq<Cell> {
    Unique(Keys(GroupedRows(df.rows, idx), KeyAt(idx)))
  }

  /**
   * unique_groups is in order of first appearance: of two groups, the one
   * processed first has the earlier first row in groups_df.
   */
  lemma GroupsInOrder(df: Frame, idx: nat, i: nat, j: nat)
    requires i < j < |Groups(df, idx)|
    ensures var keys := Keys(GroupedRows(df.rows, idx), KeyAt(idx));
      FirstIndex(keys, Groups(df, idx)[i]) < FirstIndex(keys, Groups(df, idx)[j])
  {
    UniqueFirstAppearance(Keys(GroupedRows(df.rows, idx), KeyAt(idx)), i, j);
  }

  /** df_g: the rows of groups_df whose group cell is g. */
  function GroupFrame(df: Frame, idx: nat, g: Cell): Frame {
    Frame(df.headers, Select(GroupedRows(df.rows, idx), KeyAt(idx), g))
  }

  /** str(g).strip() or "Unknown". */
  function GroupLabel(g: Cell): string {
    var t := Strip(CellText(g));
    if t == [] then UnknownGroup else t
  }

  /** A text group is labelled by its own text: the "Unknown" fallback never fires for a kept text group. */
  lemma GroupLabelOfText(g: Cell)
    requires g.Str? && HasGroup(g) && IsStripped(g.s)
    ensures GroupLabel(g) == g.s
  {
    StripOfStripped(g.s);
  }

  /** The number of elements selected by the keys of gs together. */
  function SizesOf<T(==), K(==)>(s: seq<T>, key: T -> K, gs: seq<K>): nat {
    if gs == [] then 0 else |Select(s, key, gs[0])| + SizesOf(s, key, gs[1..])
  }

  /** One more element adds one to the total when its key is among distinct keys gs. */
  lemma {:induction false} SizesOfSnoc<T, K>(s: seq<T>, x: T, key: T -> K, gs: seq<K>)
    requires Distinct(gs)
    ensures SizesOf(s + [x], key, gs) == SizesOf(s, key, gs) + if key(x) in gs then 1 else 0
  {
    if gs != [] {
      assert (s + [x])[..|s|] == s;
      assert Distinct(gs[1..]);
      SizesOfSnoc(s, x, key, gs[1..]);
      assert key(x) in gs <==> key(x) == gs[0] || key(x) in gs[1..];
    }
  }

  /** Distinct keys covering every element split the sequence: the selections add up to all of it. */
  lemma {:induction false} SizesOfCover<T, K>(s: seq<T>, key: T -> K, gs: seq<K>)
    requires Distinct(gs) && forall i :: 0 <= i < |s| ==> key(s[i]) in gs
    ensures SizesOf(s, key, gs) == |s|
  {
    if s == [] {
      SizesOfEmpty(key, gs);
    } else {
      var n := |s| - 1;
      SizesOfCover(s[..n], key, gs);
      SizesOfSnoc(s[..n], s[n], key, gs);
      assert s[..n] + [s[n]] == s;
    }
  }

  lemma {:induction false} SizesOfEmpty<T, K>(key: T -> K, gs: seq<K>)
    ensures SizesOf([], key, gs) == 0
  {
    if gs != [] {
      SizesOfEmpty(key, gs[1..]);
    }
  }

  /**
   * The groups partition groups_df: they are distinct, every kept row
   * belongs to the group of its cell and to no other, and the group sheets
   * together hold exactly the kept rows.
   */
  lemma GroupsPartition(df: Frame, idx: nat)
    ensures Distinct(Groups(df, idx))
    ensures var kept := GroupedRows(df.rows, idx);
      forall i :: 0 <= i < |kept| ==> At(kept[i], idx) in Groups(df, idx) && kept[i] in GroupFrame(df, idx, At(kept[i], idx)).rows
    ensures forall g :: g in Groups(df, idx) ==> HasGroup(g) && forall r :: r in GroupFrame(df, idx, g).rows ==> At(r, idx) == g
    ensures SizesOf(GroupedRows(df.rows, idx), KeyAt(idx), Groups(df, idx)) == |GroupedRows(df.rows, idx)|
  {
    var kept := GroupedRows(df.rows, idx);
    var keys := Keys(kept, KeyAt(idx));
    forall i | 0 <= i < |kept|
      ensures At(kept[i], idx) in Groups(df, idx) && kept[i] in GroupFrame(df, idx, At(kept[i], idx)).rows
    {
      assert keys[i] == At(kept[i], idx);
      SelectKeeps(kept, KeyAt(idx), At(kept[i], idx), i);
    }
    forall g | g in Groups(df, idx)
      ensures HasGroup(g)
    {
      var i :| 0 <= i < |keys| && keys[i] == g;
    }
    SizesOfCover(kept, KeyAt(idx), Groups(df, idx));
  }

  // ---------------------------------------------------------------------
  // The run
  // ---------------------------------------------------------------------

  /** A summary sheet written under `name`: its header row, then its columns. */
  function SheetBlock(name: string, df: Frame, controlMap: map<string, string>, sheetLabel: string, chartsDir: string): Block {
    var b := SheetBody(name, df, controlMap, sheetLabel, chartsDir);
    Block(HeaderPuts(name) + b.puts, b.charts, 1 + b.height)
  }

  /** The sheet of group k when it gets the name `name`. */
  function GroupSheets(df: Frame, idx: nat, groups: seq<Cell>, controlMap: map<string, string>, chartsDir: string): (nat, string) -> Block {
    (k: nat, name: string) =>
      if k < |groups| then SheetBlock(name, GroupFrame(df, idx, groups[k]), controlMap, GroupLabel(groups[k]), chartsDir)
      else Block([], [], 0)
  }

  /** `sheets` gives the sheet of every group. */
  ghost predicate GroupSheetsOf(sheets: (nat, string) -> Block, df: Frame, idx: nat, groups: seq<Cell>, controlMap: map<string, string>, chartsDir: string) {
    forall k: nat, name: string :: k < |groups| ==>
      sheets(k, name) == SheetBlock(name, GroupFrame(df, idx, groups[k]), controlMap, GroupLabel(groups[k]), chartsDir)
  }

  lemma GroupSheetsAreOf(df: Frame, idx: nat, groups: seq<Cell>, controlMap: map<string, string>, chartsDir: string)
    ensures GroupSheetsOf(GroupSheets(df, idx, groups, controlMap, chartsDir), df, idx, groups, controlMap, chartsDir)
  {
  }

  /** The sheets of the first |names| groups, one after the other, sheet k named names[k]. */
  function Sheets(sheets: (nat, string) -> Block, names: seq<string>): Block {
    if names == [] then Block([], [], 0)
    else
      var n := |names| - 1;
      Stack(Sheets(sheets, names[..n]), sheets(n, names[n]))
  }

  lemma SheetsStep(sheets: (nat, string) -> Block, names: seq<string>, name: string)
    ensures Sheets(sheets, names + [name]) == Stack(Sheets(sheets, names), sheets(|names|, name))
  {
    assert (names + [name])[..|names|] == names;
  }

  lemma DistinctSnoc<T>(s: seq<T>, x: T)
    requires Distinct(s) && x !in s
    ensures Distinct(s + [x])
  {
  }

  /** The label of every group, in order. */
  function GroupLabels(groups: seq<Cell>): (labels: seq<string>)
    ensures |labels| == |groups|
    ensures forall i :: 0 <= i < |groups| ==> labels[i] == GroupLabel(groups[i])
  {
    Map(groups, GroupLabel)
  }

  /** The loop over unique_groups: one more summary sheet per group, each under a fresh name. */
  method SummarizeGroups(wb: Workbook, df: Frame, idx: nat, groups: seq<Cell>, controlMap: map<string, string>, chartsDir: string,
                         ghost sheets: (nat, string) -> Block)
    requires GroupSheetsOf(sheets, df, idx, groups, controlMap, chartsDir)
    requires Distinct(wb.sheetNames)
    modifies wb
    ensures Distinct(wb.sheetNames)
    ensures |wb.sheetNames| == |old(wb.sheetNames)| + |groups| && wb.sheetNames[..|old(wb.sheetNames)|] == old(wb.sheetNames)
    ensures NamedInTurn(old(wb.sheetNames), wb.sheetNames[|old(wb.sheetNames)|..], GroupLabels(groups))
    ensures var b := Sheets(sheets, wb.sheetNames[|old(wb.sheetNames)|..]);
      wb.puts == old(wb.puts) + b.puts && wb.charts == old(wb.charts) + b.charts
  {
    ghost var names: seq<string> := [];
    ghost var acc := Block([], [], 0);
    var k := 0;
    while k < |groups|
      invariant 0 <= k <= |groups| && |names| == k
      invariant wb.sheetNames == old(wb.sheetNames) + names && Distinct(wb.sheetNames)
      invariant |names| <= |groups| && NamedInTurn(old(wb.sheetNames), names, GroupLabels(groups))
      invariant acc == Sheets(sheets, names)
      invariant wb.puts == old(wb.puts) + acc.puts && wb.charts == old(wb.charts) + acc.charts
    {
      ghost var prev := wb.sheetNames;
      var name := SummarizeGroup(wb, df, idx, groups, k, controlMap, chartsDir, sheets);
      ghost var b := sheets(k, name);
      DistinctSnoc(prev, name);
      NamedInTurnSnoc(old(wb.sheetNames), names, GroupLabels(groups), name);
      AppendAssociative(old(wb.sheetNames), names, [name]);
      SheetsStep(sheets, names, name);
      AppendAssociative(old(wb.puts), acc.puts, b.puts);
      AppendAssociative(old(wb.charts), acc.charts, b.charts);
      names := names + [name];
      acc := Stack(acc, b);
      k := k + 1;
    }
    assert wb.sheetNames[|old(wb.sheetNames)|..] == names;
  }

  /** One iteration: the summary sheet of group k under a fresh name. */
  method SummarizeGroup(wb: Workbook, df: Frame, idx: nat, groups: seq<Cell>, k: nat, controlMap: map<string, string>, chartsDir: string,
                        ghost sheets: (nat, string) -> Block)
    returns (name: string)
    requires k < |groups| && GroupSheetsOf(sheets, df, idx, groups, controlMap, chartsDir)
    modifies wb
    ensures name !in old(wb.sheetNames) && wb.sheetNames == old(wb.sheetNames) + [name]
    ensures ChosenSheetName(GroupLabel(groups[k]), SetOf(old(wb.sheetNames)), name)
    ensures wb.puts == old(wb.puts) + sheets(k, name).puts && wb.charts == old(wb.charts) + sheets(k, name).charts
  {
    var g := groups[k];
    name := SummarizeSheet(wb, GroupFrame(df, idx, g), GroupLabel(g), controlMap, chartsDir);
    ghost var b := SheetBody(name, GroupFrame(df, idx, g), controlMap, GroupLabel(g), chartsDir);
    AppendAssociative(old(wb.puts), HeaderPuts(name), b.puts);
  }

  /** The label analysis.py gives its overall sheet, where main.py uses config.py's "Geral". */
  const AnalysisGeneralLabel: string := "geral"

  /** Both labels of the overall sheet are valid worksheet names as they stand. */
  lemma GeneralSheetNames()
    ensures BaseSheetName(GeneralLabel) == GeneralLabel
    ensures BaseSheetName(AnalysisGeneralLabel) == AnalysisGeneralLabel
  {
    assert ReplaceForbidden(GeneralLabel) == GeneralLabel;
    assert ReplaceForbidden(AnalysisGeneralLabel) == AnalysisGeneralLabel;
  }

  /** The position of the grouping column, when one is configured. */
  function GroupIndex(groupBy: Option<nat>): nat {
    if groupBy.Some? then groupBy.value else 0
  }

  /**
   * The output workbook holds the general sheet under the name `first`,
   * then the sheets of the groups under the other names, all names distinct.
   */
  ghost predicate WrittenAs(names: seq<string>, first: string, puts: seq<Put>, charts: seq<Chart>, general: Block, sheets: (nat, string) -> Block) {
    |names| >= 1 && names[0] == first && Distinct(names) &&
    var rest := Sheets(sheets, names[1..]);
    puts == general.puts + rest.puts && charts == general.charts + rest.charts
  }

  /**
   * The body of main.py (and of analysis.py) from the sheet check to the end
   * of the writer block: a missing answers sheet stops the run before
   * anything is written; otherwise the general sheet comes first, under the
   * sanitised `general` label, then, when a valid grouping column is
   * configured, one sheet per group in order of first appearance; a grouping
   * column past the last one stops the run after the general sheet (the
   * writer still saves what it holds).
   */
  method Run(wb: Workbook, inputSheets: seq<string>, ctrlRow: seq<Cell>, df: Frame, groupBy: Option<nat>, general: string, chartsDir: string)
    returns (outcome: Outcome)
    requires wb.sheetNames == [] && wb.puts == [] && wb.charts == []
    modifies wb
    ensures outcome.SheetNotFound? <==> ControlSheetName !in inputSheets
    ensures outcome.SheetNotFound? ==> outcome.sheet == ControlSheetName && wb.sheetNames == [] && wb.puts == [] && wb.charts == []
    ensures outcome.GroupIndexOutOfRange? <==>
      ControlSheetName in inputSheets && groupBy.Some? && groupBy.value >= |df.headers|
    ensures outcome.GroupIndexOutOfRange? ==> outcome.index == groupBy.value
    ensures !outcome.SheetNotFound? ==>
      |wb.sheetNames| == 1 + (if outcome.Completed? && groupBy.Some? then |Groups(df, GroupIndex(groupBy))| else 0)
    ensures !outcome.SheetNotFound? && outcome.Completed? && groupBy.Some? ==>
      NamedInTurn([BaseSheetName(general)], wb.sheetNames[1..], GroupLabels(Groups(df, GroupIndex(groupBy))))
    ensures !outcome.SheetNotFound? ==>
      var controlMap := ControlMapOf(df.headers, ctrlRow);
      var idx := GroupIndex(groupBy);
      var first := BaseSheetName(general);
      WrittenAs(wb.sheetNames, first, wb.puts, wb.charts, SheetBlock(first, df, controlMap, general, chartsDir),
                GroupSheets(df, idx, Groups(df, idx), controlMap, chartsDir))
  {
    if ControlSheetName !in inputSheets {
      return SheetNotFound(ControlSheetName);
    }
    var controlMap := BuildControlMap(df.headers, ctrlRow);
    outcome := WriteSummaries(wb, df, controlMap, groupBy, general, chartsDir);
  }

  /** The writer block: the general sheet, then the group sheets. */
  method WriteSummaries(wb: Workbook, df: Frame, controlMap: map<string, string>, groupBy: Option<nat>, general: string, chartsDir: string)
    returns (outcome: Outcome)
    requires wb.sheetNames == [] && wb.puts == [] && wb.charts == []
    modifies wb
    ensures outcome.Completed? || outcome.GroupIndexOutOfRange?
    ensures outcome.GroupIndexOutOfRange? <==> groupBy.Some? && groupBy.value >= |df.headers|
    ensures outcome.GroupIndexOutOfRange? ==> outcome.index == groupBy.value
    ensures |wb.sheetNames| == 1 + (if outcome.Completed? && groupBy.Some? then |Groups(df, GroupIndex(groupBy))| else 0)
    ensures outcome.Completed? && groupBy.Some? ==>
      NamedInTurn([BaseSheetName(general)], wb.sheetNames[1..], GroupLabels(Groups(df, GroupIndex(groupBy))))
    ensures var idx := GroupIndex(groupBy);
      var first := BaseSheetName(general);
      WrittenAs(wb.sheetNames, first, wb.puts, wb.charts, SheetBlock(first, df, controlMap, general, chartsDir),
                GroupSheets(df, idx, Groups(df, idx), controlMap, chartsDir))
  {
    WriteGeneral(wb, df, controlMap, general, chartsDir);
    ghost var first := BaseSheetName(general);
    ghost var block := SheetBlock(first, df, controlMap, general, chartsDir);
    var idx := GroupIndex(groupBy);
    outcome := Completed;
    if groupBy.Some? && idx < |df.headers| {
      WriteGroups(wb, df, idx, controlMap, chartsDir, first, block);
    } else {
      GeneralOnly(first, block, GroupSheets(df, idx, Groups(df, idx), controlMap, chartsDir));
      if groupBy.Some? {
        outcome := GroupIndexOutOfRange(idx);
      }
    }
  }

  /** A workbook holding only the general sheet. */
  lemma GeneralOnly(first: string, general: Block, sheets: (nat, string) -> Block)
    ensures WrittenAs([first], first, general.puts, general.charts, general, sheets)
  {
    assert [first][1..] == [];
  }

  /** The group sheets written after the general one. */
  method WriteGroups(wb: Workbook, df: Frame, idx: nat, controlMap: map<string, string>, chartsDir: string,
                     ghost first: string, ghost general: Block)
    requires wb.sheetNames == [first] && wb.puts == general.puts && wb.charts == general.charts
    modifies wb
    ensures |wb.sheetNames| == 1 + |Groups(df, idx)|
    ensures NamedInTurn([first], wb.sheetNames[1..], GroupLabels(Groups(df, idx)))
    ensures WrittenAs(wb.sheetNames, first, wb.puts, wb.charts, general, GroupSheets(df, idx, Groups(df, idx), controlMap, chartsDir))
  {
    var groups := Groups(df, idx);
    GroupSheetsAreOf(df, idx, groups, controlMap, chartsDir);
    SummarizeGroups(wb, df, idx, groups, controlMap, chartsDir, GroupSheets(df, idx, groups, controlMap, chartsDir));
    WrittenAfterGeneral(wb.sheetNames, first, wb.puts, wb.charts, general, GroupSheets(df, idx, groups, controlMap, chartsDir));
  }

  lemma WrittenAfterGeneral(names: seq<string>, first: string, puts: seq<Put>, charts: seq<Chart>, general: Block, sheets: (nat, string) -> Block)
    requires |names| >= 1 && names[..1] == [first] && Distinct(names)
    requires puts == general.puts + Sheets(sheets, names[1..]).puts && charts == general.charts + Sheets(sheets, names[1..]).charts
    ensures WrittenAs(names, first, puts, charts, general, sheets)
  {
    assert names[0] == names[..1][0];
  }

  /** The general sheet, written first into the empty workbook under its sanitised label. */
  method WriteGeneral(wb: Workbook, df: Frame, controlMap: map<string, string>, general: string, chartsDir: string)
    requires wb.sheetNames == []
    modifies wb
    ensures wb.sheetNames == [BaseSheetName(general)]
    ensures var block := SheetBlock(BaseSheetName(general), df, controlMap, general, chartsDir);
      wb.puts == old(wb.puts) + block.puts && wb.charts == old(wb.charts) + block.charts
  {
    var name := SummarizeSheet(wb, df, general, controlMap, chartsDir);
    ghost var body := SheetBody(name, df, controlMap, general, chartsDir);
    AppendAssociative(old(wb.puts), HeaderPuts(name), body.puts);
  }
}
