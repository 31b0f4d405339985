/**
 * The answer-cleaning and counting steps: clean_single, expand_multiple,
 * value_counts, cap_top_n_with_outros, to_percentages, and the move of the
 * "Outros" entry to the end of the written list.
 *
 * A pandas Series of counts is an ordered list of (label, count) bins; a
 * percentage is kept as an integer number of hundredths of a percent, which
 * is what rounding to two decimals leaves.
 */
module Cleaning {
  import opened Text
  import opened Seqs
  import opened Cells

  // ---------------------------------------------------------------------
  // clean_single
  // ---------------------------------------------------------------------

  /**
   * What clean_single does to one cell: a missing or blank cell becomes
   * missing, a string is stripped, a number is kept.
   */
  function NormalizeCell(c: Cell): (r: Cell)
    ensures r.Missing? || IsToken(r)
    ensures r.Missing? <==> IsBlank(c)
    ensures IsToken(c) ==> r == c
  {
    match c
    case Missing => Missing
    case Str(s) =>
      StripFacts(s);
      if Strip(s) == [] then Missing else Str(Strip(s))
    case Num(_) => c
  }

  lemma StripFacts(s: string)
    ensures Strip(s) == [] <==> forall i :: 0 <= i < |s| ==> IsSpace(s[i])
    ensures IsStripped(Strip(s))
    ensures IsStripped(s) ==> Strip(s) == s
  {
    StripEmptyIffBlank(s);
    StripIdempotent(s);
    if IsStripped(s) {
      StripOfStripped(s);
    }
  }

  /** clean_single: every cell normalized, the missing ones dropped, order kept. */
  function CleanSingle(col: seq<Cell>): (r: seq<Cell>)
    ensures |r| <= |col|
    ensures forall i :: 0 <= i < |r| ==> IsToken(r[i])
  {
    if col == [] then []
    else
      var c := NormalizeCell(col[0]);
      (if c.Missing? then [] else [c]) + CleanSingle(col[1..])
  }

  function IsPresent(c: Cell): bool { !c.Missing? }

  /** clean_single read as pandas does it: apply the lambda to every cell, then dropna(). */
  lemma {:induction false} CleanSingleIsMapThenDropna(col: seq<Cell>)
    ensures CleanSingle(col) == Filter(Map(col, NormalizeCell), IsPresent)
  {
    if col != [] {
      CleanSingleIsMapThenDropna(col[1..]);
      assert Map(col, NormalizeCell)[1..] == Map(col[1..], NormalizeCell);
    }
  }

  lemma {:induction false} CleanSingleAppend(a: seq<Cell>, b: seq<Cell>)
    ensures CleanSingle(a + b) == CleanSingle(a) + CleanSingle(b)
  {
    if a != [] {
      assert (a + b)[1..] == a[1..] + b;
      CleanSingleAppend(a[1..], b);
    } else {
      assert a + b == b;
    }
  }

  /** Cleaned answers are left alone by a second clean_single. */
  lemma {:induction false} CleanSingleOfTokens(col: seq<Cell>)
    requires forall i :: 0 <= i < |col| ==> IsToken(col[i])
    ensures CleanSingle(col) == col
  {
    if col != [] {
      CleanSingleOfTokens(col[1..]);
    }
  }

  lemma CleanSingleIdempotent(col: seq<Cell>)
    ensures CleanSingle(CleanSingle(col)) == CleanSingle(col)
  {
    CleanSingleOfTokens(CleanSingle(col));
  }

  /** clean_single keeps nothing exactly when every cell is missing or blank. */
  lemma {:induction false} CleanSingleEmptyIffAllBlank(col: seq<Cell>)
    ensures CleanSingle(col) == [] <==> forall i :: 0 <= i < |col| ==> IsBlank(col[i])
  {
    if col != [] {
      CleanSingleEmptyIffAllBlank(col[1..]);
      assert forall i :: 1 <= i < |col| ==> col[i] == col[1..][i - 1];
    }
  }

  /** Every non-blank cell contributes its normalized answer. */
  lemma {:induction false} CleanSingleKeepsAnswers(col: seq<Cell>, j: nat)
    requires j < |col| && !IsBlank(col[j])
    ensures NormalizeCell(col[j]) in CleanSingle(col)
  {
    if j > 0 {
      CleanSingleKeepsAnswers(col[1..], j - 1);
    }
  }

  // ---------------------------------------------------------------------
  // expand_multiple
  // ---------------------------------------------------------------------

  /**
   * split_cell: a missing cell gives nothing, a number gives itself, a string
   * gives its separator-delimited parts, stripped, without the empty ones.
   */
  function SplitCell(c: Cell, sep: char): (r: seq<Cell>)
    ensures forall i :: 0 <= i < |r| ==> IsToken(r[i])
    ensures forall i :: 0 <= i < |r| && r[i].Str? ==> sep !in r[i].s
    ensures c.Num? ==> r == [c]
  {
    match c
    case Missing => []
    case Num(_) => [c]
    case Str(s) =>
      var parts := Split(s, sep);
      PiecesAvoid(parts, sep);
      var r := CleanSingle(Map(parts, StrCell));
      assert CellsAvoid(r, sep);
      r
  }

  /** No string cell holds the separator. */
  predicate CellsAvoid(cells: seq<Cell>, sep: char) {
    forall i :: 0 <= i < |cells| && cells[i].Str? ==> sep !in cells[i].s
  }

  lemma CellsAvoidAppend(a: seq<Cell>, b: seq<Cell>, sep: char)
    requires CellsAvoid(a, sep) && CellsAvoid(b, sep)
    ensures CellsAvoid(a + b, sep)
  {
    forall i | 0 <= i < |a + b| && (a + b)[i].Str?
      ensures sep !in (a + b)[i].s
    {
      if i >= |a| {
        assert (a + b)[i] == b[i - |a|];
      }
    }
  }

  /** Stripping only removes characters, so clean_single never adds a separator. */
  lemma {:induction false} CleanSingleAvoids(col: seq<Cell>, sep: char)
    requires CellsAvoid(col, sep)
    ensures CellsAvoid(CleanSingle(col), sep)
  {
    if col != [] {
      CleanSingleAvoids(col[1..], sep);
      var c := NormalizeCell(col[0]);
      var first: seq<Cell> := if c.Missing? then [] else [c];
      assert CellsAvoid(first, sep);
      CellsAvoidAppend(first, CleanSingle(col[1..]), sep);
    }
  }

  /** No piece of a split string holds the separator, before or after stripping. */
  lemma PiecesAvoid(parts: seq<string>, sep: char)
    requires forall k :: 0 <= k < |parts| ==> sep !in parts[k]
    ensures CellsAvoid(CleanSingle(Map(parts, StrCell)), sep)
  {
    CleanSingleAvoids(Map(parts, StrCell), sep);
  }

  /** expand_multiple: the pieces of every cell, cell after cell. */
  function ExpandMultiple(col: seq<Cell>, sep: char): seq<Cell> {
    if col == [] then [] else SplitCell(col[0], sep) + ExpandMultiple(col[1..], sep)
  }

  /** Every piece is a clean token and holds no separator. */
  lemma {:induction false} ExpandMultipleTokens(col: seq<Cell>, sep: char)
    ensures forall i :: 0 <= i < |ExpandMultiple(col, sep)| ==> IsToken(ExpandMultiple(col, sep)[i])
    ensures forall i :: 0 <= i < |ExpandMultiple(col, sep)| && ExpandMultiple(col, sep)[i].Str? ==>
      sep !in ExpandMultiple(col, sep)[i].s
  {
    if col != [] {
      ExpandMultipleTokens(col[1..], sep);
      var head := SplitCell(col[0], sep);
      var r := ExpandMultiple(col, sep);
      var tail := ExpandMultiple(col[1..], sep);
      assert r == head + tail;
      forall i | 0 <= i < |r| ensures IsToken(r[i]) && (r[i].Str? ==> sep !in r[i].s) {
        if i >= |head| {
          assert r[i] == tail[i - |head|];
        }
      }
    }
  }

  lemma {:induction false} ExpandMultipleAppend(a: seq<Cell>, b: seq<Cell>, sep: char)
    ensures ExpandMultiple(a + b, sep) == ExpandMultiple(a, sep) + ExpandMultiple(b, sep)
  {
    if a != [] {
      assert (a + b)[1..] == a[1..] + b;
      ExpandMultipleAppend(a[1..], b, sep);
    } else {
      assert a + b == b;
    }
  }

  /** A cell without the separator splits into what clean_single makes of it. */
  lemma SplitCellWithoutSeparator(c: Cell, sep: char)
    requires c.Str? ==> sep !in c.s
    ensures SplitCell(c, sep) == CleanSingle([c])
  {
    assert [c][1..] == [];
    if c.Str? {
      SplitWithoutSeparator(c.s, sep);
      assert Map([c.s], StrCell) == [c];
    }
  }

  /** A column none of whose strings holds the separator is expanded as clean_single would clean it. */
  lemma {:induction false} ExpandWithoutSeparator(col: seq<Cell>, sep: char)
    requires forall i :: 0 <= i < |col| && col[i].Str? ==> sep !in col[i].s
    ensures ExpandMultiple(col, sep) == CleanSingle(col)
  {
    if col != [] {
      var head, tail := col[0], col[1..];
      forall i | 0 <= i < |tail| && tail[i].Str? ensures sep !in tail[i].s {
        assert tail[i] == col[i + 1];
      }
      ExpandWithoutSeparator(tail, sep);
      assert ExpandMultiple(col, sep) == SplitCell(head, sep) + ExpandMultiple(tail, sep);
      SplitCellWithoutSeparator(head, sep);
      assert col == [head] + tail;
      CleanSingleAppend([head], tail);
    }
  }

  /** Pieces that are non-empty and carry no surrounding whitespace. */
  predicate AllCleanPieces(parts: seq<string>) {
    forall k :: 0 <= k < |parts| ==> parts[k] != [] && IsStripped(parts[k])
  }

  /**
   * Nothing is lost when the parts are already clean: joining the pieces of a
   * string cell with the separator gives the cell back.
   */
  lemma SplitCellRoundTrip(s: string, sep: char)
    requires AllCleanPieces(Split(s, sep))
    ensures Join(Map(SplitCell(Str(s), sep), CellText), sep) == s
  {
    var parts := Split(s, sep);
    CleanPiecesKept(parts);
    JoinSplit(s, sep);
  }

  lemma {:induction false} CleanPiecesKept(parts: seq<string>)
    requires AllCleanPieces(parts)
    ensures Map(CleanSingle(Map(parts, StrCell)), CellText) == parts
  {
    if parts != [] {
      CleanPiecesKept(parts[1..]);
      var cells := Map(parts, StrCell);
      assert cells[0] == Str(parts[0]) && IsToken(cells[0]);
      assert cells[1..] == Map(parts[1..], StrCell);
      var rest := CleanSingle(cells[1..]);
      assert CleanSingle(cells) == [cells[0]] + rest;
      MapCons(cells[0], rest, CellText);
    }
  }

  // ---------------------------------------------------------------------
  // Counts: value_counts and cap_top_n_with_outros
  // ---------------------------------------------------------------------

  /** One entry of a Series of counts. */
  datatype Bin = Bin(answer: Cell, count: nat)

  function BinLabel(b: Bin): Cell { b.answer }

  function BinCount(b: Bin): int { b.count }

  function BinKey(b: Bin): real { b.count as real }

  /** counts.sum() */
  function Total(bins: seq<Bin>): (t: int)
    ensures t >= 0
  {
    TotalNonNegative(bins);
    SumBy(bins, BinCount)
  }

  lemma {:induction false} TotalNonNegative(bins: seq<Bin>)
    ensures SumBy(bins, BinCount) >= 0
  {
    if bins != [] {
      TotalNonNegative(bins[1..]);
    }
  }

  function CountFor(l: Cell): Bin -> int {
    (b: Bin) => if b.answer == l then b.count else 0
  }

  /** The count a Series holds for label l (0 when l is absent). */
  function CountOf(bins: seq<Bin>, l: Cell): int { SumBy(bins, CountFor(l)) }

  function LabelsOf(bins: seq<Bin>): seq<Cell> { Map(bins, BinLabel) }

  predicate DistinctLabels(bins: seq<Bin>) { DistinctBy(bins, BinLabel) }

  /**
   * series.loc[l] = series.get(l, 0) + k: raises the entry for l in place,
   * or appends a new entry at the end when l is absent.
   */
  function AddTo(bins: seq<Bin>, l: Cell, k: nat): (r: seq<Bin>)
    ensures l !in LabelsOf(bins) ==> r == bins + [Bin(l, k)]
    ensures l in LabelsOf(bins) ==> |r| == |bins|
  {
    if bins == [] then [Bin(l, k)]
    else if bins[0].answer == l then [Bin(l, bins[0].count + k)] + bins[1..]
    else
      assert LabelsOf(bins) == [bins[0].answer] + LabelsOf(bins[1..]);
      [bins[0]] + AddTo(bins[1..], l, k)
  }

  /** Adding k under l raises the count of l by k and no other count. */
  lemma {:induction false} AddToCountOf(bins: seq<Bin>, l: Cell, k: nat, m: Cell)
    ensures CountOf(AddTo(bins, l, k), m) == CountOf(bins, m) + (if m == l then k else 0)
  {
    var r := AddTo(bins, l, k);
    if bins == [] {
      assert r[1..] == [];
    } else if bins[0].answer == l {
      assert r[1..] == bins[1..];
    } else {
      AddToCountOf(bins[1..], l, k, m);
      assert r[1..] == AddTo(bins[1..], l, k);
    }
  }

  /** Adding k under l raises the total by k. */
  lemma {:induction false} AddToTotal(bins: seq<Bin>, l: Cell, k: nat)
    ensures Total(AddTo(bins, l, k)) == Total(bins) + k
  {
    var r := AddTo(bins, l, k);
    if bins == [] {
      assert r[1..] == [];
    } else if bins[0].answer == l {
      assert r[1..] == bins[1..];
    } else {
      AddToTotal(bins[1..], l, k);
      assert r[1..] == AddTo(bins[1..], l, k);
    }
  }

  /**
   * Every existing entry keeps its place and its label, and its count never
   * drops; an entry with another label is untouched.
   */
  lemma {:induction false} AddToKeeps(bins: seq<Bin>, l: Cell, k: nat)
    ensures var r := AddTo(bins, l, k);
      |bins| <= |r| &&
      forall i :: 0 <= i < |bins| ==>
        r[i].answer == bins[i].answer && r[i].count >= bins[i].count && (bins[i].answer != l ==> r[i] == bins[i])
    ensures l in LabelsOf(bins) ==> LabelsOf(AddTo(bins, l, k)) == LabelsOf(bins)
  {
    var r := AddTo(bins, l, k);
    if bins != [] && bins[0].answer != l {
      AddToKeeps(bins[1..], l, k);
      var rest := AddTo(bins[1..], l, k);
      assert r == [bins[0]] + rest;
      forall i | 0 < i < |bins|
        ensures r[i].answer == bins[i].answer && r[i].count >= bins[i].count && (bins[i].answer != l ==> r[i] == bins[i])
      {
        assert r[i] == rest[i - 1] && bins[i] == bins[1..][i - 1];
      }
    }
    if l in LabelsOf(bins) {
      assert |r| == |bins|;
      assert forall i :: 0 <= i < |r| ==> LabelsOf(r)[i] == LabelsOf(bins)[i];
    }
  }

  /** Adding to a list with distinct labels keeps them distinct. */
  lemma AddToDistinct(bins: seq<Bin>, l: Cell, k: nat)
    requires DistinctLabels(bins)
    ensures DistinctLabels(AddTo(bins, l, k))
  {
    var r := AddTo(bins, l, k);
    AddToKeeps(bins, l, k);
    if l !in LabelsOf(bins) {
      forall i | 0 <= i < |bins| ensures bins[i].answer != l {
        assert LabelsOf(bins)[i] == bins[i].answer;
      }
    }
  }

  /**
   * The counts of a list of answers, one bin per distinct answer, in order of
   * first appearance (value_counts before it sorts).
   */
  function Tally(tokens: seq<Cell>): seq<Bin> {
    if tokens == [] then [] else AddTo(Tally(tokens[..|tokens| - 1]), tokens[|tokens| - 1], 1)
  }

  /**
   * The tally has one bin per distinct token, the count of every token is its
   * number of occurrences, the counts add up to the number of tokens, and
   * every bin counts a token that occurs.
   */
  lemma {:induction false} TallyFacts(tokens: seq<Cell>)
    ensures DistinctLabels(Tally(tokens))
    ensures forall l :: CountOf(Tally(tokens), l) == multiset(tokens)[l]
    ensures Total(Tally(tokens)) == |tokens|
    ensures forall i :: 0 <= i < |Tally(tokens)| ==> Tally(tokens)[i].count >= 1 && Tally(tokens)[i].answer in tokens
  {
    if tokens != [] {
      var init := tokens[..|tokens| - 1];
      var last := tokens[|tokens| - 1];
      assert tokens == init + [last];
      TallyFacts(init);
      var prev := Tally(init);
      var r := AddTo(prev, last, 1);
      assert r == Tally(tokens);
      AddToDistinct(prev, last, 1);
      AddToTotal(prev, last, 1);
      AddToKeeps(prev, last, 1);
      assert multiset(tokens) == multiset(init) + multiset{last};
      forall l ensures CountOf(r, l) == multiset(tokens)[l] {
        AddToCountOf(prev, last, 1, l);
      }
      forall i | 0 <= i < |r| ensures r[i].count >= 1 && r[i].answer in tokens {
        if i < |prev| {
          assert prev[i].answer in init;
        } else {
          assert r == prev + [Bin(last, 1)];
        }
      }
    }
  }

  /** With distinct labels, the count for a present label is its entry's count. */
  lemma {:induction false} CountOfDistinct(bins: seq<Bin>, i: nat)
    requires DistinctLabels(bins) && i < |bins|
    ensures CountOf(bins, bins[i].answer) == bins[i].count
  {
    var l := bins[i].answer;
    if i == 0 {
      CountOfAbsent(bins[1..], l);
    } else {
      CountOfDistinct(bins[1..], i - 1);
      assert bins[1..][i - 1] == bins[i];
    }
  }

  lemma {:induction false} CountOfAbsent(bins: seq<Bin>, l: Cell)
    requires forall i :: 0 <= i < |bins| ==> bins[i].answer != l
    ensures CountOf(bins, l) == 0
  {
    if bins != [] {
      CountOfAbsent(bins[1..], l);
    }
  }

  /**
   * value_counts(): the tally sorted by decreasing count. The order among
   * equal counts is not modelled.
   */
  function ValueCounts(tokens: seq<Cell>): seq<Bin> {
    SortDesc(Tally(tokens), BinKey)
  }

  /**
   * value_counts() lists every distinct answer once, by decreasing count,
   * with its number of occurrences; the counts add up to the number of
   * answers and none is zero.
   */
  lemma ValueCountsFacts(tokens: seq<Cell>)
    ensures var r := ValueCounts(tokens);
      NonIncreasing(r, BinKey) && DistinctLabels(r) && Total(r) == |tokens| && |r| <= |tokens|
    ensures forall l :: CountOf(ValueCounts(tokens), l) == multiset(tokens)[l]
    ensures forall i :: 0 <= i < |ValueCounts(tokens)| ==>
      ValueCounts(tokens)[i].count >= 1 && ValueCounts(tokens)[i].answer in tokens
  {
    ValueCountsShape(tokens);
    ValueCountsCounts(tokens);
    ValueCountsMembers(tokens);
  }

  lemma ValueCountsShape(tokens: seq<Cell>)
    ensures var r := ValueCounts(tokens);
      NonIncreasing(r, BinKey) && DistinctLabels(r) && Total(r) == |tokens| && |r| <= |tokens|
  {
    var t := Tally(tokens);
    TallyFacts(tokens);
    SortDescDistinct(t, BinKey, BinLabel);
    SortDescSum(t, BinKey, BinCount);
    TallyLength(tokens);
  }

  lemma ValueCountsCounts(tokens: seq<Cell>)
    ensures forall l :: CountOf(ValueCounts(tokens), l) == multiset(tokens)[l]
  {
    var t := Tally(tokens);
    TallyFacts(tokens);
    var r := SortDesc(t, BinKey);
    forall l ensures CountOf(r, l) == multiset(tokens)[l] {
      SumByPermutation(r, t, CountFor(l));
    }
  }

  lemma ValueCountsMembers(tokens: seq<Cell>)
    ensures forall i :: 0 <= i < |ValueCounts(tokens)| ==>
      ValueCounts(tokens)[i].count >= 1 && ValueCounts(tokens)[i].answer in tokens
  {
    var t := Tally(tokens);
    TallyFacts(tokens);
    var r := SortDesc(t, BinKey);
    forall i | 0 <= i < |r| ensures r[i].count >= 1 && r[i].answer in tokens {
      assert r[i] in multiset(t);
    }
  }

  lemma TallyLength(tokens: seq<Cell>)
    ensures |Tally(tokens)| <= |tokens|
  {
    var t := Tally(tokens);
    TallyFacts(tokens);
    PositiveCountsBound(t);
  }

  lemma {:induction false} PositiveCountsBound(bins: seq<Bin>)
    requires forall i :: 0 <= i < |bins| ==> bins[i].count >= 1
    ensures |bins| <= Total(bins)
  {
    if bins != [] {
      PositiveCountsBound(bins[1..]);
    }
  }

  /**
   * cap_top_n_with_outros: sort by decreasing count; with more than n
   * entries keep the first n and add the sum of the rest, when positive, to
   * the entry labelled `others` (appended when absent).
   */
  function CapTopN(counts: seq<Bin>, n: nat, others: Cell): (r: seq<Bin>)
    ensures |r| <= n + 1 && |r| <= |counts|
    ensures |counts| <= n ==> multiset(r) == multiset(counts) && NonIncreasing(r, BinKey)
  {
    var sorted := SortDesc(counts, BinKey);
    if |sorted| <= n then sorted
    else
      var top := sorted[..n];
      var rest := Total(sorted[n..]);
      if rest > 0 then AddTo(top, others, rest) else top
  }

  /** Capping moves counts into "Outros" but never loses one: the total is unchanged. */
  lemma CapTopNTotal(counts: seq<Bin>, n: nat, others: Cell)
    ensures Total(CapTopN(counts, n, others)) == Total(counts)
  {
    var sorted := SortDesc(counts, BinKey);
    SortDescSum(counts, BinKey, BinCount);
    if |sorted| > n {
      MergeRestTotal(sorted, n, others);
    }
  }

  /** Merging everything past the first n entries into one entry keeps the total. */
  lemma MergeRestTotal(sorted: seq<Bin>, n: nat, others: Cell)
    requires |sorted| > n
    ensures var top, rest := sorted[..n], Total(sorted[n..]);
      Total(if rest > 0 then AddTo(top, others, rest) else top) == Total(sorted)
  {
    var top, rest := sorted[..n], Total(sorted[n..]);
    assert sorted == top + sorted[n..];
    SumByAppend(top, sorted[n..], BinCount);
    if rest > 0 {
      AddToTotal(top, others, rest);
    }
  }

  /** Capping never gives two entries the same label. */
  lemma CapTopNDistinct(counts: seq<Bin>, n: nat, others: Cell)
    requires DistinctLabels(counts)
    ensures DistinctLabels(CapTopN(counts, n, others))
  {
    var sorted := SortDesc(counts, BinKey);
    SortDescDistinct(counts, BinKey, BinLabel);
    if |sorted| > n {
      assert DistinctLabels(sorted[..n]);
      AddToDistinct(sorted[..n], others, Total(sorted[n..]));
    }
  }

  /** An entry of the capped list not labelled "Outros" is the entry at the same rank of the sorted counts. */
  lemma CapTopNKeptEntry(counts: seq<Bin>, n: nat, others: Cell, i: nat)
    requires |counts| > n
    requires i < |CapTopN(counts, n, others)| && CapTopN(counts, n, others)[i].answer != others
    ensures i < n && CapTopN(counts, n, others)[i] == SortDesc(counts, BinKey)[i]
  {
    var r := CapTopN(counts, n, others);
    var sorted := SortDesc(counts, BinKey);
    var top := sorted[..n];
    var rest := Total(sorted[n..]);
    if rest > 0 {
      AddToKeeps(top, others, rest);
      if others in LabelsOf(top) {
        assert |r| == |top|;
      } else {
        assert r == top + [Bin(others, rest)];
      }
    }
  }

  /** When entries are dropped, every answer kept under its own label keeps its count. */
  lemma CapTopNKeepsCounts(counts: seq<Bin>, n: nat, others: Cell, i: nat)
    requires DistinctLabels(counts) && |counts| > n
    requires i < |CapTopN(counts, n, others)| && CapTopN(counts, n, others)[i].answer != others
    ensures var r := CapTopN(counts, n, others);
      CountOf(r, r[i].answer) == CountOf(counts, r[i].answer)
  {
    var r := CapTopN(counts, n, others);
    var sorted := SortDesc(counts, BinKey);
    CapTopNKeptEntry(counts, n, others, i);
    SortDescDistinct(counts, BinKey, BinLabel);
    CapTopNDistinct(counts, n, others);
    CountOfDistinct(sorted, i);
    CountOfDistinct(r, i);
    SumByPermutation(sorted, counts, CountFor(r[i].answer));
  }

  /** When entries are dropped, no dropped answer outnumbers an answer kept under its own label. */
  lemma CapTopNDropsSmallest(counts: seq<Bin>, n: nat, others: Cell, i: nat, j: nat)
    requires |counts| > n && j < |counts|
    requires i < |CapTopN(counts, n, others)| && CapTopN(counts, n, others)[i].answer != others
    requires counts[j].answer !in LabelsOf(CapTopN(counts, n, others))
    ensures counts[j].count <= CapTopN(counts, n, others)[i].count
  {
    var r := CapTopN(counts, n, others);
    var sorted := SortDesc(counts, BinKey);
    var top := sorted[..n];
    var rest := Total(sorted[n..]);
    CapTopNKeptEntry(counts, n, others, i);
    var k := PermutationIndex(counts, sorted, j);
    if k < n {
      CapTopNKeepsTopLabels(counts, n, others, k);
    }
  }

  /** Every answer among the n largest keeps its label in the capped list. */
  lemma CapTopNKeepsTopLabels(counts: seq<Bin>, n: nat, others: Cell, k: nat)
    requires k < n < |counts|
    ensures SortDesc(counts, BinKey)[k].answer in LabelsOf(CapTopN(counts, n, others))
  {
    var r := CapTopN(counts, n, others);
    var sorted := SortDesc(counts, BinKey);
    var top := sorted[..n];
    var rest := Total(sorted[n..]);
    assert LabelsOf(top)[k] == sorted[k].answer;
    if rest > 0 && others in LabelsOf(top) {
      AddToKeeps(top, others, rest);
      assert LabelsOf(r) == LabelsOf(top);
    } else if rest > 0 {
      assert r == top + [Bin(others, rest)];
      assert LabelsOf(r)[k] == r[k].answer;
    } else {
      assert r == top;
    }
  }

  // ---------------------------------------------------------------------
  // to_percentages
  // ---------------------------------------------------------------------

  /** a / b rounded to the nearest integer, ties to the even one (numpy's round). */
  function RoundHalfEven(a: nat, b: nat): (q: nat)
    requires b > 0
    ensures 2 * (a - q * b) <= b && 2 * (q * b - a) <= b
    ensures 2 * (a % b) == b ==> q % 2 == 0
  {
    var q := a / b;
    var r := a % b;
    assert a == q * b + r;
    if 2 * r > b || (2 * r == b && q % 2 == 1) then
      MulSucc(q, b);
      q + 1
    else q
  }

  lemma MulSucc(q: int, b: int)
    ensures (q + 1) * b == q * b + b
  {
  }

  /** count / total * 100 rounded to two decimals, in hundredths of a percent. */
  function Percent(count: nat, total: nat): nat
    requires total > 0
  {
    RoundHalfEven(count * 10000, total)
  }

  /** 1 of 32 is 3.125 %, a tie between 3.12 and 3.13 that goes to the even 3.12. */
  lemma PercentTieExample()
    ensures Percent(1, 32) == 312
  {
    assert 10000 / 32 == 312 && 10000 % 32 == 16;
  }

  /** A percentage stays between 0 and 100 and within half a hundredth of the exact value. */
  lemma PercentBounds(count: nat, total: nat)
    requires 0 < total && count <= total
    ensures Percent(count, total) <= 10000
    ensures 2 * (count * 10000 - Percent(count, total) * total) <= total
    ensures 2 * (Percent(count, total) * total - count * 10000) <= total
    ensures 2 * (count * 10000 % total) == total ==> Percent(count, total) % 2 == 0
  {
    var p := Percent(count, total);
    MulMonotone(count, total, 10000);
    assert (2 * p) * total <= 20001 * total;
    MulCancel(2 * p, 20001, total);
  }

  lemma MulMonotone(x: nat, y: nat, z: nat)
    requires x <= y
    ensures x * z <= y * z
  {
  }

  lemma MulCancel(a: int, b: int, c: int)
    requires c > 0 && a * c <= b * c
    ensures a <= b
  {
  }

  /** The whole is 100%, nothing is 0%. */
  lemma PercentOfWholeAndNothing(total: nat)
    requires total > 0
    ensures Percent(total, total) == 10000 && Percent(0, total) == 0
  {
    var p := Percent(total, total);
    assert (2 * p - 20000) * total <= 1 * total;
    MulCancel(2 * p - 20000, 1, total);
    assert (20000 - 2 * p) * total <= 1 * total;
    MulCancel(20000 - 2 * p, 1, total);
  }

  /**
   * The real-number shares of value_counts(normalize=True): counts over one
   * total add up, and the whole over itself is one.
   */
  lemma DivAdd(a: real, b: real, t: real)
    requires t != 0.0
    ensures a / t + b / t == (a + b) / t
  {
    assert (a / t) * t == a && (b / t) * t == b;
    assert (a / t + b / t) * t == a + b;
  }

  lemma DivSelf(t: real)
    requires t != 0.0
    ensures t / t == 1.0
  {
  }

  /** One written percentage: a label and its share in hundredths of a percent. */
  datatype Share = Share(answer: Cell, hundredths: nat)

  function ShareLabel(s: Share): Cell { s.answer }

  function ShareKey(s: Share): real { s.hundredths as real }

  /** counts / total * 100, rounded, entry by entry. */
  function Shares(counts: seq<Bin>, total: nat): (r: seq<Share>)
    requires total > 0
    ensures |r| == |counts|
    ensures forall i :: 0 <= i < |r| ==> r[i] == Share(counts[i].answer, Percent(counts[i].count, total))
  {
    if counts == [] then [] else [Share(counts[0].answer, Percent(counts[0].count, total))] + Shares(counts[1..], total)
  }

  lemma SharesLabels(counts: seq<Bin>, total: nat)
    requires total > 0
    ensures Map(Shares(counts, total), ShareLabel) == LabelsOf(counts)
  {
  }

  /**
   * to_percentages: empty when the total is 0, otherwise every count as a
   * rounded percentage of the total, sorted by decreasing percentage.
   */
  function ToPercentages(counts: seq<Bin>): (r: seq<Share>)
    ensures r == [] <==> Total(counts) == 0
    ensures NonIncreasing(r, ShareKey)
    ensures Total(counts) > 0 ==> multiset(r) == multiset(Shares(counts, Total(counts)))
  {
    var total := Total(counts);
    if total == 0 then [] else SortDesc(Shares(counts, total), ShareKey)
  }

  /** Percentages keep the answers distinct. */
  lemma ToPercentagesDistinct(counts: seq<Bin>)
    requires DistinctLabels(counts)
    ensures DistinctBy(ToPercentages(counts), ShareLabel)
  {
    var total := Total(counts);
    if total > 0 {
      var shares := Shares(counts, total);
      forall i, j | 0 <= i < j < |shares| ensures shares[i].answer != shares[j].answer {
        assert shares[i].answer == counts[i].answer && shares[j].answer == counts[j].answer;
      }
      SortDescDistinct(shares, ShareKey, ShareLabel);
    }
  }

  // ---------------------------------------------------------------------
  // "Outros" last
  // ---------------------------------------------------------------------

  /** pct.drop(l): every entry labelled l removed, the rest in order. */
  function Without(pct: seq<Share>, l: Cell): (r: seq<Share>)
    ensures |r| <= |pct|
    ensures forall i :: 0 <= i < |r| ==> r[i].answer != l
  {
    if pct == [] then []
    else (if pct[0].answer == l then [] else [pct[0]]) + Without(pct[1..], l)
  }

  /** pct[label] for a present label: the first entry carrying it. */
  function ShareOf(pct: seq<Share>, l: Cell): (v: nat)
    requires l in Map(pct, ShareLabel)
    ensures exists i :: 0 <= i < |pct| && pct[i].answer == l && pct[i].hundredths == v
  {
    if pct[0].answer == l then pct[0].hundredths
    else
      assert Map(pct, ShareLabel) == [pct[0].answer] + Map(pct[1..], ShareLabel);
      var v := ShareOf(pct[1..], l);
      assert exists i :: 1 <= i < |pct| && pct[i].answer == l && pct[i].hundredths == v by {
        var i :| 0 <= i < |pct[1..]| && pct[1..][i].answer == l && pct[1..][i].hundredths == v;
        assert pct[i + 1] == pct[1..][i];
      }
      v
  }

  /**
   * The order in which the summary writes percentages: when label l is
   * present it is dropped and appended once at the end, everything else
   * keeping its order.
   */
  function OthersLast(pct: seq<Share>, l: Cell): (r: seq<Share>)
  {
    if l in Map(pct, ShareLabel) then Without(pct, l) + [Share(l, ShareOf(pct, l))]
    else pct
  }

  /**
   * With distinct labels, moving "Outros" takes its entry out of its place
   * and puts it last, the others keeping their order.
   */
  lemma OthersLastMoves(pct: seq<Share>, l: Cell, k: nat)
    requires DistinctBy(pct, ShareLabel) && k < |pct| && pct[k].answer == l
    ensures OthersLast(pct, l) == pct[..k] + pct[k + 1..] + [pct[k]]
  {
    assert Map(pct, ShareLabel)[k] == l;
    ShareOfDistinct(pct, l, k);
    WithoutDropsOne(pct, l, k);
  }

  lemma ShareOfDistinct(pct: seq<Share>, l: Cell, k: nat)
    requires DistinctBy(pct, ShareLabel) && k < |pct| && pct[k].answer == l
    ensures l in Map(pct, ShareLabel) && ShareOf(pct, l) == pct[k].hundredths
  {
    assert Map(pct, ShareLabel)[k] == l;
  }

  lemma {:induction false} WithoutDropsOne(pct: seq<Share>, l: Cell, k: nat)
    requires DistinctBy(pct, ShareLabel) && k < |pct| && pct[k].answer == l
    ensures Without(pct, l) == pct[..k] + pct[k + 1..]
  {
    if k == 0 {
      WithoutAbsent(pct[1..], l);
    } else {
      assert DistinctBy(pct[1..], ShareLabel);
      WithoutDropsOne(pct[1..], l, k - 1);
      assert ShareLabel(pct[0]) != ShareLabel(pct[k]);
      assert pct[1..][..k - 1] == pct[1..k];
    }
  }

  lemma {:induction false} WithoutAbsent(pct: seq<Share>, l: Cell)
    requires forall i :: 0 <= i < |pct| ==> pct[i].answer != l
    ensures Without(pct, l) == pct
  {
    if pct != [] {
      WithoutAbsent(pct[1..], l);
    }
  }

  /** Moving "Outros" neither adds nor loses a percentage. */
  lemma OthersLastPermutation(pct: seq<Share>, l: Cell)
    requires DistinctBy(pct, ShareLabel)
    ensures multiset(OthersLast(pct, l)) == multiset(pct)
  {
    if l in Map(pct, ShareLabel) {
      var k :| 0 <= k < |pct| && Map(pct, ShareLabel)[k] == l;
      OthersLastMoves(pct, l, k);
      MoveToEndPermutation(pct, k);
    }
  }

  /** Without an "Outros" entry the list is written as sorted. */
  lemma OthersLastAbsent(pct: seq<Share>, l: Cell)
    requires forall i :: 0 <= i < |pct| ==> pct[i].answer != l
    ensures OthersLast(pct, l) == pct
  {
  }
}
