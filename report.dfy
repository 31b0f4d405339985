/**
 * The diagnosis report (generate_report.py): a Word document built from a
 * markdown outline. Blank lines are skipped, "# ", "## " and "### " lines
 * become headings, and every other line becomes a markdown paragraph; a
 * paragraph that starts by naming a spreadsheet column ("- B: ...") is
 * followed by that column's chart when the chart directory holds one.
 *
 * The directory listing (os.listdir order) and the outline text are
 * parameters; the language model that would write the outline is not
 * part of this model.
 */
module Report {
  import opened Text
  import opened Seqs
  import opened Docx
  import opened Markdown

  // ---------------------------------------------------------------------
  // The column reference [-•\s]*\*{0,2}([A-Z]{1,3})\*{0,2}\s*[:—\-–]
  // ---------------------------------------------------------------------

  /** [-•\s]: a dash, a bullet or whitespace. */
  predicate IsLead(c: char) {
    c == '-' || c == '\U{2022}' || IsSpace(c)
  }

  predicate IsStar(c: char) {
    c == '*'
  }

  /** [:—\-–]: a colon, an em dash, a hyphen or an en dash. */
  predicate IsSeparator(c: char) {
    c == ':' || c == '\U{2014}' || c == '-' || c == '\U{2013}'
  }

  /** All of s[a..b] satisfy p. */
  predicate AllIn(s: string, a: int, b: int, p: char -> bool) {
    0 <= a <= b <= |s| && forall x :: a <= x < b ==> p(s[x])
  }

  /** A greedy quantifier: the number of leading characters of s satisfying p, at most max. */
  function Span(s: string, p: char -> bool, max: nat): (n: nat)
    ensures n <= max && n <= |s|
  {
    if max == 0 || s == [] || !p(s[0]) then 0 else 1 + Span(s[1..], p, max - 1)
  }

  /** The span is as long as it can be: all its characters satisfy p, and it stops only at the bound or at a character that does not. */
  lemma {:induction false} SpanFacts(s: string, p: char -> bool, max: nat)
    ensures forall x :: 0 <= x < Span(s, p, max) ==> p(s[x])
    ensures Span(s, p, max) < max && Span(s, p, max) < |s| ==> !p(s[Span(s, p, max)])
  {
    if max > 0 && s != [] && p(s[0]) {
      SpanFacts(s[1..], p, max - 1);
      forall x | 0 < x < Span(s, p, max) ensures p(s[x]) {
        assert s[x] == s[1..][x - 1];
      }
    }
  }

  /** The position a greedy quantifier reaches from `from`: its span of characters satisfying p, at most max of them. */
  function Skip(line: string, from: nat, p: char -> bool, max: nat): (to: nat)
    requires from <= |line|
    ensures from <= to <= |line| && to - from <= max
  {
    from + Span(line[from..], p, max)
  }

  /** The greedy quantifier stops at `to` exactly when line[from..to] satisfies p and cannot be extended. */
  lemma SkipAt(line: string, from: nat, p: char -> bool, max: nat, to: nat)
    requires AllIn(line, from, to, p) && to - from <= max
    requires to - from < max && to < |line| ==> !p(line[to])
    ensures Skip(line, from, p, max) == to
  {
    var t := line[from..];
    SpanFacts(t, p, max);
    assert forall x :: 0 <= x < |t| ==> t[x] == line[from + x];
  }

  /** What Skip passes over satisfies p. */
  lemma SkipRange(line: string, from: nat, p: char -> bool, max: nat)
    requires from <= |line|
    ensures AllIn(line, from, Skip(line, from, p, max), p)
  {
    SpanFacts(line[from..], p, max);
    forall x | from <= x < Skip(line, from, p, max) ensures p(line[x]) {
      assert line[from..][x - from] == line[x];
    }
  }

  /** The separator test after the capitals that end at k: stars, spaces, then one of [:—\-–]. */
  predicate SeparatorAfter(line: string, k: nat)
    requires k <= |line|
  {
    var m := Skip(line, Skip(line, k, IsStar, 2), IsSpace, |line|);
    m < |line| && IsSeparator(line[m])
  }

  /** The capitals from j on, when the separator test passes after them. */
  function LettersAt(line: string, j: nat): Option<string>
    requires j <= |line|
  {
    var k := Skip(line, j, IsAsciiUpper, 3);
    if j < k && SeparatorAfter(line, k) then Some(line[j..k]) else None
  }

  /**
   * re.match of the pattern at the start of the line: every quantifier is
   * greedy, and giving characters back never helps, because each class
   * excludes the characters that may follow it.
   */
  function ColumnLetter(line: string): Option<string> {
    LettersAt(line, Skip(line, Skip(line, 0, IsLead, |line|), IsStar, 2))
  }

  /**
   * The line reads as the pattern: leading dashes, bullets and spaces, up
   * to two stars, one to three capitals (line[j..k]), up to two stars,
   * spaces, then a separator.
   */
  predicate Decomposes(line: string, i: int, j: int, k: int, l: int, m: int) {
    AllIn(line, 0, i, IsLead) && AllIn(line, i, j, IsStar) && j - i <= 2
    && AllIn(line, j, k, IsAsciiUpper) && 1 <= k - j <= 3
    && AllIn(line, k, l, IsStar) && l - k <= 2
    && AllIn(line, l, m, IsSpace) && m < |line| && IsSeparator(line[m])
  }

  /** Any reading of the line as the pattern is the one the greedy scan finds. */
  lemma GreedyReading(line: string, i: nat, j: nat, k: nat, l: nat, m: nat)
    requires Decomposes(line, i, j, k, l, m)
    ensures ColumnLetter(line) == Some(line[j..k])
  {
    SkipAt(line, 0, IsLead, |line|, i);
    SkipAt(line, i, IsStar, 2, j);
    SkipAt(line, j, IsAsciiUpper, 3, k);
    SkipAt(line, k, IsStar, 2, l);
    SkipAt(line, l, IsSpace, |line|, m);
    assert SeparatorAfter(line, k);
  }

  /** The greedy scan's answer is a reading of the line as the pattern. */
  lemma ScanReading(line: string)
    requires ColumnLetter(line).Some?
    ensures exists i, j, k, l, m :: Decomposes(line, i, j, k, l, m) && line[j..k] == ColumnLetter(line).value
  {
    var i := Skip(line, 0, IsLead, |line|);
    var j := Skip(line, i, IsStar, 2);
    var k := Skip(line, j, IsAsciiUpper, 3);
    var l := Skip(line, k, IsStar, 2);
    var m := Skip(line, l, IsSpace, |line|);
    SkipRange(line, 0, IsLead, |line|);
    SkipRange(line, i, IsStar, 2);
    SkipRange(line, j, IsAsciiUpper, 3);
    SkipRange(line, k, IsStar, 2);
    SkipRange(line, l, IsSpace, |line|);
    assert Decomposes(line, i, j, k, l, m);
  }

  /** The regex matches exactly when the line reads as the pattern, and the group is the capitals. */
  lemma ColumnLetterSpec(line: string, letters: string)
    ensures ColumnLetter(line) == Some(letters) <==>
      exists i, j, k, l, m :: Decomposes(line, i, j, k, l, m) && line[j..k] == letters
  {
    if ColumnLetter(line) == Some(letters) {
      ScanReading(line);
    }
    if exists i, j, k, l, m :: Decomposes(line, i, j, k, l, m) && line[j..k] == letters {
      var i, j, k, l, m :| Decomposes(line, i, j, k, l, m) && line[j..k] == letters;
      GreedyReading(line, i, j, k, l, m);
    }
  }

  // ---------------------------------------------------------------------
  // insert_chart_for_column
  // ---------------------------------------------------------------------

  /** The default chart directory. */
  const ChartsDir: string := "charts"

  /** The file-name part that marks the chart of a column. */
  function ChartSuffix(letter: string): string {
    "_column" + letter + ".jpg"
  }

  /** os.path.join(charts_dir, name). */
  function ChartPath(name: string): string {
    ChartsDir + "/" + name
  }

  /** The position of the first listed file, from `from` on, whose name contains the suffix. */
  function FirstChart(files: seq<string>, suffix: string, from: nat): (r: Option<nat>)
    ensures r.Some? ==> from <= r.value < |files|
    decreases |files| - from
  {
    if from >= |files| then None
    else if Contains(files[from], suffix) then Some(from)
    else FirstChart(files, suffix, from + 1)
  }

  /** The first match is a match with none before it; no match means no listed file contains the suffix. */
  lemma {:induction false} FirstChartSpec(files: seq<string>, suffix: string, from: nat)
    ensures FirstChart(files, suffix, from).Some? ==>
      from <= FirstChart(files, suffix, from).value < |files|
      && Contains(files[FirstChart(files, suffix, from).value], suffix)
      && forall x :: from <= x < FirstChart(files, suffix, from).value ==> !Contains(files[x], suffix)
    ensures FirstChart(files, suffix, from).None? ==>
      forall x :: from <= x < |files| ==> !Contains(files[x], suffix)
    decreases |files| - from
  {
    if from < |files| && !Contains(files[from], suffix) {
      FirstChartSpec(files, suffix, from + 1);
    }
  }

  /** The picture insert_chart_for_column adds: the first chart of the column, if any. */
  function ChartBlocks(files: seq<string>, letter: string): seq<DocBlock> {
    match FirstChart(files, ChartSuffix(letter), 0)
    case Some(x) => [Picture(ChartPath(files[x]))]
    case None => []
  }

  /** insert_chart_for_column: the first listed file of the column becomes a picture; the result says whether one existed. */
  method InsertChartForColumn(doc: Document, letter: string, files: seq<string>) returns (inserted: bool)
    modifies doc
    ensures inserted <==> FirstChart(files, ChartSuffix(letter), 0).Some?
    ensures doc.blocks == old(doc.blocks) + ChartBlocks(files, letter)
  {
    var suffix := ChartSuffix(letter);
    var i := 0;
    while i < |files|
      invariant 0 <= i <= |files|
      invariant FirstChart(files, suffix, i) == FirstChart(files, suffix, 0)
      invariant doc.blocks == old(doc.blocks)
    {
      if Contains(files[i], suffix) {
        doc.AddPicture(ChartPath(files[i]));
        return true;
      }
      i := i + 1;
    }
    AppendEmpty(doc.blocks);
    return false;
  }

  // ---------------------------------------------------------------------
  // The outline
  // ---------------------------------------------------------------------

  /** The level-0 title heading. */
  const Title: string := "Roteiro de Diagn\U{00F3}stico de Internacionaliza\U{00E7}\U{00E3}o"

  /** The chart after a paragraph: only when the stripped line names a column. */
  function LineChart(clean: string, files: seq<string>): seq<DocBlock> {
    match ColumnLetter(clean)
    case Some(letter) => ChartBlocks(files, letter)
    case None => []
  }

  /** What an outline line is, decided on the raw line: the prefixes are looked at before stripping. */
  datatype LineKind =
    | Skipped
    | HeadingLine(text: string, level: nat)
    | BodyLine(clean: string)

  /** The dispatch of one outline line: blank, "# ", "## ", "### ", otherwise a stripped body line. */
  function Kind(line: string): LineKind {
    if Strip(line) == "" then Skipped
    else if StartsWith(line, "# ") then HeadingLine(line[2..], 1)
    else if StartsWith(line, "## ") then HeadingLine(line[3..], 2)
    else if StartsWith(line, "### ") then HeadingLine(line[4..], 3)
    else BodyLine(Strip(line))
  }

  /** The blocks of one kind of line: nothing, a heading, or a markdown paragraph and its chart. */
  function KindBlocks(kind: LineKind, files: seq<string>): seq<DocBlock> {
    match kind
    case Skipped => []
    case HeadingLine(text, level) => [Heading(text, level)]
    case BodyLine(clean) => [Paragraph(MarkdownRuns(clean))] + LineChart(clean, files)
  }

  /** The blocks one outline line adds. */
  function LineBlocks(line: string, files: seq<string>): seq<DocBlock> {
    KindBlocks(Kind(line), files)
  }

  /** The blocks of the first lines of the outline, in order. */
  function OutlineBlocks(lines: seq<string>, files: seq<string>): seq<DocBlock> {
    if lines == [] then []
    else OutlineBlocks(lines[..|lines| - 1], files) + LineBlocks(lines[|lines| - 1], files)
  }

  /** The whole report: the title, then the outline split on "\n". */
  function ReportBlocks(outline: string, files: seq<string>): seq<DocBlock> {
    [Heading(Title, 0)] + OutlineBlocks(Split(outline, '\n'), files)
  }

  /** n hash marks and a space: the markdown heading prefix of level n. */
  function HeadingMarker(n: nat): string {
    if n <= 1 then "# " else "#" + HeadingMarker(n - 1)
  }

  /** A line is skipped exactly when it is all whitespace, and a skipped line adds nothing. */
  lemma BlankLine(line: string, files: seq<string>)
    ensures Kind(line) == Skipped <==> forall x :: 0 <= x < |line| ==> IsSpace(line[x])
    ensures Kind(line) == Skipped ==> LineBlocks(line, files) == []
  {
    StripEmptyIffBlank(line);
    if Strip(line) == "" {
      assert Kind(line) == Skipped;
    } else {
      assert Kind(line) != Skipped;
    }
  }

  lemma HeadingMarkers()
    ensures HeadingMarker(1) == "# " && HeadingMarker(2) == "## " && HeadingMarker(3) == "### "
  {
  }

  /** A line that starts with "#" is not blank. */
  lemma HashLineNotBlank(line: string)
    requires |line| > 0 && line[0] == '#'
    ensures Strip(line) != ""
  {
    StripEmptyIffBlank(line);
    assert !IsSpace(line[0]);
  }

  /** The heading branches are exclusive: a line starts with at most one of the three markers. */
  lemma MarkersExclusive(line: string)
    ensures StartsWith(line, "## ") ==> !StartsWith(line, "# ")
    ensures StartsWith(line, "### ") ==> !StartsWith(line, "# ") && !StartsWith(line, "## ")
  {
    if StartsWith(line, "## ") {
      assert line[1] == "## "[1];
    }
    if StartsWith(line, "### ") {
      assert line[1] == "### "[1];
      assert line[2] == "### "[2];
    }
  }

  /** The "# " branch of the dispatch. */
  lemma HeadingOne(line: string)
    requires StartsWith(line, "# ")
    ensures Kind(line) == HeadingLine(line[2..], 1)
  {
    assert line[0] == '#';
    HashLineNotBlank(line);
  }

  /** The "## " branch of the dispatch. */
  lemma HeadingTwo(line: string)
    requires StartsWith(line, "## ")
    ensures Kind(line) == HeadingLine(line[3..], 2)
  {
    assert line[0] == '#';
    HashLineNotBlank(line);
    MarkersExclusive(line);
  }

  /** The "### " branch of the dispatch. */
  lemma HeadingThree(line: string)
    requires StartsWith(line, "### ")
    ensures Kind(line) == HeadingLine(line[4..], 3)
  {
    assert line[0] == '#';
    HashLineNotBlank(line);
    MarkersExclusive(line);
  }

  /** A line that starts with the level-n marker is a level-n heading of the rest of the line. */
  lemma HeadingLineIf(line: string, n: nat)
    requires 1 <= n <= 3 && StartsWith(line, HeadingMarker(n))
    ensures n < |line| && Kind(line) == HeadingLine(line[n + 1..], n)
  {
    HeadingMarkers();
    var rest := line[n + 1..];
    if n == 1 {
      HeadingOne(line);
      assert Kind(line) == HeadingLine(rest, 1);
    } else if n == 2 {
      HeadingTwo(line);
      assert Kind(line) == HeadingLine(rest, 2);
    } else {
      HeadingThree(line);
      assert Kind(line) == HeadingLine(rest, 3);
    }
  }

  /** Only a line that starts with the level-n marker is a level-n heading of the rest of the line. */
  lemma HeadingLineOnlyIf(line: string, n: nat)
    requires 1 <= n <= 3 && n < |line|
    requires Kind(line) == HeadingLine(line[n + 1..], n)
    ensures StartsWith(line, HeadingMarker(n))
  {
    HeadingMarkers();
    MarkersExclusive(line);
  }

  /**
   * The level-n marker makes exactly the level-n heading lines, and the
   * heading is the rest of the raw line.
   */
  lemma HeadingRule(line: string, files: seq<string>, n: nat)
    requires 1 <= n <= 3
    ensures StartsWith(line, HeadingMarker(n)) <==>
      n < |line| && Kind(line) == HeadingLine(line[n + 1..], n)
    ensures StartsWith(line, HeadingMarker(n)) ==> LineBlocks(line, files) == [Heading(line[n + 1..], n)]
  {
    if StartsWith(line, HeadingMarker(n)) {
      HeadingLineIf(line, n);
    }
    if n < |line| && Kind(line) == HeadingLine(line[n + 1..], n) {
      HeadingLineOnlyIf(line, n);
    }
  }

  /** Any other non-blank line is stripped and becomes a paragraph, with the chart of the column it names after it. */
  lemma BodyRule(line: string, files: seq<string>)
    requires exists x :: 0 <= x < |line| && !IsSpace(line[x])
    requires forall n :: 1 <= n <= 3 ==> !StartsWith(line, HeadingMarker(n))
    ensures Kind(line) == BodyLine(Strip(line))
    ensures LineBlocks(line, files) == [Paragraph(MarkdownRuns(Strip(line)))] + LineChart(Strip(line), files)
  {
    StripEmptyIffBlank(line);
    HeadingMarkers();
    assert !StartsWith(line, HeadingMarker(1));
    assert !StartsWith(line, HeadingMarker(2));
    assert !StartsWith(line, HeadingMarker(3));
  }

  /**
   * A picture placed by a body line: the block before it is the markdown
   * paragraph of a line whose column letter found exactly that chart.
   */
  ghost predicate ChartFollows(prev: DocBlock, pic: DocBlock, files: seq<string>) {
    exists clean :: prev == Paragraph(MarkdownRuns(clean)) && LineChart(clean, files) == [pic]
  }

  /** No level-0 heading, headings of levels 1 to 3 only, and every picture right after the paragraph that named its column. */
  ghost predicate WellFormedBody(blocks: seq<DocBlock>, files: seq<string>) {
    (forall x :: 0 <= x < |blocks| && blocks[x].Heading? ==> 1 <= blocks[x].level <= 3)
    && (forall x :: 0 <= x < |blocks| && blocks[x].Picture? ==> 0 < x && ChartFollows(blocks[x - 1], blocks[x], files))
  }

  /** A chart adds at most one block, and it is a picture. */
  lemma LineChartShape(clean: string, files: seq<string>)
    ensures |LineChart(clean, files)| <= 1
    ensures forall x :: 0 <= x < |LineChart(clean, files)| ==> LineChart(clean, files)[x].Picture?
  {
  }

  lemma ParagraphWellFormed(clean: string, files: seq<string>)
    ensures WellFormedBody([Paragraph(MarkdownRuns(clean))] + LineChart(clean, files), files)
  {
    var chart := LineChart(clean, files);
    var blocks := [Paragraph(MarkdownRuns(clean))] + chart;
    LineChartShape(clean, files);
    if |chart| == 1 {
      assert chart == [blocks[1]];
      assert ChartFollows(blocks[0], blocks[1], files);
    }
  }

  /** The dispatch only makes headings of levels 1 to 3. */
  lemma KindLevel(line: string)
    ensures Kind(line).HeadingLine? ==> 1 <= Kind(line).level <= 3
  {
  }

  lemma KindWellFormed(kind: LineKind, files: seq<string>)
    requires kind.HeadingLine? ==> 1 <= kind.level <= 3
    ensures WellFormedBody(KindBlocks(kind, files), files)
    ensures |KindBlocks(kind, files)| > 0 ==> !KindBlocks(kind, files)[0].Picture?
  {
    if kind.BodyLine? {
      ParagraphWellFormed(kind.clean, files);
    }
  }

  lemma LineWellFormed(line: string, files: seq<string>)
    ensures WellFormedBody(LineBlocks(line, files), files)
    ensures |LineBlocks(line, files)| > 0 ==> !LineBlocks(line, files)[0].Picture?
  {
    KindLevel(line);
    KindWellFormed(Kind(line), files);
  }

  lemma WellFormedAppend(a: seq<DocBlock>, b: seq<DocBlock>, files: seq<string>)
    requires WellFormedBody(a, files) && WellFormedBody(b, files)
    requires |b| > 0 ==> !b[0].Picture?
    ensures WellFormedBody(a + b, files)
  {
    var c := a + b;
    forall x | 0 <= x < |c| && c[x].Picture?
      ensures 0 < x && ChartFollows(c[x - 1], c[x], files)
    {
      if x >= |a| {
        assert c[x] == b[x - |a|];
        assert c[x - 1] == b[x - 1 - |a|];
      } else {
        assert c[x] == a[x] && c[x - 1] == a[x - 1];
      }
    }
  }

  lemma {:induction false} OutlineWellFormed(lines: seq<string>, files: seq<string>)
    ensures WellFormedBody(OutlineBlocks(lines, files), files)
  {
    if lines != [] {
      OutlineWellFormed(lines[..|lines| - 1], files);
      LineWellFormed(lines[|lines| - 1], files);
      WellFormedAppend(OutlineBlocks(lines[..|lines| - 1], files), LineBlocks(lines[|lines| - 1], files), files);
    }
  }

  /**
   * The report opens with the title, the only level-0 heading; every other
   * heading has level 1 to 3, and every chart directly follows the
   * paragraph of the line whose column letter picked it.
   */
  lemma ReportStructure(outline: string, files: seq<string>, blocks: seq<DocBlock>)
    requires blocks == ReportBlocks(outline, files)
    ensures blocks[0] == Heading(Title, 0)
    ensures forall x :: 0 < x < |blocks| && blocks[x].Heading? ==> 1 <= blocks[x].level <= 3
    ensures forall x :: 0 <= x < |blocks| && blocks[x].Picture? ==> 1 < x && ChartFollows(blocks[x - 1], blocks[x], files)
  {
    var body := OutlineBlocks(Split(outline, '\n'), files);
    OutlineWellFormed(Split(outline, '\n'), files);
    forall x | 0 < x < |blocks|
      ensures blocks[x] == body[x - 1]
    {
    }
  }

  /** A body line: the markdown paragraph, then the chart of the column it names. */
  method AddParagraphLine(doc: Document, clean: string, files: seq<string>)
    modifies doc
    ensures doc.blocks == old(doc.blocks) + ([Paragraph(MarkdownRuns(clean))] + LineChart(clean, files))
  {
    AddMarkdownParagraph(doc, clean);
    ghost var mid := doc.blocks;
    var letter := ColumnLetter(clean);
    if letter.Some? {
      var inserted := InsertChartForColumn(doc, letter.value, files);
    } else {
      AppendEmpty(mid);
    }
  }

  /** One outline line: skipped, a heading, or a markdown paragraph followed by its column's chart. */
  method AddLine(doc: Document, line: string, files: seq<string>)
    modifies doc
    ensures doc.blocks == old(doc.blocks) + LineBlocks(line, files)
  {
    var kind := Kind(line);
    match kind
    case Skipped =>
      AppendEmpty(doc.blocks);
    case HeadingLine(text, level) =>
      doc.AddHeading(text, level);
    case BodyLine(clean) =>
      AddParagraphLine(doc, clean, files);
  }

  lemma OutlineSnoc(lines: seq<string>, i: nat, files: seq<string>)
    requires i < |lines|
    ensures OutlineBlocks(lines[..i + 1], files) == OutlineBlocks(lines[..i], files) + LineBlocks(lines[i], files)
  {
    assert lines[..i + 1][..i] == lines[..i];
  }

  /** generate_diagnosis_report: the title heading, then one pass per outline line. */
  method GenerateReport(outline: string, files: seq<string>) returns (doc: Document)
    ensures fresh(doc)
    ensures doc.blocks == ReportBlocks(outline, files)
  {
    doc := new Document();
    doc.AddHeading(Title, 0);
    var lines := Split(outline, '\n');
    var i := 0;
    while i < |lines|
      invariant 0 <= i <= |lines|
      invariant doc.blocks == [Heading(Title, 0)] + OutlineBlocks(lines[..i], files)
    {
      AddLine(doc, lines[i], files);
      OutlineSnoc(lines, i, files);
      AppendAssociative([Heading(Title, 0)], OutlineBlocks(lines[..i], files), LineBlocks(lines[i], files));
      i := i + 1;
    }
    assert lines[..|lines|] == lines;
  }
}
