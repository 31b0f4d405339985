/**
 * The questionnaire generator (create_survey.py): a Word document made
 * from a sheet whose columns 0 to 3 hold, per row, the question number,
 * the section, the question text and its answer choices.
 *
 * The document is the sheet title, the introduction, the first section,
 * and then for every row a section paragraph when the section changes, the
 * numbered question and its answer choices.
 */
module SurveyDoc {
  import opened Cells
  import opened Seqs
  import opened Docx

  /** The section of row i (column 1). */
  function Section(df: Frame, i: nat): Cell
    requires i < |df.rows|
  {
    At(df.rows[i], 1)
  }

  /** f"{order}) {question}" for row i. */
  function QuestionLine(df: Frame, i: nat): string
    requires i < |df.rows|
  {
    CellText(At(df.rows[i], 0)) + ") " + CellText(At(df.rows[i], 2))
  }

  /** f"{answers}" for row i, after fillna(''): a missing cell gives the empty text. */
  function AnswersText(df: Frame, i: nat): string
    requires i < |df.rows|
  {
    var c := At(df.rows[i], 3);
    if c.Missing? then "" else CellText(c)
  }

  /**
   * The section shown before row i is read: the first row's section for
   * row 0, otherwise the section of the row before.
   */
  function SectionBefore(df: Frame, i: nat): Cell
    requires i < |df.rows|
  {
    if i == 0 then Section(df, 0) else Section(df, i - 1)
  }

  /** Row i starts a new section. */
  predicate Changes(df: Frame, i: nat)
    requires i < |df.rows|
  {
    Section(df, i) != SectionBefore(df, i)
  }

  /**
   * The paragraph texts of row i: its section when the section changes,
   * then the numbered question and its answers.
   */
  function RowTexts(df: Frame, i: nat): seq<string>
    requires i < |df.rows|
  {
    SectionTexts(df, i) + [QuestionLine(df, i), AnswersText(df, i)]
  }

  /** The section paragraph of row i: present exactly when the section changes. */
  function SectionTexts(df: Frame, i: nat): seq<string>
    requires i < |df.rows|
  {
    if Changes(df, i) then [CellText(Section(df, i))] else []
  }

  /** add_paragraph needs text: every section cell holds a string. */
  predicate SectionsAreText(df: Frame) {
    forall i :: 0 <= i < |df.rows| ==> At(df.rows[i], 1).Str?
  }

  /** The paragraph texts of the first n rows. */
  function BodyTexts(df: Frame, n: nat): seq<string>
    requires n <= |df.rows|
  {
    if n == 0 then [] else BodyTexts(df, n - 1) + RowTexts(df, n - 1)
  }

  /** The three opening paragraphs: the title (the first header), the introduction and the first section. */
  function Opening(df: Frame, intro: string): seq<string>
    requires |df.headers| >= 1 && |df.rows| >= 1
  {
    [df.headers[0], intro, CellText(Section(df, 0))]
  }

  /** The texts of all the paragraphs of the document, in order. */
  function SurveyTexts(df: Frame, intro: string): seq<string>
    requires |df.headers| >= 4 && |df.rows| >= 1
  {
    Opening(df, intro) + BodyTexts(df, |df.rows|)
  }

  /** One plain paragraph per text. */
  function Paragraphs(texts: seq<string>): seq<DocBlock> {
    Map(texts, TextParagraph)
  }

  /** Every block is a paragraph that reads back as its text. */
  lemma ParagraphsText(texts: seq<string>)
    ensures |Paragraphs(texts)| == |texts|
    ensures forall k :: 0 <= k < |texts| ==>
      Paragraphs(texts)[k].Paragraph? && RunsText(Paragraphs(texts)[k].runs) == texts[k]
  {
    forall k | 0 <= k < |texts|
      ensures Paragraphs(texts)[k].Paragraph? && RunsText(Paragraphs(texts)[k].runs) == texts[k]
    {
      TextParagraphText(texts[k]);
    }
  }

  /** The number of rows among the first n that start a new section. */
  function ChangeCount(df: Frame, n: nat): nat
    requires n <= |df.rows|
  {
    if n == 0 then 0 else ChangeCount(df, n - 1) + (if Changes(df, n - 1) then 1 else 0)
  }

  /** Every row gives two paragraphs, and one more when it starts a new section. */
  lemma {:induction false} BodyLength(df: Frame, n: nat)
    requires n <= |df.rows|
    ensures |BodyTexts(df, n)| == 2 * n + ChangeCount(df, n)
  {
    if n > 0 {
      BodyLength(df, n - 1);
    }
  }

  /**
   * The document has 3 + 2 * rows + section changes paragraphs; the first
   * row never counts as a change.
   */
  lemma SurveyLength(df: Frame, intro: string)
    requires |df.headers| >= 4 && |df.rows| >= 1
    ensures |Paragraphs(SurveyTexts(df, intro))| == 3 + 2 * |df.rows| + ChangeCount(df, |df.rows|)
    ensures !Changes(df, 0)
  {
    BodyLength(df, |df.rows|);
  }

  /** The paragraphs of the rows before i + 1 come first. */
  lemma {:induction false} BodyPrefix(df: Frame, i: nat, n: nat)
    requires i < n <= |df.rows|
    ensures BodyTexts(df, i + 1) <= BodyTexts(df, n)
  {
    if n > i + 1 {
      BodyPrefix(df, i, n - 1);
    }
  }

  /** The position of row i's question paragraph: after the opening, the rows before and its own section paragraph. */
  function QuestionAt(df: Frame, i: nat): nat
    requires i < |df.rows|
  {
    3 + |BodyTexts(df, i)| + (if Changes(df, i) then 1 else 0)
  }

  /**
   * Row i's paragraphs sit right after those of the rows before it: the
   * section (exactly when it changes), then the numbered question, then
   * the answers.
   */
  lemma RowInDocument(df: Frame, intro: string, i: nat, texts: seq<string>)
    requires |df.headers| >= 4 && i < |df.rows|
    requires texts == SurveyTexts(df, intro)
    ensures QuestionAt(df, i) + 2 <= |texts|
    ensures Changes(df, i) ==> texts[QuestionAt(df, i) - 1] == CellText(Section(df, i))
    ensures texts[QuestionAt(df, i)] == QuestionLine(df, i)
    ensures texts[QuestionAt(df, i) + 1] == AnswersText(df, i)
  {
    BodyPrefix(df, i, |df.rows|);
    RowTextsCases(df, i);
    var before := Opening(df, intro) + BodyTexts(df, i);
    var row := RowTexts(df, i);
    assert before + row == Opening(df, intro) + BodyTexts(df, i + 1);
    var start := QuestionAt(df, i);
    assert start + 2 <= |before + row|;
    PrefixAt(before + row, texts, start);
    PrefixAt(before + row, texts, start + 1);
    if Changes(df, i) {
      PrefixAt(before + row, texts, start - 1);
    }
  }

  lemma PrefixAt(p: seq<string>, s: seq<string>, k: nat)
    requires p <= s && k < |p|
    ensures k < |s| && s[k] == p[k]
  {
  }

  /** The two shapes of a row's paragraphs. */
  lemma RowTextsCases(df: Frame, i: nat)
    requires i < |df.rows|
    ensures Changes(df, i) ==> RowTexts(df, i) == [CellText(Section(df, i)), QuestionLine(df, i), AnswersText(df, i)]
    ensures !Changes(df, i) ==> RowTexts(df, i) == [QuestionLine(df, i), AnswersText(df, i)]
  {
  }

  /** add_paragraph of a text extends the paragraphs of the texts before it. */
  lemma AddParagraphStep(done: seq<string>, t: string, blocks: seq<DocBlock>)
    requires blocks == Paragraphs(done) + [TextParagraph(t)]
    ensures blocks == Paragraphs(done + [t])
  {
    MapSnoc(done, t, TextParagraph);
  }

  /** The section check of one pass: a paragraph for the new section when it differs from the current one. */
  method AddSection(doc: Document, df: Frame, i: nat, current: Cell, ghost done: seq<string>)
    returns (next: Cell, ghost texts: seq<string>)
    requires i < |df.rows| && Section(df, i).Str?
    requires current == SectionBefore(df, i)
    requires doc.blocks == Paragraphs(done)
    modifies doc
    ensures next == Section(df, i)
    ensures texts == done + SectionTexts(df, i)
    ensures doc.blocks == Paragraphs(texts)
  {
    next := current;
    texts := done;
    if current != Section(df, i) {
      next := Section(df, i);
      doc.AddParagraph(next.s);
      AddParagraphStep(texts, next.s, doc.blocks);
      texts := texts + [next.s];
    } else {
      AppendEmpty(done);
    }
  }

  /** One pass of the loop: the section paragraph when it changes, then the question and the answers. */
  method AddRow(doc: Document, df: Frame, i: nat, current: Cell, ghost done: seq<string>) returns (next: Cell)
    requires i < |df.rows| && Section(df, i).Str?
    requires current == SectionBefore(df, i)
    requires doc.blocks == Paragraphs(done)
    modifies doc
    ensures next == Section(df, i)
    ensures doc.blocks == Paragraphs(done + RowTexts(df, i))
  {
    ghost var texts;
    next, texts := AddSection(doc, df, i, current, done);
    var question := QuestionLine(df, i);
    var answers := AnswersText(df, i);
    doc.AddParagraph(question);
    AddParagraphStep(texts, question, doc.blocks);
    doc.AddParagraph(answers);
    AddParagraphStep(texts + [question], answers, doc.blocks);
    assert texts + [question] + [answers] == done + RowTexts(df, i);
  }

  /** The generator: title, introduction, first section, then the loop over the rows. */
  method CreateSurvey(df: Frame, intro: string) returns (doc: Document)
    requires |df.headers| >= 4 && |df.rows| >= 1 && SectionsAreText(df)
    ensures fresh(doc)
    ensures doc.blocks == Paragraphs(SurveyTexts(df, intro))
  {
    doc := new Document();
    assert doc.blocks == Paragraphs([]);
    doc.AddParagraph(df.headers[0]);
    AddParagraphStep([], df.headers[0], doc.blocks);
    doc.AddParagraph(intro);
    AddParagraphStep([df.headers[0]], intro, doc.blocks);
    var current := Section(df, 0);
    doc.AddParagraph(current.s);
    AddParagraphStep([df.headers[0], intro], current.s, doc.blocks);
    ghost var done := Opening(df, intro);
    var i := 0;
    while i < |df.rows|
      invariant 0 <= i <= |df.rows|
      invariant done == Opening(df, intro) + BodyTexts(df, i)
      invariant doc.blocks == Paragraphs(done)
      invariant i < |df.rows| ==> current == SectionBefore(df, i)
    {
      assert Section(df, i).Str?;
      current := AddRow(doc, df, i, current, done);
      AppendAssociative(Opening(df, intro), BodyTexts(df, i), RowTexts(df, i));
      done := done + RowTexts(df, i);
      i := i + 1;
    }
  }
}
