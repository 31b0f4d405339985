/**
 * The part of a Word document the scripts build: a document is the
 * sequence of blocks added to it, in order. Styles, sizes and page layout
 * are not modelled.
 */
module Docx {

  /** A run of text with its character formatting. */
  datatype Run = Run(text: string, bold: bool, italic: bool)

  datatype DocBlock =
    | Paragraph(runs: seq<Run>)
    | Heading(text: string, level: nat)
    | Picture(path: string)

  /** The text of a paragraph: its runs one after the other. */
  function RunsText(runs: seq<Run>): string {
    if runs == [] then [] else RunsText(runs[..|runs| - 1]) + runs[|runs| - 1].text
  }

  /** add_paragraph(text): one plain run holding the text, or no run at all for "". */
  function TextParagraph(text: string): DocBlock {
    Paragraph(if text == [] then [] else [Run(text, false, false)])
  }

  /** The paragraph add_paragraph makes reads back as the text it was given, in at most one run. */
  lemma TextParagraphText(text: string)
    ensures var b := TextParagraph(text); b.Paragraph? && RunsText(b.runs) == text && |b.runs| <= 1
  {
    var runs := TextParagraph(text).runs;
    assert runs == [] || runs[..0] == [];
  }

  class Document {
    var blocks: seq<DocBlock>

    /** Document(): an empty document. */
    constructor()
      ensures blocks == []
    {
      blocks := [];
    }

    method AddParagraph(text: string)
      modifies this
      ensures blocks == old(blocks) + [TextParagraph(text)]
    {
      blocks := blocks + [TextParagraph(text)];
    }

    method AddHeading(text: string, level: nat)
      modifies this
      ensures blocks == old(blocks) + [Heading(text, level)]
    {
      blocks := blocks + [Heading(text, level)];
    }

    /** add_picture(path, width): the width is not modelled. */
    method AddPicture(path: string)
      modifies this
      ensures blocks == old(blocks) + [Picture(path)]
    {
      blocks := blocks + [Picture(path)];
    }

    /** p.add_run() on the paragraph added last, with its text and formatting. */
    method AddRun(run: Run)
      requires blocks != [] && blocks[|blocks| - 1].Paragraph?
      modifies this
      ensures blocks == old(blocks)[..|old(blocks)| - 1] + [Paragraph(old(blocks)[|old(blocks)| - 1].runs + [run])]
    {
      var n := |blocks| - 1;
      blocks := blocks[..n] + [Paragraph(blocks[n].runs + [run])];
    }
  }
}
