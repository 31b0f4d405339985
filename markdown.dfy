/**
 * The inline markdown of the report generator (generate_report.py):
 * re.split on the pattern (\*\*.*?\*\*|__.*?__|\*.*?\*|_.*?_), the
 * classification of every token into a bold, italic or plain run, and
 * add_markdown_paragraph, which adds one paragraph holding those runs.
 *
 * The regex engine is modelled by what this one pattern does: at each
 * position the four alternatives are tried in order; each one is an
 * opening marker followed by the shortest stretch without a newline
 * ('.' does not match "\n") that ends in the same marker.
 */
module Markdown {
  import opened Text
  import opened Seqs
  import opened Docx

  // ---------------------------------------------------------------------
  // The regex
  // ---------------------------------------------------------------------

  /** No newline among s[a..b]. */
  predicate NoNewline(s: string, a: int, b: int) {
    0 <= a <= b <= |s| && forall i :: a <= i < b ==> s[i] != '\n'
  }

  /**
   * `.*?` followed by `delim`, from position `from`: the end of the first
   * delimiter reached before a newline, if any.
   */
  function CloseAt(s: string, from: nat, delim: string): (r: Option<nat>)
    requires |delim| > 0
    ensures r.Some? ==> from + |delim| <= r.value <= |s|
    decreases |s| - from
  {
    if from + |delim| > |s| then None
    else if s[from..from + |delim|] == delim then Some(from + |delim|)
    else if s[from] == '\n' then None
    else CloseAt(s, from + 1, delim)
  }

  /** The lazy match ends at the first closing delimiter, and nothing before it is a newline. */
  lemma {:induction false} CloseAtSome(s: string, from: nat, delim: string, e: nat)
    requires |delim| > 0 && CloseAt(s, from, delim) == Some(e)
    ensures SliceAt(s, delim, e - |delim|)
    ensures NoNewline(s, from, e - |delim|)
    ensures forall q :: from <= q < e - |delim| ==> !SliceAt(s, delim, q)
    decreases |s| - from
  {
    if s[from..from + |delim|] != delim {
      CloseAtSome(s, from + 1, delim, e);
    }
  }

  /** No match: every later delimiter has a newline before it. */
  lemma {:induction false} CloseAtNone(s: string, from: nat, delim: string)
    requires |delim| > 0 && CloseAt(s, from, delim) == None
    ensures forall q :: from <= q && SliceAt(s, delim, q) ==> !NoNewline(s, from, q)
    decreases |s| - from
  {
    if from + |delim| <= |s| {
      assert s[from..from + |delim|] != delim;
      if s[from] != '\n' {
        CloseAtNone(s, from + 1, delim);
      }
      forall q | from <= q && SliceAt(s, delim, q)
        ensures !NoNewline(s, from, q)
      {
        assert q != from;
      }
    }
  }

  /** One alternative `d.*?d` at position p: where its match ends. */
  function Delimited(s: string, p: nat, d: string): (r: Option<nat>)
    requires |d| > 0
    ensures r.Some? ==> p + 2 * |d| <= r.value <= |s|
  {
    if SliceAt(s, d, p) then CloseAt(s, p + |d|, d) else None
  }

  /** Where the pattern's match at position p ends: the alternatives in order. */
  function MatchAt(s: string, p: nat): (r: Option<nat>)
    ensures r.Some? ==> p + 2 <= r.value <= |s|
  {
    if Delimited(s, p, "**").Some? then Delimited(s, p, "**")
    else if Delimited(s, p, "__").Some? then Delimited(s, p, "__")
    else if Delimited(s, p, "*").Some? then Delimited(s, p, "*")
    else Delimited(s, p, "_")
  }

  /** A match of one alternative opens and closes with its delimiter's character. */
  lemma DelimitedShape(s: string, p: nat, d: string, e: nat)
    requires |d| > 0 && Delimited(s, p, d) == Some(e)
    ensures s[p] == d[0] && s[e - 1] == d[|d| - 1]
  {
    CloseAtSome(s, p + |d|, d, e);
    assert s[p..p + |d|][0] == s[p];
    assert s[e - |d|..e][|d| - 1] == s[e - 1];
  }

  /** A match starts and ends with the same marker character, '*' or '_'. */
  lemma MatchShape(s: string, p: nat, e: nat)
    requires MatchAt(s, p) == Some(e)
    ensures s[p] == s[e - 1] && (s[p] == '*' || s[p] == '_')
  {
    if Delimited(s, p, "**").Some? {
      DelimitedShape(s, p, "**", e);
    } else if Delimited(s, p, "__").Some? {
      DelimitedShape(s, p, "__", e);
    } else if Delimited(s, p, "*").Some? {
      DelimitedShape(s, p, "*", e);
    } else {
      DelimitedShape(s, p, "_", e);
    }
  }

  /**
   * re.split with one capture group, from position p with the plain text
   * pending since `start`: plain text and matches alternate, and the text
   * after the last match closes the list.
   */
  function Scan(s: string, start: nat, p: nat): seq<string>
    requires start <= p <= |s|
    decreases |s| - p
  {
    if p == |s| then [s[start..]]
    else match MatchAt(s, p)
      case Some(e) => [s[start..p], s[p..e]] + Scan(s, e, e)
      case None => Scan(s, start, p + 1)
  }

  /** The tokens of re.split(pattern, text). */
  function Tokens(text: string): seq<string> {
    Scan(text, 0, 0)
  }

  lemma {:induction false} ScanConcat(s: string, start: nat, p: nat)
    requires start <= p <= |s|
    ensures Flatten(Scan(s, start, p)) == s[start..]
    decreases |s| - p
  {
    if p == |s| {
      assert [s[start..]][1..] == [];
    } else {
      match MatchAt(s, p)
      case Some(e) =>
        ScanConcat(s, e, e);
        FlattenPair(s[start..p], s[p..e], Scan(s, e, e));
        assert s[start..p] + s[p..e] + s[e..] == s[start..];
      case None =>
        ScanConcat(s, start, p + 1);
    }
  }

  /** The tokens concatenate back to the input: nothing is lost or repeated. */
  lemma TokensConcat(text: string)
    ensures Flatten(Tokens(text)) == text
  {
    ScanConcat(text, 0, 0);
  }

  /** No match of the pattern starts at any position of t, read as the text of s from position `at`. */
  predicate PlainAt(s: string, at: nat, t: string) {
    forall q :: at <= q < at + |t| ==> MatchAt(s, q).None?
  }

  /**
   * The tokens read from position `at` of s split it the way a leftmost
   * scan does: plain text in which no match starts, then a match found
   * at the position right after it, then the same again from the end of
   * that match, and plain text to close.
   */
  predicate LeftmostSplit(s: string, at: nat, tokens: seq<string>)
    decreases |tokens|
  {
    |tokens| >= 1 && PlainAt(s, at, tokens[0]) &&
    (|tokens| == 1 ||
      (|tokens| >= 3 &&
       var m := at + |tokens[0]|;
       MatchAt(s, m) == Some(m + |tokens[1]|) &&
       LeftmostSplit(s, m + |tokens[1]|, tokens[2..])))
  }

  /** No match starts at any of the positions lo..hi-1. */
  predicate NoMatchBetween(s: string, lo: nat, hi: nat)
    decreases hi
  {
    hi <= lo || (NoMatchBetween(s, lo, hi - 1) && MatchAt(s, hi - 1).None?)
  }

  lemma {:induction false} NoMatchBetweenPlain(s: string, lo: nat, hi: nat)
    requires lo <= hi <= |s| && NoMatchBetween(s, lo, hi)
    ensures PlainAt(s, lo, s[lo..hi])
    decreases hi
  {
    if lo < hi {
      NoMatchBetweenPlain(s, lo, hi - 1);
      forall q | lo <= q < hi ensures MatchAt(s, q).None? {
        if q < hi - 1 {
          assert lo <= q < lo + |s[lo..hi - 1]|;
        }
      }
    }
  }

  lemma {:induction false} ScanLeftmost(s: string, start: nat, p: nat)
    requires start <= p <= |s|
    requires NoMatchBetween(s, start, p)
    ensures LeftmostSplit(s, start, Scan(s, start, p))
    decreases |s| - p
  {
    if p == |s| {
      NoMatchBetweenPlain(s, start, p);
      assert s[start..p] == s[start..];
    } else if MatchAt(s, p).Some? {
      var e := MatchAt(s, p).value;
      ScanLeftmost(s, e, e);
      LeftmostFound(s, start, p, e);
    } else {
      NoMatchBetweenSnoc(s, start, p);
      ScanLeftmost(s, start, p + 1);
      LeftmostSkip(s, start, p);
    }
  }

  /** A match at p: the plain text before it, the match, then the split from its end. */
  lemma LeftmostFound(s: string, start: nat, p: nat, e: nat)
    requires start <= p < |s| && NoMatchBetween(s, start, p) && MatchAt(s, p) == Some(e)
    requires LeftmostSplit(s, e, Scan(s, e, e))
    ensures LeftmostSplit(s, start, Scan(s, start, p))
  {
    var plain, m, rest := s[start..p], s[p..e], Scan(s, e, e);
    NoMatchBetweenPlain(s, start, p);
    LeftmostCons(s, start, plain, p, m, e, rest);
    assert Scan(s, start, p) == [plain, m] + rest;
  }

  /** No match at p: the scan moves on and the split is the same. */
  lemma LeftmostSkip(s: string, start: nat, p: nat)
    requires start <= p < |s| && MatchAt(s, p).None?
    requires LeftmostSplit(s, start, Scan(s, start, p + 1))
    ensures LeftmostSplit(s, start, Scan(s, start, p))
  {
    assert Scan(s, start, p) == Scan(s, start, p + 1);
  }

  lemma NoMatchBetweenSnoc(s: string, lo: nat, hi: nat)
    requires NoMatchBetween(s, lo, hi) && MatchAt(s, hi).None?
    ensures NoMatchBetween(s, lo, hi + 1)
  {
  }

  lemma LeftmostCons(s: string, at: nat, plain: string, p: nat, m: string, e: nat, rest: seq<string>)
    requires p == at + |plain| && e == p + |m|
    requires PlainAt(s, at, plain) && MatchAt(s, p) == Some(e) && LeftmostSplit(s, e, rest)
    ensures LeftmostSplit(s, at, [plain, m] + rest)
  {
    assert ([plain, m] + rest)[2..] == rest;
  }

  /**
   * re.split finds the matches from left to right without overlap: no match
   * starts inside a plain token, and each marked token is the match that
   * starts where the plain text before it ends.
   */
  lemma TokensLeftmost(text: string)
    ensures LeftmostSplit(text, 0, Tokens(text))
  {
    ScanLeftmost(text, 0, 0);
  }

  // ---------------------------------------------------------------------
  // Token classification
  // ---------------------------------------------------------------------

  /** token[n:-n]; Python gives "" when the two ends overlap. */
  function Inner(t: string, n: nat): string {
    if 2 * n <= |t| then t[n..|t| - n] else ""
  }

  /** The run of one token: the four marker forms tried in order, otherwise the token as it is. */
  function Classify(token: string): Run {
    if StartsWith(token, "**") && EndsWith(token, "**") then Run(Inner(token, 2), true, false)
    else if StartsWith(token, "__") && EndsWith(token, "__") then Run(Inner(token, 2), true, false)
    else if StartsWith(token, "*") && EndsWith(token, "*") then Run(Inner(token, 1), false, true)
    else if StartsWith(token, "_") && EndsWith(token, "_") then Run(Inner(token, 1), false, true)
    else Run(token, false, false)
  }

  predicate Styled(r: Run) {
    r.bold || r.italic
  }

  /**
   * Putting the markers back gives the token: a bold run lost a doubled
   * marker from each end, an italic run a single one, a plain run nothing
   * (and a plain token is not wrapped in one marker character).
   */
  lemma ClassifyInverse(t: string)
    ensures !(Classify(t).bold && Classify(t).italic)
    ensures Classify(t).bold && |t| >= 4 ==>
      (t[..2] == "**" || t[..2] == "__") && t == t[..2] + Classify(t).text + t[..2]
    ensures Classify(t).italic && |t| >= 2 ==>
      (t[0] == '*' || t[0] == '_') && t == [t[0]] + Classify(t).text + [t[0]]
    ensures !Styled(Classify(t)) ==>
      Classify(t).text == t && !(StartsWith(t, "*") && EndsWith(t, "*")) && !(StartsWith(t, "_") && EndsWith(t, "_"))
  {
    if Classify(t).bold && |t| >= 4 {
      ClassifyBold(t);
    }
    if Classify(t).italic && |t| >= 2 {
      ClassifyItalic(t);
    }
  }

  /** A bold run is its token without the doubled marker at each end. */
  lemma ClassifyBold(t: string)
    requires Classify(t).bold && |t| >= 4
    ensures (t[..2] == "**" || t[..2] == "__") && t == t[..2] + Classify(t).text + t[..2]
  {
    var n := |t|;
    assert Classify(t).text == t[2..n - 2];
    assert t[n - 2..] == t[..2];
    assert t == t[..2] + t[2..n - 2] + t[n - 2..];
  }

  /** An italic run is its token without the single marker at each end. */
  lemma ClassifyItalic(t: string)
    requires Classify(t).italic && |t| >= 2
    ensures (t[0] == '*' || t[0] == '_') && t == [t[0]] + Classify(t).text + [t[0]]
  {
    var n := |t|;
    assert Classify(t).text == t[1..n - 1];
    assert t[..1] == [t[0]];
    assert t[n - 1..] == [t[n - 1]];
    assert t == t[..1] + t[1..n - 1] + t[n - 1..];
  }

  /** A token that opens and closes with the same marker character comes out bold or italic. */
  lemma MarkedIsStyled(t: string)
    requires |t| >= 2 && t[0] == t[|t| - 1] && (t[0] == '*' || t[0] == '_')
    ensures Styled(Classify(t))
  {
    assert t[..1] == [t[0]];
    assert t[|t| - 1..] == [t[|t| - 1]];
  }

  /** A token that comes out bold or italic. */
  predicate StyledToken(t: string) {
    Styled(Classify(t))
  }

  /** An odd number of tokens, and every token at an odd position comes out styled. */
  predicate Alternates(tokens: seq<string>) {
    |tokens| % 2 == 1 && forall k :: 0 <= k < |tokens| && k % 2 == 1 ==> StyledToken(tokens[k])
  }

  lemma AlternatesCons(plain: string, m: string, rest: seq<string>)
    requires Alternates(rest) && StyledToken(m)
    ensures Alternates([plain, m] + rest)
  {
    OddAfterPair(plain, m, rest, StyledToken);
  }

  /** Putting a pair in front keeps what holds at every odd position, when it holds for the pair's second. */
  lemma OddAfterPair<T>(a: T, b: T, rest: seq<T>, P: T -> bool)
    requires P(b) && forall k :: 0 <= k < |rest| && k % 2 == 1 ==> P(rest[k])
    ensures forall k :: 0 <= k < |[a, b] + rest| && k % 2 == 1 ==> P(([a, b] + rest)[k])
  {
    var ts := [a, b] + rest;
    forall k | 0 <= k < |ts| && k % 2 == 1
      ensures P(ts[k])
    {
      if k == 1 {
        assert ts[k] == b;
      } else {
        assert ts[k] == rest[k - 2] && (k - 2) % 2 == 1;
      }
    }
  }

  /** re.split with a group: plain text and matches alternate, and every match is styled. */
  lemma {:induction false} ScanShape(s: string, start: nat, p: nat)
    requires start <= p <= |s|
    ensures Alternates(Scan(s, start, p))
    decreases |s| - p
  {
    if p < |s| {
      if MatchAt(s, p).Some? {
        var e := MatchAt(s, p).value;
        ScanShape(s, e, e);
        ShapeFound(s, start, p, e);
      } else {
        ScanShape(s, start, p + 1);
        assert Scan(s, start, p) == Scan(s, start, p + 1);
      }
    }
  }

  lemma ShapeFound(s: string, start: nat, p: nat, e: nat)
    requires start <= p < |s| && MatchAt(s, p) == Some(e) && Alternates(Scan(s, e, e))
    ensures Alternates(Scan(s, start, p))
  {
    MatchShape(s, p, e);
    var m := s[p..e];
    assert m[0] == s[p] && m[|m| - 1] == s[e - 1];
    MarkedIsStyled(m);
    AlternatesCons(s[start..p], m, Scan(s, e, e));
    assert Scan(s, start, p) == [s[start..p], m] + Scan(s, e, e);
  }

  lemma TokensShape(text: string)
    ensures |Tokens(text)| % 2 == 1
    ensures forall k :: 0 <= k < |Tokens(text)| && k % 2 == 1 ==> Styled(Classify(Tokens(text)[k]))
  {
    ScanShape(text, 0, 0);
  }

  // ---------------------------------------------------------------------
  // add_markdown_paragraph
  // ---------------------------------------------------------------------

  /** The runs of a token list: one per non-empty token, in order. */
  function RunsOf(tokens: seq<string>): seq<Run> {
    if tokens == [] then []
    else
      var last := tokens[|tokens| - 1];
      RunsOf(tokens[..|tokens| - 1]) + (if last == "" then [] else [Classify(last)])
  }

  /** The runs of the paragraph add_markdown_paragraph builds for text. */
  function MarkdownRuns(text: string): seq<Run> {
    RunsOf(Tokens(text))
  }

  function NonEmpty(t: string): bool {
    t != ""
  }

  /** One run per non-empty token, each the classification of its token. */
  lemma {:induction false} RunsOfFiltered(tokens: seq<string>)
    ensures RunsOf(tokens) == Map(Filter(tokens, NonEmpty), Classify)
  {
    if tokens != [] {
      var init := tokens[..|tokens| - 1];
      var last := tokens[|tokens| - 1];
      RunsOfFiltered(init);
      assert RunsOf(tokens) == RunsOf(init) + (if last == "" then [] else [Classify(last)]);
      assert tokens == init + [last];
      FilterSnoc(init, last, NonEmpty);
      if last == "" {
        AppendEmpty(Filter(init, NonEmpty));
      } else {
        MapSnoc(Filter(init, NonEmpty), last, Classify);
      }
    }
  }

  /**
   * The runs are the classifications of the non-empty tokens; the tokens give
   * back the text, and each styled token is the leftmost match after the
   * previous one.
   */
  lemma MarkdownRunsSpec(text: string)
    ensures MarkdownRuns(text) == Map(Filter(Tokens(text), NonEmpty), Classify)
    ensures Flatten(Tokens(text)) == text
    ensures LeftmostSplit(text, 0, Tokens(text))
  {
    RunsOfFiltered(Tokens(text));
    TokensConcat(text);
    TokensLeftmost(text);
  }

  /** One pass of the token loop: a run for a non-empty token, nothing for an empty one. */
  method AddToken(doc: Document, tokens: seq<string>, i: nat, ghost before: seq<DocBlock>)
    requires i < |tokens|
    requires doc.blocks == before + [Paragraph(RunsOf(tokens[..i]))]
    modifies doc
    ensures doc.blocks == before + [Paragraph(RunsOf(tokens[..i + 1]))]
  {
    assert tokens[..i + 1][..i] == tokens[..i];
    if tokens[i] != "" {
      doc.AddRun(Classify(tokens[i]));
      assert doc.blocks == before + [Paragraph(RunsOf(tokens[..i]) + [Classify(tokens[i])])];
    } else {
      AppendEmpty(RunsOf(tokens[..i]));
    }
  }

  /** add_markdown_paragraph: an empty paragraph, then one run per non-empty token. */
  method AddMarkdownParagraph(doc: Document, text: string)
    modifies doc
    ensures doc.blocks == old(doc.blocks) + [Paragraph(MarkdownRuns(text))]
  {
    ghost var before := doc.blocks;
    doc.AddParagraph("");
    var tokens := Tokens(text);
    var i := 0;
    while i < |tokens|
      invariant 0 <= i <= |tokens|
      invariant doc.blocks == before + [Paragraph(RunsOf(tokens[..i]))]
    {
      AddToken(doc, tokens, i, before);
      i := i + 1;
    }
    assert tokens[..|tokens|] == tokens;
  }
}
