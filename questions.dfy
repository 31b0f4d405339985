/**
 * The record of one analysed question (question.py) and the archived
 * handlers that build one per survey column (archive/question_handlers.py).
 *
 * A Python dict keeps its keys in insertion order; a Question's answers
 * are therefore a sequence of distinct keys together with a map from each
 * key to its share.
 */
module Questions {
  import opened Text
  import opened Seqs
  import opened Cells
  import opened Cleaning
  import TP = TextProcessing

  /** The text that replaces an open answer judged to be gibberish. */
  const InvalidAnswerLabel: string := "Invalid/Gibberish/NA"

  // ---------------------------------------------------------------------
  // question.py: the record and its printed form
  // ---------------------------------------------------------------------

  /** A TF-IDF matrix, kept abstract: its vocabulary and its number of distinct rows. */
  datatype Vectors = Vectors(features: seq<string>, uniqueRows: nat)

  /** What cluster_responses returns: a cluster per response and the keywords of each cluster. */
  datatype Clustering = Clustering(labels: seq<nat>, keywords: seq<seq<string>>)

  const AnswersTitle: string := "Answers:"

  /** The first two lines of the printed form. */
  function Header(question: string): string {
    "\n" + question + "\n" + AnswersTitle
  }

  /** The printed line of one answer; show formats the share as Python prints a float. */
  function AnswerLine(key: Cell, value: real, show: real -> string): string {
    "\n" + CellText(key) + ": " + show(value)
  }

  /** The printed lines of the answers, in key order. */
  function AnswerLines(keys: seq<Cell>, answers: map<Cell, real>, show: real -> string): string
    requires forall i :: 0 <= i < |keys| ==> keys[i] in answers
  {
    if keys == [] then []
    else
      var n := |keys| - 1;
      AnswerLines(keys[..n], answers, show) + AnswerLine(keys[n], answers[keys[n]], show)
  }

  /** str(question). */
  function Rendered(question: string, keys: seq<Cell>, answers: map<Cell, real>, show: real -> string): string
    requires forall i :: 0 <= i < |keys| ==> keys[i] in answers
  {
    Header(question) + AnswerLines(keys, answers, show)
  }

  lemma {:induction false} AnswerLinesAppend(a: seq<Cell>, b: seq<Cell>, answers: map<Cell, real>, show: real -> string)
    requires forall i :: 0 <= i < |a| ==> a[i] in answers
    requires forall i :: 0 <= i < |b| ==> b[i] in answers
    ensures forall i :: 0 <= i < |a + b| ==> (a + b)[i] in answers
    ensures AnswerLines(a + b, answers, show) == AnswerLines(a, answers, show) + AnswerLines(b, answers, show)
  {
    assert forall i :: 0 <= i < |a + b| ==> (a + b)[i] in answers by {
      forall i | 0 <= i < |a + b| ensures (a + b)[i] in answers {
        if i >= |a| {
          assert (a + b)[i] == b[i - |a|];
        }
      }
    }
    if b == [] {
      assert a + b == a;
    } else {
      var n := |b| - 1;
      assert (a + b)[..|a| + n] == a + b[..n];
      AnswerLinesAppend(a, b[..n], answers, show);
      assert (a + b)[|a| + n] == b[n];
    }
  }

  /**
   * The answers are printed in insertion order: the text for the first i
   * keys is followed by the lines of the remaining keys.
   */
  lemma RenderedInOrder(question: string, keys: seq<Cell>, answers: map<Cell, real>, show: real -> string, i: nat)
    requires forall j :: 0 <= j < |keys| ==> keys[j] in answers
    requires i <= |keys|
    ensures Rendered(question, keys, answers, show)
      == Rendered(question, keys[..i], answers, show) + AnswerLines(keys[i..], answers, show)
  {
    assert keys == keys[..i] + keys[i..];
    AnswerLinesAppend(keys[..i], keys[i..], answers, show);
  }

  /** Each answer adds exactly one line break. */
  lemma {:induction false} AnswerLinesBreaks(keys: seq<Cell>, answers: map<Cell, real>, show: real -> string)
    requires forall i :: 0 <= i < |keys| ==> keys[i] in answers
    requires forall i :: 0 <= i < |keys| ==> '\n' !in CellText(keys[i]) && '\n' !in show(answers[keys[i]])
    ensures multiset(AnswerLines(keys, answers, show))['\n'] == |keys|
  {
    if keys != [] {
      var n := |keys| - 1;
      AnswerLinesBreaks(keys[..n], answers, show);
      var k := keys[n];
      OneBreak(CellText(k), show(answers[k]));
    }
  }

  lemma OneBreak(text: string, value: string)
    requires '\n' !in text && '\n' !in value
    ensures multiset("\n" + text + ": " + value)['\n'] == 1
  {
    assert multiset("\n" + text + ": " + value) == multiset("\n") + multiset(text) + multiset(": ") + multiset(value);
  }

  lemma HeaderBreaks(question: string)
    requires '\n' !in question
    ensures multiset(Header(question))['\n'] == 2
  {
    assert '\n' !in AnswersTitle;
    assert multiset(Header(question)) == multiset("\n") + multiset(question) + multiset("\n") + multiset(AnswersTitle);
  }

  /**
   * One line per answer: with no line break inside the question, the keys
   * or the printed shares, str(question) holds exactly 2 + |keys| line
   * breaks; with no answers it is the header alone.
   */
  lemma RenderedLineCount(question: string, keys: seq<Cell>, answers: map<Cell, real>, show: real -> string)
    requires forall i :: 0 <= i < |keys| ==> keys[i] in answers
    requires '\n' !in question
    requires forall i :: 0 <= i < |keys| ==> '\n' !in CellText(keys[i]) && '\n' !in show(answers[keys[i]])
    ensures multiset(Rendered(question, keys, answers, show))['\n'] == 2 + |keys|
    ensures keys == [] ==> Rendered(question, keys, answers, show) == Header(question)
  {
    AnswerLinesBreaks(keys, answers, show);
    HeaderBreaks(question);
  }

  class Question {
    var question: string
    /** The keys of the answers dict, in insertion order. */
    var keys: seq<Cell>
    var answers: map<Cell, real>
    var numAnswers: int
    // Set only by the open-question handler; the empty values stand for "not set".
    var cleanedResponses: seq<string>
    var tfidf: Option<Vectors>
    var featureNames: seq<string>
    var clustering: Option<Clustering>

    /** The keys list the answers dict: each key once, and exactly the keys of the map. */
    ghost predicate Valid()
      reads this
    {
      Distinct(keys) && forall k :: k in answers <==> k in keys
    }

    /** Question(): no text, no answers, no count. */
    constructor()
      ensures question == "" && keys == [] && answers == map[] && numAnswers == 0
      ensures cleanedResponses == [] && tfidf == None && featureNames == [] && clustering == None
      ensures Valid()
    {
      question := "";
      keys := [];
      answers := map[];
      numAnswers := 0;
      cleanedResponses := [];
      tfidf := None;
      featureNames := [];
      clustering := None;
    }

    /** answers[key] = value: a new key goes last, an existing one keeps its place. */
    method SetAnswer(key: Cell, value: real)
      requires Valid()
      modifies this
      ensures Valid()
      ensures answers == old(answers)[key := value]
      ensures keys == if key in old(answers) then old(keys) else old(keys) + [key]
      ensures question == old(question) && numAnswers == old(numAnswers)
      ensures cleanedResponses == old(cleanedResponses) && tfidf == old(tfidf)
      ensures featureNames == old(featureNames) && clustering == old(clustering)
    {
      if key !in answers {
        keys := keys + [key];
      }
      answers := answers[key := value];
    }

    /** __str__: the header, then one line per answer in insertion order; nothing is changed. */
    method ToString(show: real -> string) returns (s: string)
      requires Valid()
      ensures forall i :: 0 <= i < |keys| ==> keys[i] in answers
      ensures s == Rendered(question, keys, answers, show)
    {
      s := Header(question);
      var i := 0;
      while i < |keys|
        invariant 0 <= i <= |keys|
        invariant s == Header(question) + AnswerLines(keys[..i], answers, show)
      {
        assert keys[..i + 1][..i] == keys[..i];
        s := s + AnswerLine(keys[i], answers[keys[i]], show);
        i := i + 1;
      }
      assert keys[..|keys|] == keys;
    }
  }

  /** The shared list the handlers append to. */
  class QuestionList {
    var items: seq<Question>

    constructor()
      ensures items == []
    {
      items := [];
    }

    method Append(q: Question)
      modifies this
      ensures items == old(items) + [q]
    {
      items := items + [q];
    }
  }

  // ---------------------------------------------------------------------
  // Counting helpers
  // ---------------------------------------------------------------------

  predicate IsPresent(c: Cell) { !c.Missing? }

  /** dropna(): the cells that are not missing, in order. */
  function Present(col: seq<Cell>): (r: seq<Cell>)
    ensures forall i :: 0 <= i < |r| ==> !r[i].Missing? && r[i] in col
    ensures forall i :: 0 <= i < |col| && !col[i].Missing? ==> col[i] in r
  {
    Filter(col, IsPresent)
  }

  lemma PresentSnoc(col: seq<Cell>, c: Cell)
    ensures Present(col + [c]) == Present(col) + if c.Missing? then [] else [c]
  {
    FilterAppend(col, [c], IsPresent);
    assert [c][1..] == [];
  }

  /** How many times x occurs in s. */
  function CountIn<T(==)>(s: seq<T>): T -> int {
    (x: T) => multiset(s)[x]
  }

  /** value_counts(normalize=True)[a]: the share of the cells equal to a. */
  function Frequency(cells: seq<Cell>, a: Cell): real {
    if cells == [] then 0.0 else multiset(cells)[a] as real / |cells| as real
  }

  lemma DivAddInt(a: int, b: int, n: nat)
    requires n > 0
    ensures a as real / n as real + b as real / n as real == (a + b) as real / n as real
  {
    DivAdd(a as real, b as real, n as real);
  }

  /** count / total, for a total that is not zero. */
  function Share(count: nat, total: nat): real {
    if total == 0 then 0.0 else count as real / total as real
  }

  /** The sum of the shares stored under keys. */
  function ShareTotal(keys: seq<Cell>, m: map<Cell, real>): real
    requires forall i :: 0 <= i < |keys| ==> keys[i] in m
  {
    if keys == [] then 0.0 else ShareTotal(keys[..|keys| - 1], m) + m[keys[|keys| - 1]]
  }

  lemma {:induction false} SumBySnoc<T>(s: seq<T>, x: T, f: T -> int)
    ensures SumBy(s + [x], f) == SumBy(s, f) + f(x)
  {
    SumByAppend(s, [x], f);
    assert [x][1..] == [];
  }

  lemma UniqueSnoc<T>(s: seq<T>, x: T)
    ensures Unique(s + [x]) == if x in Unique(s) then Unique(s) else Unique(s) + [x]
  {
    assert (s + [x])[..|s|] == s;
  }

  /** Raising f by one at x raises its sum over distinct elements by one exactly when x is among them. */
  lemma {:induction false} SumByBump<T>(u: seq<T>, f: T -> int, g: T -> int, x: T)
    requires Distinct(u)
    requires forall y :: g(y) == f(y) + (if y == x then 1 else 0)
    ensures SumBy(u, g) == SumBy(u, f) + (if x in u then 1 else 0)
  {
    if u != [] {
      SumByBump(u[1..], f, g, x);
      assert u == [u[0]] + u[1..];
      assert x in u[1..] ==> u[0] != x;
    }
  }

  /** The counts of the distinct values add up to the number of values. */
  lemma {:induction false} UniqueCountSum<T>(s: seq<T>)
    ensures SumBy(Unique(s), CountIn(s)) == |s|
  {
    if s != [] {
      var n := |s| - 1;
      var init, x := s[..n], s[n];
      assert s == init + [x];
      UniqueCountSum(init);
      UniqueSnoc(init, x);
      var u := Unique(init);
      assert multiset(s) == multiset(init) + multiset{x};
      SumByBump(u, CountIn(init), CountIn(s), x);
      if x !in u {
        SumBySnoc(u, x, CountIn(s));
        assert x !in init;
      }
    }
  }

  // ---------------------------------------------------------------------
  // handle_question_default (and the per-column loop of csv_export.py)
  // ---------------------------------------------------------------------

  /**
   * A question holding the relative frequencies of the cells: one key per
   * distinct cell in order of first appearance, each key's share, and the
   * number of cells as its count.
   */
  ghost predicate Counted(q: Question, cells: seq<Cell>)
    reads q
  {
    q.Valid() && q.keys == Unique(cells) && q.numAnswers == |cells| &&
    forall k :: k in q.answers ==> q.answers[k] == Frequency(cells, k)
  }

  /** Shares that are f over n add up to the sum of f over n. */
  lemma {:induction false} SharesOverKeys(keys: seq<Cell>, m: map<Cell, real>, f: Cell -> int, n: nat)
    requires n > 0
    requires forall j :: 0 <= j < |keys| ==> keys[j] in m && m[keys[j]] == f(keys[j]) as real / n as real
    ensures ShareTotal(keys, m) == SumBy(keys, f) as real / n as real
  {
    if keys != [] {
      var k := |keys| - 1;
      SharesOverKeys(keys[..k], m, f, n);
      assert keys == keys[..k] + [keys[k]];
      SumBySnoc(keys[..k], keys[k], f);
      DivAddInt(SumBy(keys[..k], f), f(keys[k]), n);
    }
  }

  /** The relative frequencies of the distinct cells add up to one. */
  lemma FrequenciesSumToOne(cells: seq<Cell>, m: map<Cell, real>)
    requires cells != []
    requires forall j :: 0 <= j < |Unique(cells)| ==> Unique(cells)[j] in m && m[Unique(cells)[j]] == Frequency(cells, Unique(cells)[j])
    ensures ShareTotal(Unique(cells), m) == 1.0
  {
    SharesOverKeys(Unique(cells), m, CountIn(cells), |cells|);
    UniqueCountSum(cells);
    DivSelf(|cells| as real);
  }

  /** Shares that are each bin's count over n add up to the total count over n. */
  lemma {:induction false} BinShares(bins: seq<Bin>, m: map<Cell, real>, n: nat)
    requires n > 0
    requires forall j :: 0 <= j < |bins| ==> bins[j].answer in m && m[bins[j].answer] == bins[j].count as real / n as real
    ensures forall j :: 0 <= j < |LabelsOf(bins)| ==> LabelsOf(bins)[j] in m
    ensures ShareTotal(LabelsOf(bins), m) == Total(bins) as real / n as real
  {
    if bins != [] {
      var k := |bins| - 1;
      BinShares(bins[..k], m, n);
      assert bins == bins[..k] + [bins[k]];
      MapSnoc(bins[..k], bins[k], BinLabel);
      SumBySnoc(bins[..k], bins[k], BinCount);
      DivAddInt(Total(bins[..k]), bins[k].count, n);
    }
  }

  /**
   * The value_counts loop: for every distinct non-missing cell, store its
   * relative frequency and add its count to num_answers.
   */
  method FillFrequencies(q: Question, cells: seq<Cell>)
    requires q.Valid() && q.keys == [] && q.numAnswers == 0
    modifies q
    ensures Counted(q, cells)
    ensures q.keys != [] ==> ShareTotal(q.keys, q.answers) == 1.0
    ensures q.question == old(q.question)
  {
    var unique := Unique(cells);
    var i := 0;
    while i < |unique|
      invariant 0 <= i <= |unique|
      invariant q.Valid() && q.keys == unique[..i]
      invariant forall k :: k in q.answers ==> q.answers[k] == Frequency(cells, k)
      invariant q.numAnswers == SumBy(unique[..i], CountIn(cells))
      invariant q.question == old(q.question)
    {
      var answer := unique[i];
      assert answer in cells;
      var count := multiset(cells)[answer];
      assert answer !in unique[..i];
      q.SetAnswer(answer, Frequency(cells, answer));
      q.numAnswers := q.numAnswers + count;
      assert unique[..i + 1] == unique[..i] + [answer];
      SumBySnoc(unique[..i], answer, CountIn(cells));
      i := i + 1;
    }
    assert unique[..i] == unique;
    UniqueCountSum(cells);
    if q.keys != [] {
      FrequenciesSumToOne(cells, q.answers);
    }
  }

  /** handle_question_default: one Question with the relative frequencies of the column, appended to the list. */
  method HandleDefault(df: Frame, column: nat, list: QuestionList) returns (q: Question)
    requires column < |df.headers|
    modifies list
    ensures fresh(q)
    ensures list.items == old(list.items) + [q]
    ensures q.question == df.headers[column]
    ensures Counted(q, Present(Column(df, column)))
    ensures q.keys != [] ==> ShareTotal(q.keys, q.answers) == 1.0
  {
    q := new Question();
    q.question := df.headers[column];
    FillFrequencies(q, Present(Column(df, column)));
    list.Append(q);
  }

  // ---------------------------------------------------------------------
  // handle_question_multi_choice
  // ---------------------------------------------------------------------

  /**
   * choice_counts: over the distinct non-missing responses, every trimmed,
   * non-empty choice with the number of times it occurs, in order of first
   * appearance.
   */
  function ChoiceCounts(col: seq<Cell>, sep: char): seq<Bin> {
    Tally(ExpandMultiple(Unique(Present(col)), sep))
  }

  /** A response given twice is counted once. */
  lemma RepeatedResponseCountedOnce(col: seq<Cell>, c: Cell, sep: char)
    requires c in col
    ensures ChoiceCounts(col + [c], sep) == ChoiceCounts(col, sep)
  {
    PresentSnoc(col, c);
    var p := Present(col);
    if c.Missing? {
      assert Present(col + [c]) == p + [] == p;
    } else {
      assert c in p;
      UniqueSnoc(p, c);
      assert Unique(Present(col + [c])) == Unique(p);
    }
  }

  lemma TallySnoc(t: seq<Cell>, x: Cell)
    ensures Tally(t + [x]) == AddTo(Tally(t), x, 1)
  {
    assert (t + [x])[..|t|] == t;
  }

  /** The cell a stripped choice contributes: none when it is empty. */
  function Piece(choice: string): seq<Cell> {
    if choice == [] then [] else [Str(choice)]
  }

  /** The stripped, non-empty parts of a split response. */
  function Pieces(parts: seq<string>): seq<Cell> {
    if parts == [] then [] else Pieces(parts[..|parts| - 1]) + Piece(Strip(parts[|parts| - 1]))
  }

  lemma {:induction false} PiecesAreCleaned(parts: seq<string>)
    ensures Pieces(parts) == CleanSingle(Map(parts, StrCell))
  {
    if parts != [] {
      var j := |parts| - 1;
      assert parts[..j + 1] == parts;
      PiecesAreCleaned(parts[..j]);
      CleanPiecesSnoc(parts, j, Strip(parts[j]));
    }
  }

  /** Cleaning one more piece adds its stripped text unless that is empty. */
  lemma CleanPiecesSnoc(parts: seq<string>, j: nat, choice: string)
    requires j < |parts| && choice == Strip(parts[j])
    ensures choice == [] ==> CleanSingle(Map(parts[..j + 1], StrCell)) == CleanSingle(Map(parts[..j], StrCell))
    ensures choice != [] ==> CleanSingle(Map(parts[..j + 1], StrCell)) == CleanSingle(Map(parts[..j], StrCell)) + [Str(choice)]
  {
    TakeSnoc(parts, j);
    MapSnoc(parts[..j], parts[j], StrCell);
    CleanSingleAppend(Map(parts[..j], StrCell), [Str(parts[j])]);
    CleanSingleOne(parts[j]);
  }

  /** A single text cell cleans to its stripped text, or to nothing when that is empty. */
  lemma CleanSingleOne(s: string)
    ensures Strip(s) == [] ==> CleanSingle([Str(s)]) == []
    ensures Strip(s) != [] ==> CleanSingle([Str(s)]) == [Str(Strip(s))]
  {
    assert [Str(s)][1..] == [];
  }

  lemma ExpandSnoc(done: seq<Cell>, c: Cell, sep: char)
    requires c.Str?
    ensures ExpandMultiple(done + [c], sep) == ExpandMultiple(done, sep) + Pieces(Split(c.s, sep))
  {
    ExpandOne(done, c, sep);
    PiecesAreCleaned(Split(c.s, sep));
  }

  lemma ExpandOne(done: seq<Cell>, c: Cell, sep: char)
    requires c.Str?
    ensures ExpandMultiple(done + [c], sep) == ExpandMultiple(done, sep) + CleanSingle(Map(Split(c.s, sep), StrCell))
  {
    ExpandMultipleAppend(done, [c], sep);
    assert ExpandMultiple([c], sep) == SplitCell(c, sep) + ExpandMultiple([c][1..], sep);
  }

  lemma PiecesSnoc(parts: seq<string>, j: nat, choice: string)
    requires j < |parts| && choice == Strip(parts[j])
    ensures choice == [] ==> Pieces(parts[..j + 1]) == Pieces(parts[..j])
    ensures choice != [] ==> Pieces(parts[..j + 1]) == Pieces(parts[..j]) + [Str(choice)]
  {
    assert parts[..j + 1][..j] == parts[..j];
  }

  /** Counting one more token after a prefix adds one under it. */
  lemma TallyStep(done: seq<Cell>, before: seq<Cell>, x: Cell)
    ensures Tally(done + (before + [x])) == AddTo(Tally(done + before), x, 1)
  {
    TallySnoc(done + before, x);
    AppendAssociative(done, before, [x]);
  }

  /** The inner loop of the count: every stripped, non-empty choice of one response added to the counts. */
  method CountPieces(counts0: seq<Bin>, parts: seq<string>, ghost done: seq<Cell>) returns (counts: seq<Bin>)
    requires counts0 == Tally(done)
    ensures counts == Tally(done + Pieces(parts))
  {
    counts := counts0;
    PiecesNone(parts, done);
    var j := 0;
    while j < |parts|
      invariant 0 <= j <= |parts|
      invariant counts == Tally(done + Pieces(parts[..j]))
    {
      counts := CountPiece(counts, parts, j, done);
      j := j + 1;
    }
    PiecesAll(parts, done, j);
  }

  /** The body of the inner loop: choice.strip(), counted when not empty. */
  method CountPiece(counts0: seq<Bin>, parts: seq<string>, j: nat, ghost done: seq<Cell>) returns (counts: seq<Bin>)
    requires j < |parts| && counts0 == Tally(done + Pieces(parts[..j]))
    ensures counts == Tally(done + Pieces(parts[..j + 1]))
  {
    var choice := Strip(parts[j]);
    CountPiecesStep(parts, j, done, choice);
    counts := counts0;
    if choice != [] {
      counts := AddTo(counts, Str(choice), 1);
    }
  }

  lemma PiecesNone(parts: seq<string>, done: seq<Cell>)
    ensures Tally(done + Pieces(parts[..0])) == Tally(done)
  {
    assert parts[..0] == [];
    AppendEmpty(done);
  }

  lemma PiecesAll(parts: seq<string>, done: seq<Cell>, j: nat)
    requires j == |parts|
    ensures Tally(done + Pieces(parts[..j])) == Tally(done + Pieces(parts))
  {
    assert parts[..j] == parts;
  }

  /** One more choice: counted when its stripped text is not empty, skipped otherwise. */
  lemma CountPiecesStep(parts: seq<string>, j: nat, done: seq<Cell>, choice: string)
    requires j < |parts| && choice == Strip(parts[j])
    ensures choice == [] ==> Tally(done + Pieces(parts[..j + 1])) == Tally(done + Pieces(parts[..j]))
    ensures choice != [] ==> Tally(done + Pieces(parts[..j + 1])) == AddTo(Tally(done + Pieces(parts[..j])), Str(choice), 1)
  {
    PiecesSnoc(parts, j, choice);
    if choice != [] {
      TallyStep(done, Pieces(parts[..j]), Str(choice));
    }
  }

  /** The counting loop of handle_question_multi_choice. */
  method CountChoices(responses: seq<Cell>, sep: char) returns (counts: seq<Bin>)
    requires forall i :: 0 <= i < |responses| ==> responses[i].Str?
    ensures counts == Tally(ExpandMultiple(responses, sep))
  {
    counts := [];
    var i := 0;
    while i < |responses|
      invariant 0 <= i <= |responses|
      invariant counts == Tally(ExpandMultiple(responses[..i], sep))
    {
      var parts := Split(responses[i].s, sep);
      counts := CountPieces(counts, parts, ExpandMultiple(responses[..i], sep));
      TakeSnoc(responses, i);
      ExpandSnoc(responses[..i], responses[i], sep);
      i := i + 1;
    }
    assert responses[..i] == responses;
  }

  /** The share loop: each choice's count over the total, and the counts summed into num_answers. */
  method FillShares(q: Question, counts: seq<Bin>)
    requires q.Valid() && q.keys == [] && q.numAnswers == 0
    requires DistinctLabels(counts)
    requires forall i :: 0 <= i < |counts| ==> counts[i].count >= 1
    modifies q
    ensures q.Valid() && q.keys == LabelsOf(counts) && q.numAnswers == Total(counts)
    ensures forall i :: 0 <= i < |counts| ==> q.answers[counts[i].answer] == Share(counts[i].count, Total(counts))
    ensures q.keys != [] ==> ShareTotal(q.keys, q.answers) == 1.0
    ensures q.question == old(q.question)
  {
    var total := Total(counts);
    PositiveCountsBound(counts);
    var i := 0;
    while i < |counts|
      invariant 0 <= i <= |counts|
      invariant q.Valid() && q.keys == LabelsOf(counts[..i]) && q.numAnswers == Total(counts[..i])
      invariant forall k :: k in q.answers ==> q.answers[k] == CountOf(counts, k) as real / total as real
      invariant q.question == old(q.question)
    {
      var b := counts[i];
      LabelNotBefore(counts, i);
      CountOfDistinct(counts, i);
      q.SetAnswer(b.answer, b.count as real / total as real);
      q.numAnswers := q.numAnswers + b.count;
      TakeSnoc(counts, i);
      MapSnoc(counts[..i], b, BinLabel);
      SumBySnoc(counts[..i], b, BinCount);
      i := i + 1;
    }
    assert counts[..i] == counts;
    forall j | 0 <= j < |counts|
      ensures counts[j].answer in q.answers && q.answers[counts[j].answer] == counts[j].count as real / total as real
    {
      assert LabelsOf(counts)[j] == counts[j].answer;
      CountOfDistinct(counts, j);
    }
    if counts != [] {
      BinShares(counts, q.answers, total);
      DivSelf(total as real);
    }
  }

  /** With distinct labels, no bin's label is among the labels before it. */
  lemma LabelNotBefore(counts: seq<Bin>, i: nat)
    requires DistinctLabels(counts) && i < |counts|
    ensures counts[i].answer !in LabelsOf(counts[..i])
  {
    forall j | 0 <= j < i ensures LabelsOf(counts[..i])[j] != counts[i].answer {
      assert LabelsOf(counts[..i])[j] == counts[j].answer;
    }
  }

  /** The responses of a column that holds no numbers are all strings. */
  lemma ResponsesAreStrings(col: seq<Cell>)
    requires forall i :: 0 <= i < |col| ==> !col[i].Num?
    ensures forall i :: 0 <= i < |Unique(Present(col))| ==> Unique(Present(col))[i].Str?
  {
    var u := Unique(Present(col));
    forall i | 0 <= i < |u| ensures u[i].Str? {
      assert u[i] in Present(col);
      assert u[i] in col;
    }
  }

  /**
   * handle_question_multi_choice: one Question whose answers are the
   * choices with their shares of all choice mentions, appended to the list.
   * With no choice at all the answers stay empty and nothing is divided.
   */
  method HandleMultiChoice(df: Frame, column: nat, list: QuestionList, sep: char) returns (q: Question)
    requires column < |df.headers|
    requires forall i :: 0 <= i < |df.rows| ==> !At(df.rows[i], column).Num?
    modifies list
    ensures fresh(q)
    ensures list.items == old(list.items) + [q]
    ensures q.question == df.headers[column]
    ensures q.Valid()
    ensures var counts := ChoiceCounts(Column(df, column), sep);
      q.keys == LabelsOf(counts) && q.numAnswers == Total(counts) &&
      forall i :: 0 <= i < |counts| ==> q.answers[counts[i].answer] == Share(counts[i].count, Total(counts))
    ensures q.keys != [] ==> ShareTotal(q.keys, q.answers) == 1.0
  {
    var col := Column(df, column);
    var responses := Unique(Present(col));
    ResponsesAreStrings(col);
    q := new Question();
    q.question := df.headers[column];
    var counts := CountChoices(responses, sep);
    TallyFacts(ExpandMultiple(responses, sep));
    FillShares(q, counts);
    list.Append(q);
  }

  // ---------------------------------------------------------------------
  // handle_open_question
  // ---------------------------------------------------------------------

  /** The label is not gibberish itself. */
  lemma LabelIsNotGibberish()
    ensures !TP.IsGibberish(InvalidAnswerLabel)
  {
    assert TP.IsVowel(InvalidAnswerLabel[3]);
  }

  /**
   * One cleaned response: clean_response, then the lemmatizer; a result
   * judged gibberish is replaced by the label.
   */
  function CleanedAnswer(text: string, lemmatize: string -> string): (r: string)
    ensures !TP.IsGibberish(r)
    ensures TP.IsGibberish(lemmatize(TP.CleanResponse(text))) ==> r == InvalidAnswerLabel
    ensures !TP.IsGibberish(lemmatize(TP.CleanResponse(text))) ==> r == lemmatize(TP.CleanResponse(text))
  {
    var lemmas := lemmatize(TP.CleanResponse(text));
    if TP.IsGibberish(lemmas) then
      LabelIsNotGibberish();
      InvalidAnswerLabel
    else
      lemmas
  }

  /** CleanedAnswer for a fixed lemmatizer. */
  function Cleaner(lemmatize: string -> string): string -> string {
    (text: string) => CleanedAnswer(text, lemmatize)
  }

  /** cleaned_responses: one cleaned answer per response, in order, none of them gibberish. */
  function CleanedResponses(texts: seq<string>, lemmatize: string -> string): (r: seq<string>)
    ensures |r| == |texts|
    ensures forall i :: 0 <= i < |r| ==> !TP.IsGibberish(r[i])
  {
    Map(texts, Cleaner(lemmatize))
  }


  /** The cleaning loop of handle_open_question. */
  method CleanResponses(texts: seq<string>, lemmatize: string -> string) returns (cleaned: seq<string>)
    ensures cleaned == CleanedResponses(texts, lemmatize)
  {
    cleaned := MapEach(texts, Cleaner(lemmatize));
  }

  /**
   * best_k after the guard against the number of distinct TF-IDF rows: a
   * choice above that number becomes that number minus two, with no lower
   * bound, so that for fewer than three distinct rows the cluster count
   * drops below one.
   */
  function ClampK(bestK: int, numUnique: nat): (k: int)
    ensures k <= numUnique
    ensures k == bestK <==> bestK <= numUnique
    ensures bestK > numUnique && numUnique < 3 ==> k < 1
  {
    if bestK > numUnique then numUnique - 2 else bestK
  }

  /** With one distinct row and an elbow choice of 10, the code asks for -1 clusters. */
  lemma ClampKBelowOne()
    ensures ClampK(10, 1) == -1 && ClampK(3, 2) == 0
  {
  }

  /**
   * best_k as the guard evidently means it: a choice above the number of
   * distinct rows is brought down to that number minus two, but never below
   * one cluster. The rest of the model clusters with this value.
   */
  function ClampKFloored(bestK: int, numUnique: nat): (k: int)
    ensures bestK <= numUnique ==> k == bestK
    ensures numUnique >= 1 ==> k <= numUnique
    ensures numUnique >= 1 && bestK >= 1 ==> 1 <= k
    ensures numUnique >= 1 ==> (k == bestK <==> bestK <= numUnique)
    ensures numUnique >= 3 ==> k == ClampK(bestK, numUnique)
  {
    if bestK <= numUnique then bestK
    else if numUnique < 3 then 1
    else numUnique - 2
  }

  /** The open-question attributes as the try/except block leaves them. */
  datatype Analysis = Analysis(tfidf: Option<Vectors>, featureNames: seq<string>, clustering: Option<Clustering>)

  /**
   * vectorize_text, find_optimal_k_elbow and cluster_responses are given
   * as functions; None stands for the ValueError they may raise. Any
   * ValueError leaves no TF-IDF data, no vocabulary and no clusters.
   */
  function Analyse(cleaned: seq<string>, vectorize: seq<string> -> Option<Vectors>,
                   elbow: Vectors -> Option<int>, cluster: (Vectors, int) -> Option<Clustering>): (a: Analysis)
    ensures a.tfidf.None? <==> a.clustering.None?
    ensures a.tfidf.None? ==> a.featureNames == []
    ensures a.tfidf.Some? ==> a.tfidf == vectorize(cleaned) && a.featureNames == a.tfidf.value.features
    ensures a.clustering.Some? ==>
      var v := vectorize(cleaned).value;
      elbow(v).Some? && a.clustering == cluster(v, ClampKFloored(elbow(v).value, v.uniqueRows))
    ensures a.clustering.Some? <==>
      vectorize(cleaned).Some? &&
      var v := vectorize(cleaned).value;
      elbow(v).Some? && cluster(v, ClampKFloored(elbow(v).value, v.uniqueRows)).Some?
  {
    match vectorize(cleaned)
    case None => Analysis(None, [], None)
    case Some(v) =>
      match elbow(v)
      case None => Analysis(None, [], None)
      case Some(bestK) =>
        match cluster(v, ClampKFloored(bestK, v.uniqueRows))
        case None => Analysis(None, [], None)
        case Some(c) => Analysis(Some(v), v.features, Some(c))
  }

  /**
   * handle_open_question: one Question with no answers, its cleaned
   * responses, and the result of vectorizing and clustering them, appended
   * to the list whether or not a ValueError occurred.
   */
  method HandleOpen(df: Frame, column: nat, list: QuestionList, lemmatize: string -> string,
                    vectorize: seq<string> -> Option<Vectors>, elbow: Vectors -> Option<int>,
                    cluster: (Vectors, int) -> Option<Clustering>) returns (q: Question)
    requires column < |df.headers|
    requires forall i :: 0 <= i < |df.rows| ==> !At(df.rows[i], column).Num?
    modifies list
    ensures fresh(q)
    ensures list.items == old(list.items) + [q]
    ensures q.question == df.headers[column] && q.keys == [] && q.answers == map[] && q.numAnswers == 0
    ensures q.cleanedResponses == CleanedResponses(Map(Present(Column(df, column)), CellText), lemmatize)
    ensures Analysis(q.tfidf, q.featureNames, q.clustering) == Analyse(q.cleanedResponses, vectorize, elbow, cluster)
  {
    q := new Question();
    q.question := df.headers[column];
    var texts := Map(Present(Column(df, column)), CellText);
    var cleaned := CleanResponses(texts, lemmatize);
    q.cleanedResponses := cleaned;
    AnalyseInto(q, vectorize, elbow, cluster);
    list.Append(q);
  }

  /** The try/except block of handle_open_question. */
  method AnalyseInto(q: Question, vectorize: seq<string> -> Option<Vectors>, elbow: Vectors -> Option<int>,
                     cluster: (Vectors, int) -> Option<Clustering>)
    requires q.tfidf == None && q.featureNames == [] && q.clustering == None
    modifies q
    ensures Analysis(q.tfidf, q.featureNames, q.clustering) == Analyse(q.cleanedResponses, vectorize, elbow, cluster)
    ensures q.question == old(q.question) && q.keys == old(q.keys) && q.answers == old(q.answers)
    ensures q.numAnswers == old(q.numAnswers) && q.cleanedResponses == old(q.cleanedResponses)
  {
    var cleaned := q.cleanedResponses;
    var failed := true;
    match vectorize(cleaned) {
      case None =>
      case Some(v) =>
        q.tfidf := Some(v);
        q.featureNames := v.features;
        match elbow(v) {
          case None =>
          case Some(bestK) =>
            var k := ClampKFloored(bestK, v.uniqueRows);
            match cluster(v, k) {
              case None =>
              case Some(c) =>
                q.clustering := Some(c);
                failed := false;
            }
        }
    }
    if failed {
      q.tfidf := None;
      q.featureNames := [];
    }
  }
}
