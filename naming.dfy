/**
 * Names derived from labels (helpers.py): worksheet names, chart file
 * names, spreadsheet column letters, and the cutting of long chart labels.
 */
module Naming {
  import opened Text
  import opened Cells
  import opened Seqs

  // ---------------------------------------------------------------------
  // sanitize_sheet_name
  // ---------------------------------------------------------------------

  /** Excel's limit on the length of a worksheet name. */
  const MaxSheetName: nat := 31

  /** The characters [ ] : * ? / \ that a worksheet name may not contain. */
  predicate IsForbiddenInSheetName(c: char) {
    c == '[' || c == ']' || c == ':' || c == '*' || c == '?' || c == '/' || c == '\\'
  }

  predicate HasSheetNameChars(s: string) {
    forall i :: 0 <= i < |s| ==> !IsForbiddenInSheetName(s[i])
  }

  /** Each forbidden character replaced by '_'. */
  function ReplaceForbidden(s: string): (r: string)
    ensures |r| == |s| && HasSheetNameChars(r)
    ensures forall i :: 0 <= i < |s| && !IsForbiddenInSheetName(s[i]) ==> r[i] == s[i]
  {
    if s == [] then []
    else [if IsForbiddenInSheetName(s[0]) then '_' else s[0]] + ReplaceForbidden(s[1..])
  }

  /**
   * The first name tried: forbidden characters replaced, cut to 31
   * characters, or "Sheet" when nothing is left.
   */
  function BaseSheetName(name: string): (r: string)
    ensures 1 <= |r| <= MaxSheetName && HasSheetNameChars(r)
    ensures name != [] ==> |r| == if |name| < MaxSheetName then |name| else MaxSheetName
    ensures name != [] ==> forall i :: 0 <= i < |r| && !IsForbiddenInSheetName(name[i]) ==> r[i] == name[i]
    ensures name == [] ==> r == "Sheet"
  {
    var c := ReplaceForbidden(name);
    var cut := if |c| <= MaxSheetName then c else c[..MaxSheetName];
    if cut == [] then "Sheet" else cut
  }

  /** Python's s[:k], where a negative k counts from the end. */
  function PySliceTo(s: string, k: int): (r: string)
    ensures |r| <= |s| && r == s[..|r|]
    ensures 0 <= k <= |s| ==> |r| == k
  {
    if k >= 0 then (if k <= |s| then s[..k] else s)
    else if |s| + k > 0 then s[..|s| + k] else []
  }

  /** "_" followed by the decimal numeral of k. */
  function Suffix(k: nat): string { "_" + NatToString(k) }

  /** The k-th renamed candidate: base with "_k" appended, base cut so the whole stays within 31 characters. */
  function Candidate(base: string, k: nat): (r: string)
    ensures EndsWith(r, Suffix(k))
  {
    var tail := Suffix(k);
    if |base| + |tail| > MaxSheetName then PySliceTo(base, MaxSheetName - |tail|) + tail else base + tail
  }

  /** The text after the last '_'. */
  function LastSegment(s: string): string {
    if s == [] then []
    else if s[|s| - 1] == '_' then []
    else LastSegment(s[..|s| - 1]) + [s[|s| - 1]]
  }

  lemma {:induction false} LastSegmentAfterUnderscore(p: string, d: string)
    requires '_' !in d
    ensures LastSegment(p + ['_'] + d) == d
  {
    var s := p + ['_'] + d;
    if d == [] {
      assert s[|s| - 1] == '_';
    } else {
      var d' := d[..|d| - 1];
      assert s[..|s| - 1] == p + ['_'] + d';
      LastSegmentAfterUnderscore(p, d');
      assert d == d' + [d[|d| - 1]];
    }
  }

  /** A candidate ends in the numeral of its own number. */
  lemma CandidateLastSegment(base: string, k: nat)
    ensures LastSegment(Candidate(base, k)) == NatToString(k)
  {
    var c := Candidate(base, k);
    var d := NatToString(k);
    var p := c[..|c| - |Suffix(k)|];
    assert c == p + Suffix(k);
    assert c == p + ['_'] + d;
    assert forall i :: 0 <= i < |d| ==> d[i] != '_';
    LastSegmentAfterUnderscore(p, d);
  }

  /** Different numbers give different candidates, so renaming always moves on to a new name. */
  lemma CandidateInjective(base: string, j: nat, k: nat)
    requires Candidate(base, j) == Candidate(base, k)
    ensures j == k
  {
    CandidateLastSegment(base, j);
    CandidateLastSegment(base, k);
    NatToStringInjective(j, k);
  }

  /** A suffix is "_" and digits, so it is a legal piece of a worksheet name. */
  lemma SuffixIsSheetName(k: nat)
    ensures HasSheetNameChars(Suffix(k))
  {
    var d := NatToString(k);
    var t := Suffix(k);
    forall i | 0 <= i < |t| ensures !IsForbiddenInSheetName(t[i]) {
      if i > 0 {
        assert t[i] == d[i - 1];
        assert IsAsciiDigit(d[i - 1]);
      }
    }
  }

  lemma SheetNameCharsAppend(a: string, b: string)
    requires HasSheetNameChars(a) && HasSheetNameChars(b)
    ensures HasSheetNameChars(a + b)
  {
    forall i | 0 <= i < |a + b| ensures !IsForbiddenInSheetName((a + b)[i]) {
      if i < |a| {
        assert (a + b)[i] == a[i];
      } else {
        assert (a + b)[i] == b[i - |a|];
      }
    }
  }

  /** A candidate is a legal worksheet name of at most 31 characters while its number has at most 30 digits. */
  lemma CandidateIsSheetName(base: string, k: nat)
    requires |base| <= MaxSheetName && HasSheetNameChars(base) && |NatToString(k)| <= 30
    ensures 1 <= |Candidate(base, k)| <= MaxSheetName && HasSheetNameChars(Candidate(base, k))
  {
    SuffixIsSheetName(k);
    var tail := Suffix(k);
    if |base| + |tail| > MaxSheetName {
      var cut := PySliceTo(base, MaxSheetName - |tail|);
      assert HasSheetNameChars(cut) by {
        forall i | 0 <= i < |cut| ensures !IsForbiddenInSheetName(cut[i]) {
          assert cut[i] == base[i];
        }
      }
      SheetNameCharsAppend(cut, tail);
      assert Candidate(base, k) == cut + tail;
    } else {
      SheetNameCharsAppend(base, tail);
      assert Candidate(base, k) == base + tail;
    }
  }

  /** The candidates numbered 1..m. */
  function Candidates(base: string, m: nat): set<string> {
    if m == 0 then {} else Candidates(base, m - 1) + {Candidate(base, m)}
  }

  lemma {:induction false} CandidatesExclude(base: string, m: nat, k: nat)
    requires m < k
    ensures Candidate(base, k) !in Candidates(base, m)
  {
    if m > 0 {
      CandidatesExclude(base, m - 1, k);
      CandidatesDiffer(base, m, k);
      NotInUnion(Candidates(base, m - 1), Candidate(base, k), Candidate(base, m));
    }
  }

  lemma NotInUnion(names: set<string>, x: string, y: string)
    requires x !in names && x != y
    ensures x !in names + {y}
  {
  }

  lemma CandidatesDiffer(base: string, j: nat, k: nat)
    requires j != k
    ensures Candidate(base, j) != Candidate(base, k)
  {
    if Candidate(base, j) == Candidate(base, k) {
      CandidateInjective(base, j, k);
    }
  }

  lemma {:induction false} CandidatesCount(base: string, m: nat)
    ensures |Candidates(base, m)| == m
  {
    if m > 0 {
      CandidatesCount(base, m - 1);
      CandidatesExclude(base, m - 1, m);
    }
  }

  lemma {:induction false} CandidatesWithin(base: string, m: nat, existing: set<string>)
    requires forall j :: 1 <= j <= m ==> Candidate(base, j) in existing
    ensures m <= |existing|
  {
    CandidatesCount(base, m);
    CandidatesSubset(base, m, existing);
    SubsetCardinality(Candidates(base, m), existing);
  }

  lemma {:induction false} CandidatesSubset(base: string, m: nat, existing: set<string>)
    requires forall j :: 1 <= j <= m ==> Candidate(base, j) in existing
    ensures Candidates(base, m) <= existing
  {
    if m > 0 {
      CandidatesSubset(base, m - 1, existing);
    }
  }

  lemma SubsetCardinality(a: set<string>, b: set<string>)
    requires a <= b
    ensures |a| <= |b|
  {
    assert b == a + (b - a);
  }

  /**
   * sanitize_sheet_name: the base name when it is free, otherwise the first
   * candidate "_1", "_2", ... that is not yet a sheet name.
   */
  method SanitizeSheetName(name: string, existing: set<string>) returns (r: string)
    ensures r !in existing
    ensures BaseSheetName(name) !in existing ==> r == BaseSheetName(name)
    ensures BaseSheetName(name) in existing ==>
      exists k :: 1 <= k <= |existing| + 1 && r == Candidate(BaseSheetName(name), k) &&
        forall j :: 1 <= j < k ==> Candidate(BaseSheetName(name), j) in existing
    ensures |NatToString(|existing| + 1)| <= 30 ==> 1 <= |r| <= MaxSheetName && HasSheetNameChars(r)
    ensures ChosenSheetName(name, existing, r)
  {
    var base := BaseSheetName(name);
    r := base;
    var i := 1;
    while r in existing
      invariant 1 <= i <= |existing| + 2
      invariant i == 1 ==> r == base
      invariant i > 1 ==> r == Candidate(base, i - 1) && base in existing
      invariant forall j :: 1 <= j < i - 1 ==> Candidate(base, j) in existing
      decreases |existing| + 2 - i
    {
      CandidatesWithin(base, i - 1, existing);
      r := Candidate(base, i);
      i := i + 1;
    }
    if i > 1 {
      CandidatesWithin(base, i - 2, existing);
      if |NatToString(|existing| + 1)| <= 30 {
        NatToStringMonotone(i - 1, |existing| + 1);
        CandidateIsSheetName(base, i - 1);
      }
    }
  }

  /**
   * The name sanitize_sheet_name returns for `name` when `existing` are the
   * names in use: a name not in use; the base name when that is free;
   * otherwise the candidate "_k" with the smallest k not in use.
   */
  ghost predicate ChosenSheetName(name: string, existing: set<string>, r: string) {
    var base := BaseSheetName(name);
    r !in existing
    && (base !in existing ==> r == base)
    && (base in existing ==>
          exists k :: 1 <= k && r == Candidate(base, k) && forall j :: 1 <= j < k ==> Candidate(base, j) in existing)
  }

  /** The rule names exactly one sheet: two names it allows are the same name. */
  lemma ChosenSheetNameUnique(name: string, existing: set<string>, r1: string, r2: string)
    requires ChosenSheetName(name, existing, r1) && ChosenSheetName(name, existing, r2)
    ensures r1 == r2
  {
    var base := BaseSheetName(name);
    if base in existing {
      var k1 :| 1 <= k1 && r1 == Candidate(base, k1) && forall j :: 1 <= j < k1 ==> Candidate(base, j) in existing;
      var k2 :| 1 <= k2 && r2 == Candidate(base, k2) && forall j :: 1 <= j < k2 ==> Candidate(base, j) in existing;
      assert k1 == k2;
    }
  }

  /**
   * Sheets added one after another, each named by the rule from its label:
   * names[i] is chosen for labels[i] against the names in use before it,
   * `prior` and then names[..i].
   */
  ghost predicate NamedInTurn(prior: seq<string>, names: seq<string>, labels: seq<string>) {
    InTurn(prior, names, labels, ChosenSheetName)
  }

  /** Names given in turn by some rule `chosen`, from the labels, against the names already in use. */
  ghost predicate InTurn(prior: seq<string>, names: seq<string>, labels: seq<string>,
                         chosen: (string, set<string>, string) -> bool)
    decreases |names|
  {
    |names| <= |labels| &&
    (names == [] ||
      var n := |names| - 1;
      InTurn(prior, names[..n], labels, chosen) && chosen(labels[n], SetOf(prior + names[..n]), names[n]))
  }

  lemma NamedInTurnSnoc(prior: seq<string>, names: seq<string>, labels: seq<string>, name: string)
    requires NamedInTurn(prior, names, labels) && |names| < |labels|
    requires ChosenSheetName(labels[|names|], SetOf(prior + names), name)
    ensures NamedInTurn(prior, names + [name], labels)
  {
    assert (names + [name])[..|names|] == names;
  }

  /** Read position by position: sheet i is named by the rule from labels[i] against everything added before it. */
  lemma NamedInTurnAt(prior: seq<string>, names: seq<string>, labels: seq<string>, i: nat)
    requires NamedInTurn(prior, names, labels) && i < |names|
    ensures ChosenSheetName(labels[i], SetOf(prior + names[..i]), names[i])
  {
    InTurnAt(prior, names, labels, ChosenSheetName, i);
  }

  lemma {:induction false} InTurnAt(prior: seq<string>, names: seq<string>, labels: seq<string>,
                                    chosen: (string, set<string>, string) -> bool, i: nat)
    requires InTurn(prior, names, labels, chosen) && i < |names|
    ensures chosen(labels[i], SetOf(prior + names[..i]), names[i])
    decreases |names|
  {
    var n := |names| - 1;
    if i < n {
      InTurnAt(prior, names[..n], labels, chosen, i);
      assert names[..n][..i] == names[..i] && names[..n][i] == names[i];
    }
  }

  /** Sheets named in turn never reuse a name, neither one from `prior` nor one of their own. */
  lemma {:induction false} NamedInTurnDistinct(prior: seq<string>, names: seq<string>, labels: seq<string>)
    requires NamedInTurn(prior, names, labels)
    ensures forall i :: 0 <= i < |names| ==> names[i] !in prior
    ensures forall i, j :: 0 <= i < j < |names| ==> names[i] != names[j]
  {
    forall i | 0 <= i < |names| ensures names[i] !in SetOf(prior + names[..i]) {
      NamedInTurnAt(prior, names, labels, i);
    }
    forall i, j | 0 <= i < j < |names| ensures names[i] != names[j] {
      assert names[i] in prior + names[..j];
    }
  }

  // ---------------------------------------------------------------------
  // sanitize_filename
  // ---------------------------------------------------------------------

  /** The characters kept by the first substitution: \w, '-', '.', '(', ')' and space. */
  predicate KeptInFilename(c: char) {
    IsWordChar(c) || c == '-' || c == '.' || c == '(' || c == ')' || c == ' '
  }

  predicate NotKeptInFilename(c: char) { !KeptInFilename(c) }

  predicate IsUnderscore(c: char) { c == '_' }

  /** A character that can appear in a sanitized file name. */
  predicate IsFilenameChar(c: char) {
    IsWordChar(c) || c == '-' || c == '.' || c == '(' || c == ')'
  }

  /** re.sub(pattern + '+', c, s): every maximal run of characters satisfying p becomes one c. */
  function ReplaceRuns(s: string, p: char -> bool, c: char): (r: string)
    ensures |r| <= |s|
    ensures forall i :: 0 <= i < |r| ==> r[i] == c || !p(r[i])
    decreases |s|
  {
    if s == [] then []
    else if p(s[0]) then [c] + ReplaceRuns(TrimLeft(s, p), p, c)
    else [s[0]] + ReplaceRuns(s[1..], p, c)
  }

  /** A property of every character of s, and of c, holds of every character of the substitution. */
  lemma {:induction false} ReplaceRunsPreserves(s: string, p: char -> bool, c: char, q: char -> bool)
    requires q(c) && forall i :: 0 <= i < |s| ==> q(s[i])
    ensures forall i :: 0 <= i < |ReplaceRuns(s, p, c)| ==> q(ReplaceRuns(s, p, c)[i])
    decreases |s|
  {
    if s != [] {
      var rest := if p(s[0]) then TrimLeft(s, p) else s[1..];
      assert forall i :: 0 <= i < |rest| ==> rest[i] == s[|s| - |rest| + i];
      ReplaceRunsPreserves(rest, p, c, q);
      var r := ReplaceRuns(rest, p, c);
      var first := if p(s[0]) then c else s[0];
      assert ReplaceRuns(s, p, c) == [first] + r;
      forall i | 0 <= i < |[first] + r| ensures q(([first] + r)[i]) {
        if i > 0 {
          assert ([first] + r)[i] == r[i - 1];
        }
      }
    }
  }

  /** Where nothing matches, the substitution changes nothing. */
  lemma {:induction false} ReplaceRunsNoMatch(s: string, p: char -> bool, c: char)
    requires forall i :: 0 <= i < |s| ==> !p(s[i])
    ensures ReplaceRuns(s, p, c) == s
  {
    if s != [] {
      ReplaceRunsNoMatch(s[1..], p, c);
    }
  }

  /** The two substitutions: other characters, then whitespace, in runs become '_'. */
  function Underscored(s: string): (r: string)
    ensures |r| <= |s|
    ensures forall i :: 0 <= i < |r| ==> IsFilenameChar(r[i])
  {
    var kept := ReplaceRuns(s, NotKeptInFilename, '_');
    ReplaceRunsPreserves(kept, IsSpace, '_', KeptInFilename);
    ReplaceRuns(kept, IsSpace, '_')
  }

  /** str.strip('_'). */
  function StripUnderscores(s: string): (r: string)
    ensures |r| <= |s|
    ensures (forall i :: 0 <= i < |s| ==> IsFilenameChar(s[i])) ==> forall i :: 0 <= i < |r| ==> IsFilenameChar(r[i])
    ensures r == [] || (r[0] != '_' && r[|r| - 1] != '_')
  {
    var left := TrimLeft(s, IsUnderscore);
    var stripped := TrimRight(left, IsUnderscore);
    if forall i :: 0 <= i < |s| ==> IsFilenameChar(s[i]) then
      TrimPreserves(s, IsUnderscore, IsFilenameChar);
      stripped
    else
      stripped
  }

  /**
   * sanitize_filename: runs of other characters become '_', runs of
   * whitespace become '_', '_' is stripped from both ends, and the result is
   * cut to maxLen characters.
   */
  function SanitizeFilename(s: string, maxLen: nat): (r: string)
    ensures |r| <= maxLen
    ensures forall i :: 0 <= i < |r| ==> IsFilenameChar(r[i])
    ensures r == [] || r[0] != '_'
  {
    var u := Underscored(s);
    var stripped := StripUnderscores(u);
    if |stripped| > maxLen then stripped[..maxLen] else stripped
  }

  /** A name already made of allowed characters, with no '_' at either end and short enough, is kept as is. */
  lemma SanitizeFilenameKeepsSafeNames(s: string, maxLen: nat)
    requires forall i :: 0 <= i < |s| ==> IsFilenameChar(s[i])
    requires s == [] || (s[0] != '_' && s[|s| - 1] != '_')
    requires |s| <= maxLen
    ensures SanitizeFilename(s, maxLen) == s
  {
    forall i | 0 <= i < |s| ensures !NotKeptInFilename(s[i]) && !IsSpace(s[i]) {
      WordCharIsNotSpace(s[i]);
    }
    ReplaceRunsNoMatch(s, NotKeptInFilename, '_');
    ReplaceRunsNoMatch(s, IsSpace, '_');
    TrimLeftIdentity(s, IsUnderscore);
    TrimRightIdentity(s, IsUnderscore);
  }

  // ---------------------------------------------------------------------
  // colnum_to_excel
  // ---------------------------------------------------------------------

  /** Bijective base 26 with digits A..Z: 1 is "A", 26 is "Z", 27 is "AA"; 0 is "". */
  function ColumnLetters(m: nat): (r: string)
    ensures forall i :: 0 <= i < |r| ==> IsAsciiUpper(r[i])
    ensures r == [] <==> m == 0
  {
    if m == 0 then [] else ColumnLetters((m - 1) / 26) + [('A' as int + (m - 1) % 26) as char]
  }

  /** The column letters of the 0-based column n; "" when n is negative. */
  function ColumnName(n: int): string {
    if n + 1 > 0 then ColumnLetters(n + 1) else []
  }

  /** Reads column letters back as a 1-based column number. */
  function LettersValue(s: string): nat
    requires forall i :: 0 <= i < |s| ==> IsAsciiUpper(s[i])
  {
    if s == [] then 0 else LettersValue(s[..|s| - 1]) * 26 + LetterDigit(s[|s| - 1]) + 1
  }

  /** The position of a capital letter in the alphabet, from 0. */
  function LetterDigit(c: char): (d: nat)
    requires IsAsciiUpper(c)
    ensures d < 26 && d == c as int - 'A' as int
  {
    c as int - 'A' as int
  }

  lemma {:induction false} LettersValueOfColumnLetters(m: nat)
    ensures LettersValue(ColumnLetters(m)) == m
  {
    if m > 0 {
      var s := ColumnLetters(m);
      assert s[..|s| - 1] == ColumnLetters((m - 1) / 26);
      LettersValueOfColumnLetters((m - 1) / 26);
    }
  }

  lemma {:induction false} ColumnLettersOfValue(s: string)
    requires forall i :: 0 <= i < |s| ==> IsAsciiUpper(s[i])
    ensures ColumnLetters(LettersValue(s)) == s
  {
    if s != [] {
      var init := s[..|s| - 1];
      var d := LetterDigit(s[|s| - 1]);
      ColumnLettersOfValue(init);
      var m := LettersValue(s);
      assert m - 1 == LettersValue(init) * 26 + d;
      assert (m - 1) / 26 == LettersValue(init);
      assert (m - 1) % 26 == d;
      assert s == init + [s[|s| - 1]];
    }
  }

  /** Different columns get different letters, and every letter string names exactly one column. */
  lemma ColumnNameInjective(a: nat, b: nat)
    requires ColumnName(a) == ColumnName(b)
    ensures a == b
  {
    LettersValueOfColumnLetters(a + 1);
    LettersValueOfColumnLetters(b + 1);
  }

  lemma ColumnNameSurjective(s: string)
    requires s != [] && forall i :: 0 <= i < |s| ==> IsAsciiUpper(s[i])
    ensures ColumnName(LettersValue(s) - 1) == s
  {
    ColumnLettersOfValue(s);
    var m := LettersValue(s);
    assert m >= 1;
    assert ColumnName(m - 1) == ColumnLetters(m);
  }

  /** The first column is A, the 26th Z, then AA follows, and ZZ is the 702nd column. */
  lemma ColumnNameExamples()
    ensures ColumnName(0) == "A" && ColumnName(25) == "Z"
    ensures ColumnName(26) == "AA" && ColumnName(701) == "ZZ"
  {
    assert ColumnLetters(1) == "A";
    assert ColumnLetters(26) == "Z";
    assert ColumnLetters(27) == ColumnLetters(1) + "A";
    assert ColumnLetters(702) == ColumnLetters(26) + "Z";
  }

  /** colnum_to_excel: the divmod loop, prepending one letter per step. */
  method ColnumToExcel(n: int) returns (s: string)
    ensures s == ColumnName(n)
  {
    s := [];
    var m := n + 1;
    while m > 0
      invariant (if m > 0 then ColumnLetters(m) else []) + s == ColumnName(n)
      decreases m
    {
      var q, r := (m - 1) / 26, (m - 1) % 26;
      assert ColumnLetters(m) == ColumnLetters(q) + [('A' as int + r) as char];
      s := [('A' as int + r) as char] + s;
      m := q;
    }
  }

  // ---------------------------------------------------------------------
  // wrap_labels
  // ---------------------------------------------------------------------

  /** A text longer than maxChars is cut to maxChars, right-stripped, and given "...". */
  function Truncated(text: string, maxChars: nat): (r: string)
    ensures |text| <= maxChars ==> r == text
    ensures |text| > maxChars ==> EndsWith(r, "...") && |r| - 3 <= maxChars && r[..|r| - 3] == text[..|r| - 3]
    ensures |text| > maxChars ==> forall i :: |r| - 3 <= i < maxChars ==> IsSpace(text[i])
    ensures |text| > maxChars ==> |r| == 3 || !IsSpace(r[|r| - 4])
  {
    if |text| > maxChars then
      var kept := RStrip(text[..maxChars]);
      assert (kept + "...")[..|kept|] == kept;
      kept + "..."
    else text
  }

  /**
   * wrap_labels: each text as a string, truncated, then broken into lines
   * by `wrap` (textwrap.wrap) and joined with newlines.
   */
  method WrapLabels(labels: seq<Cell>, wrapWidth: nat, maxChars: nat, wrap: (string, nat) -> seq<string>)
    returns (wrapped: seq<string>)
    ensures |wrapped| == |labels|
    ensures forall i :: 0 <= i < |labels| ==>
      wrapped[i] == Join(wrap(Truncated(CellText(labels[i]), maxChars), wrapWidth), '\n')
  {
    wrapped := [];
    var k := 0;
    while k < |labels|
      invariant 0 <= k <= |labels| && |wrapped| == k
      invariant forall i :: 0 <= i < k ==>
        wrapped[i] == Join(wrap(Truncated(CellText(labels[i]), maxChars), wrapWidth), '\n')
    {
      var text := TruncateLabel(labels[k], maxChars);
      wrapped := wrapped + [Join(wrap(text, wrapWidth), '\n')];
      k := k + 1;
    }
  }

  /** One label of wrap_labels before wrapping: str(label), cut when longer than maxChars. */
  method TruncateLabel(cell: Cell, maxChars: nat) returns (text: string)
    ensures text == Truncated(CellText(cell), maxChars)
  {
    text := CellText(cell);
    if |text| > maxChars {
      text := RStrip(text[..maxChars]) + "...";
    }
  }

  /** os.path.join(dir, name) for a relative name. */
  function PathJoin(dir: string, name: string): string {
    if dir == [] || dir[|dir| - 1] == '/' then dir + name else dir + "/" + name
  }
}
