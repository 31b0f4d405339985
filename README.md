# Survey tabulation, modelled in Dafny

This project models the core of a small Python tool that turns survey spreadsheets into summary workbooks.

- **Input.** An Excel file of responses, one column per question. A control sheet holds one row of keywords that say how each question is read:
  - "FECHADA": a closed question;
  - "MÚLTIPLA": several answers joined by `;`;
  - "ABERTA" or "IGNORAR": the question is skipped;
  - a missing keyword: treated as closed.
- **Summary workbook.**
  - The driver writes one overall sheet and one sheet per value of the grouping column.
  - Each sheet lists every question with its answers and their shares in percent.
  - Only the TOP_N most frequent answers are kept, and the rest are merged into "Outros", which is written last.
  - Each question gets a chart: a pie when there are at most four answers, else a bar chart.
- **Other parts that are modelled:**
  - the helpers for sheet names, file names, Excel column letters and chart labels;
  - four dated one-off scripts that write simpler summary workbooks;
  - an archived question pipeline (question objects, handlers for the three kinds of question, a text cleaner and a gibberish filter) and its CSV export;
  - a generator that turns a questionnaire table into a document;
  - a generator that turns a Markdown-like diagnosis text into a report with the charts inserted.

| Dafny module | file | models |
|---|---|---|
| `Text` | text.dfy | the Python string built-ins the code relies on: `strip`, `rstrip`, `split`, `join`, `lower`, `upper`, `str(int)`, `in` |
| `Cells` | cells.dfy | a pandas cell (missing, text or number), `str()` of a cell, a frame of rows |
| `Seqs` | seqs.dfy | `unique()`, a stable descending sort, filters and maps over sequences |
| `Cleaning` | cleaning.dfy | `data_cleaning.py`: clean_single, expand_multiple, value counts, cap_top_n, to_percentages, and the "Outros last" reordering in `summarizer.py` |
| `Naming` | naming.dfy | `helpers.py`: sanitize_sheet_name, sanitize_filename, colnum_to_excel, wrap_labels |
| `Book` | book.dfy | the Excel writer, as a log of sheets added, cells written and charts saved |
| `Summary`, `SummaryLayout` | summary.dfy, summary_layout.dfy | `summarizer.py`: one summary sheet, and the layout of its rows |
| `Pipeline` | pipeline.dfy | the driver in `main.py`, and its copy at the end of `analysis.py` |
| `ScriptCommon`, `OneSheetSummary`, `ShareSheets`, `AllColumnSheets`, `ControlledSheets` | script_common.dfy, sep16.dfy, sep20.dfy, sep20v2.dfy, sep20v3.dfy | the scripts `2025-09-16.py`, `2025-09-20.py`, `2025-09-20v2.py` and `2025-09-20v3.py` |
| `Questions`, `TextProcessing`, `CsvExport` | questions.dfy, textproc.dfy, export.dfy | `question.py`, `archive/question_handlers.py`, `text_processing.py`, `csv_export.py` |
| `Docx`, `SurveyDoc` | docx.dfy, survey_doc.dfy | a Word document as a list of paragraphs and runs, and `create_survey.py` |
| `Markdown`, `Report` | markdown.dfy, report.dfy | `generate_report.py` |

`analysis.py` and `2025-09-20v3.py` each carry their own copies of the helpers and cleaning functions. Those copies do the same thing as `helpers.py` and `data_cleaning.py`, so one module models all of them. The driver at the end of `analysis.py` is `Pipeline.Run` called with `Pipeline.AnalysisGeneralLabel` ("geral") in place of `GENERAL_LABEL` ("Geral").

How the model is built:

- Each operation that works through a loop is a `method`. Its postcondition ties the result to a specification function, and lemmas prove what the source promises about that function.
- The Excel writer, the Word document and the question list are classes, because the source changes them in place.

## Model

| member | source | states |
|---|---|---|
| Text.Strip | data_cleaning.py:12 | `str.strip()`: the result neither starts nor ends with whitespace, is no longer than the input and uses only its characters |
| Text.StripIsSlice | data_cleaning.py:12 | the result is the slice of the input between a run of leading and a run of trailing whitespace, so only outer whitespace is removed |
| Text.StripPreserves | data_cleaning.py:12 | stripping keeps any property that holds of every character |
| Text.StripIdempotent | data_cleaning.py:12 | a stripped text is stripped, so stripping twice gives the same as stripping once |
| Text.StripOfStripped | data_cleaning.py:12 | a text with no outer whitespace is unchanged by `strip()` |
| Text.StripEmptyIffBlank | data_cleaning.py:12 | `x.strip() == ""` holds exactly when every character of `x` is whitespace (both directions) |
| Text.RStrip | helpers.py:52 | `str.rstrip()`: the result is a prefix of the input that does not end in whitespace, and every removed character is whitespace |
| Text.WordCharIsNotSpace | helpers.py:27 | a regex word character is never whitespace |
| Text.ContainsSlice | csv_export.py:19 | Python's substring test `needle in hay` holds exactly when the needle occurs at some position of the text |
| Text.NatToString | helpers.py:14 | `str(n)` for a natural: non-empty decimal digits, with no leading zero |
| Text.DigitsValueOfNatToString | helpers.py:14 | reading the digits of `str(n)` back gives `n` (round trip) |
| Text.NatToStringInjective | helpers.py:14 | different numbers print differently, so the suffixes `_1`, `_2`, … never coincide |
| Text.NatToStringMonotone | helpers.py:14 | a larger number never prints shorter |
| Text.Split | data_cleaning.py:27 | `str.split(sep)`: at least one part, and no part contains the separator |
| Text.JoinSplit | data_cleaning.py:27 | joining the parts of `split(sep)` with `sep` gives back the text (round trip) |
| Text.SplitWithoutSeparator | data_cleaning.py:27 | a text without the separator splits into itself alone |
| Text.LowerChar | text_processing.py:22 | a lowered character is never an upper-case letter |
| Text.Lower | text_processing.py:22 | `str.lower()`: same length, each character lowered |
| Text.Upper | main.py:48 | `str.upper()`: no ASCII lower-case letter is left; the result is between one and two times the input's length; without "ß", it has the input's length and each character is that character upper-cased |
| Text.UpperChar | main.py:48 | one character upper-cased: an ASCII or Latin-1 lower-case letter becomes its capital (`ß` becomes "SS"), and a character without case is kept |
| Text.UpperAppend | main.py:48 | `upper()` works character by character: `upper(a + b) == upper(a) + upper(b)` |
| Text.LowerAppend | text_processing.py:22 | `lower()` works character by character: `lower(a + b) == lower(a) + lower(b)` |
| Text.LowerOfUpper | main.py:48 | lower-casing an upper-cased text without "ß" gives the lower-cased text |
| Text.UpperOfUpper | main.py:48 | `upper()` leaves a keyword that is already upper case, such as "FECHADA", unchanged |
| Cells.CellText | summarizer.py:87 | `str(cell)`: a text cell prints as itself and a missing cell as "nan"; only a text cell can print as "" |
| Cells.Column | summarizer.py:48 | `df[col]`: one cell per row, the cell at that column, or missing when the row is shorter |
| Seqs.Filter | data_cleaning.py:16 | a filter keeps exactly the elements that satisfy the predicate, and never lengthens |
| Seqs.FilterAppend | data_cleaning.py:16 | filtering works element by element: `filter(a + b) == filter(a) + filter(b)` |
| Seqs.SortDesc | data_cleaning.py:41 | `sort_values(ascending=False)`: a non-increasing permutation of the input |
| Seqs.InsertBelow | data_cleaning.py:41 | after inserting below the head of a non-increasing sequence, no key exceeds the head's |
| Seqs.SortDescOfSorted | data_cleaning.py:41 | an input already in non-increasing order is unchanged |
| Seqs.SortDescStable | csv_export.py:51 | entries with equal keys keep their input order, as Python's `sorted` does |
| Seqs.SortDescDistinct | data_cleaning.py:41 | sorting keeps labels distinct |
| Seqs.Map | data_cleaning.py:11-13 | `Series.apply`: one result per element, in order |
| Seqs.MapEach | 2025-09-16.py:36-40 | the loop that transforms a column cell by cell computes the map |
| Seqs.Unique | main.py:84 | `unique()`: no repeats, and exactly the values of the input |
| Seqs.FirstIndex | main.py:84 | the first position where a value occurs |
| Seqs.UniqueFirstAppearance | main.py:84 | `unique()` lists the values in the order of their first appearance |
| Cleaning.NormalizeCell | data_cleaning.py:11-13 | the per-cell lambda: a cell becomes missing exactly when it is missing or blank; otherwise it becomes a token (a trimmed non-empty text, or a number); a token is left as it is |
| Cleaning.StripFacts | data_cleaning.py:12 | the facts about `strip()` that cleaning relies on: empty iff blank, trimmed, identity on trimmed text |
| Cleaning.CleanSingle | data_cleaning.py:7-16 | clean_single: never longer than the column, and every cell kept is a token |
| Cleaning.CleanSingleIsMapThenDropna | data_cleaning.py:11-16 | clean_single is exactly the per-cell lambda followed by `dropna()`, in order |
| Cleaning.CleanSingleAppend | data_cleaning.py:11-16 | cleaning works cell by cell: `clean(a + b) == clean(a) + clean(b)` |
| Cleaning.CleanSingleOfTokens | data_cleaning.py:11-16 | a column of tokens comes back unchanged |
| Cleaning.CleanSingleIdempotent | data_cleaning.py:7-16 | cleaning a cleaned column changes nothing |
| Cleaning.CleanSingleEmptyIffAllBlank | data_cleaning.py:11-16 | the result is empty exactly when every cell is missing or blank |
| Cleaning.CleanSingleKeepsAnswers | data_cleaning.py:11-16 | every non-blank cell survives in its trimmed form |
| Cleaning.SplitCell | data_cleaning.py:22-30 | split_cell: every piece is a token and contains no separator; a number gives exactly itself |
| Cleaning.CleanSingleAvoids | data_cleaning.py:27-28 | cleaning never introduces the separator |
| Cleaning.PiecesAvoid | data_cleaning.py:27-28 | the cleaned parts of a split contain no separator |
| Cleaning.ExpandMultipleTokens | data_cleaning.py:19-36 | expand_multiple: every exploded element is a token (no NA, no "") and contains no separator |
| Cleaning.ExpandMultipleAppend | data_cleaning.py:33 | `explode` works cell by cell: the tokens of `a + b` are those of `a` followed by those of `b` |
| Cleaning.SplitCellWithoutSeparator | data_cleaning.py:22-30 | a cell without the separator splits into exactly what clean_single keeps of it |
| Cleaning.ExpandWithoutSeparator | data_cleaning.py:19-36 | on a column without separators expand_multiple coincides with clean_single |
| Cleaning.SplitCellRoundTrip | data_cleaning.py:26-28 | when every part is already trimmed and non-empty, joining the pieces with the separator gives back the cell text |
| Cleaning.CleanPiecesKept | data_cleaning.py:27-28 | parts that are non-empty and trimmed are all kept, unchanged and in order |
| Cleaning.Total | data_cleaning.py:51 | the sum of the counts is never negative |
| Cleaning.AddTo | data_cleaning.py:53 | `top[label] = top.get(label, 0) + k`: a new label is appended at the end; an existing label keeps the length |
| Cleaning.AddToCountOf | data_cleaning.py:53 | the count of that label rises by `k`, and every other count is unchanged |
| Cleaning.AddToTotal | data_cleaning.py:53 | the total rises by `k` |
| Cleaning.AddToKeeps | data_cleaning.py:53 | the labels keep their positions, and the other entries are unchanged |
| Cleaning.AddToDistinct | data_cleaning.py:53 | labels stay distinct |
| Cleaning.TallyFacts | summarizer.py:53 | counting the answers: distinct labels, each label's count equals its number of occurrences, the counts sum to the number of answers, and each label occurs at least once |
| Cleaning.CountOfDistinct | summarizer.py:53 | with distinct labels, the count of a label is the count at its own entry |
| Cleaning.CountOfAbsent | summarizer.py:53 | a label with no entry counts 0 |
| Cleaning.ValueCountsFacts | summarizer.py:53 | `value_counts()`: everything the three lemmas below state |
| Cleaning.ValueCountsShape | summarizer.py:53 | `value_counts()` is in non-increasing order, has distinct labels, sums to the number of answers and is no longer than them |
| Cleaning.ValueCountsCounts | summarizer.py:53 | each label's count is its number of occurrences among the answers |
| Cleaning.ValueCountsMembers | summarizer.py:53 | only labels that occur appear, each with a count of at least 1 |
| Cleaning.TallyLength | summarizer.py:53 | there are no more labels than answers |
| Cleaning.PositiveCountsBound | summarizer.py:53 | with counts of at least 1, the number of labels is at most the total |
| Cleaning.CapTopN | data_cleaning.py:39-55 | cap_top_n: at most `n + 1` entries and no more than the input; with at most `n` labels, the same entries in non-increasing order |
| Cleaning.CapTopNTotal | data_cleaning.py:48-53 | the total count is preserved: what is dropped goes to "Outros" |
| Cleaning.MergeRestTotal | data_cleaning.py:48-53 | merging every count past the first `n` into "Outros" keeps the total |
| Cleaning.CapTopNDistinct | data_cleaning.py:48-53 | labels stay distinct, even when "Outros" is itself one of the top labels |
| Cleaning.CapTopNKeptEntry | data_cleaning.py:41-48 | every entry other than "Outros" is one of the first `n` entries of the sorted counts, at the same position |
| Cleaning.CapTopNKeepsCounts | data_cleaning.py:48 | a kept label other than "Outros" keeps its count |
| Cleaning.CapTopNDropsSmallest | data_cleaning.py:41-48 | every dropped label counts no more than any kept one |
| Cleaning.CapTopNKeepsTopLabels | data_cleaning.py:41-48 | each of the `n` most frequent labels is kept |
| Cleaning.RoundHalfEven | data_cleaning.py:67 | the rounding of pandas `Series.round` (numpy's round half to even): the result is within half a unit of `a / b`, and on a tie it is the even neighbour |
| Cleaning.PercentBounds | data_cleaning.py:67 | `(count / total * 100).round(2)`, in hundredths of a percent: at most 100 %, within half a hundredth of the exact value, and even when the exact value lies halfway between two hundredths |
| Cleaning.PercentTieExample | data_cleaning.py:67 | 1 of 32 is 3.125 %, which rounds to 3.12 (ties to even), not 3.13 |
| Cleaning.PercentOfWholeAndNothing | data_cleaning.py:67 | a count equal to the total is 100 %; a zero count is 0 % |
| Cleaning.DivAdd | archive/question_handlers.py:74 | shares over the same total add up (also the shares of 2025-09-20.py:62) |
| Cleaning.DivSelf | archive/question_handlers.py:74 | all the answers make a share of 1 (also the shares of 2025-09-20.py:62) |
| Cleaning.Shares | data_cleaning.py:67 | one share per entry, with the same label, worth that entry's percentage of the total |
| Cleaning.SharesLabels | data_cleaning.py:67 | the labels are unchanged and stay in order |
| Cleaning.ToPercentages | data_cleaning.py:58-67 | to_percentages: empty exactly when the total is 0; otherwise a non-increasing permutation of the per-label shares |
| Cleaning.ToPercentagesDistinct | data_cleaning.py:58-67 | distinct labels stay distinct |
| Cleaning.Without | summarizer.py:80 | `pct.drop(label)`: no entry with that label remains, and nothing is added |
| Cleaning.ShareOf | summarizer.py:79 | `pct[label]` is the value of an entry with that label |
| Cleaning.ShareOfDistinct | summarizer.py:79 | with distinct labels, `pct[label]` is the value at that label's position |
| Cleaning.WithoutDropsOne | summarizer.py:80 | with distinct labels, `drop` removes exactly that one entry and keeps the rest in order |
| Cleaning.WithoutAbsent | summarizer.py:80 | dropping an absent label changes nothing |
| Cleaning.OthersLastMoves | summarizer.py:78-81 | with "Outros" at position `k`, the result is the other entries in their order, followed by "Outros" |
| Cleaning.OthersLastPermutation | summarizer.py:78-83 | the reordering is a permutation of the distribution |
| Cleaning.OthersLastAbsent | summarizer.py:82-83 | without "Outros", the order is unchanged |
| Naming.ReplaceForbidden | helpers.py:8 | `re.sub(r'[\[\]\:\*\?\/\\]', '_', name)`: same length, no forbidden character, and every other character is kept |
| Naming.BaseSheetName | helpers.py:8 | the cleaned name: 1 to 31 characters with no forbidden character; for a non-empty name, its first `min(len, 31)` characters with the forbidden ones replaced; for an empty name, "Sheet" |
| Naming.PySliceTo | helpers.py:17 | Python's `s[:k]`: a prefix, of length `k` when `0 <= k <= len(s)` |
| Naming.Candidate | helpers.py:14-17 | a retry candidate ends in `_{i}` |
| Naming.LastSegmentAfterUnderscore | helpers.py:14-17 | the text after the last `_` of `p + "_" + d` is `d` when `d` has no `_` |
| Naming.CandidateLastSegment | helpers.py:14-17 | the text after the last `_` of candidate `i` is `str(i)` |
| Naming.CandidateInjective | helpers.py:13-18 | different counters give different candidates, so the loop never retries a name |
| Naming.CandidatesDiffer | helpers.py:13-18 | two different counters give two different names |
| Naming.SuffixIsSheetName | helpers.py:14 | the suffix `_{i}` contains no forbidden character |
| Naming.SheetNameCharsAppend | helpers.py:17 | joining two texts without forbidden characters gives one without them |
| Naming.CandidateIsSheetName | helpers.py:14-17 | a candidate has 1 to 31 characters and no forbidden character |
| Naming.CandidatesExclude | helpers.py:13-18 | candidate `k` is not among the first `m < k` candidates |
| Naming.CandidatesCount | helpers.py:13-18 | the first `m` candidates are `m` distinct names |
| Naming.CandidatesWithin | helpers.py:13-18 | if the first `m` candidates are all taken, then `m` is at most the number of existing names, so the loop ends |
| Naming.CandidatesSubset | helpers.py:13-18 | taken candidates form a subset of the existing names |
| Naming.SanitizeSheetName | helpers.py:6-20 | sanitize_sheet_name: the result is not an existing name; it is the cleaned name when that is free; otherwise it is the first free candidate `_{i}`, found within `len(existing) + 1` tries; it has 1 to 31 characters and no forbidden character; so it is the name ChosenSheetName allows |
| Naming.ChosenSheetNameUnique | helpers.py:6-20 | the naming rule allows exactly one name for a label and a set of existing names |
| Naming.NamedInTurnSnoc | summarizer.py:22-25 | a sheet named by the rule against all names before it extends a sequence of sheets named in turn |
| Naming.NamedInTurnAt | summarizer.py:22-25 | in a sequence named in turn, name `i` is the one the rule gives label `i` against the names before it |
| Naming.InTurnAt | summarizer.py:22-25 | the same, for any naming rule |
| Naming.NamedInTurnDistinct | helpers.py:6-20 | names given in turn are distinct from each other and from the names before them |
| Naming.ReplaceRuns | helpers.py:27-30 | `re.sub(pattern + '+', c, s)`: never longer, and every character is `c` or lies outside the pattern |
| Naming.ReplaceRunsPreserves | helpers.py:27-30 | the substitution keeps any property that holds of `c` and of every character |
| Naming.ReplaceRunsNoMatch | helpers.py:27-30 | a text with no match is unchanged |
| Naming.Underscored | helpers.py:27-30 | after both substitutions only word characters, `-`, `.`, `(`, `)` and `_` remain |
| Naming.StripUnderscores | helpers.py:30 | `strip('_')`: no `_` at either end, and no new characters |
| Naming.SanitizeFilename | helpers.py:23-33 | sanitize_filename: at most `max_len` characters, only file-name characters (no whitespace), and no `_` at the start |
| Naming.SanitizeFilenameKeepsSafeNames | helpers.py:23-33 | a name that is already safe and short enough is returned unchanged |
| Naming.ColumnLetters | helpers.py:38-41 | the bijective base-26 letters of a number: upper-case letters, empty only for 0 |
| Naming.LetterDigit | helpers.py:40 | a letter's digit is its distance from 'A' |
| Naming.LettersValueOfColumnLetters | helpers.py:38-41 | reading the letters of `m` back gives `m` (round trip) |
| Naming.ColumnLettersOfValue | helpers.py:38-41 | the letters of a string's value are that string (round trip in the other direction) |
| Naming.ColumnNameInjective | helpers.py:36-42 | different column numbers get different letters |
| Naming.ColumnNameSurjective | helpers.py:36-42 | every non-empty string of capital letters names some column |
| Naming.ColumnNameExamples | helpers.py:36-42 | 0 is "A", 25 is "Z", 26 is "AA" and 701 is "ZZ" |
| Naming.ColnumToExcel | helpers.py:36-42 | colnum_to_excel: the loop computes the column's letters |
| Naming.Truncated | helpers.py:51-52 | a label of at most `max_chars` characters is unchanged; a longer one is `label[:max_chars]` with trailing whitespace removed, followed by "..." |
| Naming.TruncateLabel | helpers.py:48-52 | `str(label)` followed by the truncation |
| Naming.WrapLabels | helpers.py:45-56 | wrap_labels: one output per label, in order; each is the wrapped lines of the truncated label, joined by newlines |
| Book.Workbook.constructor | main.py:54 | a new workbook has no sheets, no cells and no charts |
| Book.Workbook.SheetSet | summarizer.py:22 | `set(writer.sheets.keys())`: exactly the names of the sheets added so far |
| Book.Workbook.AddWorksheet | summarizer.py:25 | `add_worksheet(name)` for a name not yet used: the name is appended, and nothing else changes |
| Book.Workbook.Write | summarizer.py:30-31 | `ws.write(row, col, value)`: one cell write is appended, and nothing else changes |
| Book.Workbook.SaveChart | summarizer.py:97-100 | saving a chart appends it, and nothing else changes |
| Summary.Answers | summarizer.py:46-69 | the answers counted for a question: expand_multiple for "MÚLTIPLA", clean_single for any other keyword; every one is a token |
| Summary.AnswerPuts | summarizer.py:86-89 | two cell writes per answer |
| Summary.AnswerPutsRows | summarizer.py:86-89 | answer `i` goes to row `row + i`: `str(answer)` in column 0 and `p / 100` in column 1 |
| Summary.AnswerPutsNext | summarizer.py:86-89 | each pass of the answer loop adds exactly the row of the next answer |
| Summary.ColumnsAreColumnsOf | summarizer.py:35 | the block of column `j` is the one its header, keyword and chart path call for |
| Summary.SummarizeSheet | summarizer.py:13-106 | summarize_df_to_excel_and_charts: the new sheet's name is the one sanitize_sheet_name's rule gives the label against the sheets already present (the cleaned label when free, otherwise its first free `_{i}` candidate); it is added to the workbook; the cells written are the header row followed by the sheet body over all columns; the charts saved are the body's charts |
| Summary.WriteHeader | summarizer.py:25-32 | the sheet is added, and the two header cells "Question / Answer" and "Percentage" are written in row 0 |
| Summary.WriteColumns | summarizer.py:35-102 | the column loop writes exactly the body of the sheet, starting at row 1, and saves its charts |
| Summary.WriteStep | summarizer.py:35-102 | one pass of the column loop extends the written body by one column, and the row moves past it |
| Summary.BodyAppend | summarizer.py:35-102 | the body of `j + 1` columns is the body of `j` followed by column `j`'s block at the next free row |
| Summary.BodyStep | summarizer.py:35-102 | the body is built column by column, each starting below the previous one |
| Summary.WriteColumn | summarizer.py:36-102 | one column: a skipped keyword writes nothing; otherwise the question's block is written, and the row moves past it |
| Summary.WriteQuestion | summarizer.py:43-102 | the title "Question: {col}", then the note when there are no answers, or the distribution and the chart |
| Summary.CollectAnswers | summarizer.py:46-69 | the cleaned answers for the keyword |
| Summary.WriteDistribution | summarizer.py:72-102 | the capped percentages, with "Outros" written last, one row each, then a blank row; and one chart |
| Summary.SaveColumnChart | summarizer.py:92-100 | one chart is saved: a pie when there are at most four labels, else a bar chart, at `CHARTS_DIR/{sanitize_filename(label, 50)}_column{letter}.jpg` |
| Summary.WriteAnswers | summarizer.py:86-89 | the answer loop writes the answer rows, and no chart |
| Summary.WriteAnswerRow | summarizer.py:87-88 | one answer row: the label and its fraction |
| SummaryLayout.DistributionShape | summarizer.py:72-75 | the distribution is empty exactly when there are no answers; it has at most TOP_N + 1 labels, in non-increasing order, with no label twice |
| SummaryLayout.SharesLength | data_cleaning.py:67 | one share per count |
| SummaryLayout.WrittenOrderShape | summarizer.py:78-83 | the written order is a permutation of the distribution: with "Outros" at position `k`, the others in order and then "Outros"; without "Outros", unchanged |
| SummaryLayout.AnswerPutsAt | summarizer.py:86-89 | write `w` of the answer loop is half `w % 2` of answer `w / 2`'s row |
| SummaryLayout.AnswerPutsLaid | summarizer.py:86-89 | the answer rows lie in `[row, row + n)`, in increasing order |
| SummaryLayout.AnswerBlockLaid | summarizer.py:86-102 | the answers, then one blank row |
| SummaryLayout.TitledLaid | summarizer.py:43-44 | a title row above a laid-out block gives a laid-out block |
| SummaryLayout.DistributionBlockLaid | summarizer.py:72-102 | the distribution block is laid out in order, at least two rows high, with its last row blank |
| SummaryLayout.QuestionLaid | summarizer.py:43-102 | a question's rows lie within its block, in order, and the block ends with a blank row |
| SummaryLayout.AnsweredLaid | summarizer.py:43-102 | the same for a question that has answers |
| SummaryLayout.NoteLaid | summarizer.py:49-52 | with no answers: the title, the note, then one blank row (`row += 2`) |
| SummaryLayout.ColumnLaid | summarizer.py:36-102 | a column's rows lie within its block, in order, and the block ends with a blank row |
| SummaryLayout.ColumnSize | summarizer.py:36-102 | a skipped column writes nothing; a column without answers takes 3 rows (title, note, blank) and no chart; otherwise it takes the number of labels + 2 rows, writes `1 + 2 × labels` cells, and saves one chart, a pie exactly when there are at most four labels |
| SummaryLayout.UnknownKeywordIsClosed | summarizer.py:47-69 | a keyword other than "MÚLTIPLA", "ABERTA" and "IGNORAR" is handled exactly like "FECHADA" |
| SummaryLayout.PathJoinInjective | summarizer.py:94 | `os.path.join(dir, name)` tells different names apart |
| SummaryLayout.AffixCancel | summarizer.py:94 | a common prefix and suffix cancel out |
| SummaryLayout.ChartFileInjective | summarizer.py:92-94 | different columns of one sheet get different chart files |
| SummaryLayout.StackLaid | summarizer.py:35-102 | one laid-out block below another is laid out |
| SummaryLayout.BodyLaid | summarizer.py:35-102 | the columns' blocks, one below the other from row 1, are laid out |
| SummaryLayout.ColumnsLaid | summarizer.py:35-102 | each column's block is laid out |
| SummaryLayout.SheetBodyLaid | summarizer.py:35-102 | the sheet body's rows start at row 1 and never go back up |
| SummaryLayout.SheetLaid | summarizer.py:28-102 | the header row and then the body: the rows of the whole sheet never go back up |
| ScriptCommon.HeaderName | 2025-09-16.py:8 | `read_excel`'s column name for a header cell: a non-empty text names the column; a missing cell becomes "Unnamed: {k}"; never empty |
| ScriptCommon.HeaderNames | 2025-09-16.py:8 | one name per header cell, in order |
| ScriptCommon.BlankHeadersDistinct | 2025-09-16.py:8 | two missing header cells get different names |
| ScriptCommon.ReadFrame | 2025-09-16.py:8 | `read_excel(header=h)`: when the sheet has a row `h`, the names come from row `h` and the data from the rows below it; otherwise the frame is empty |
| ScriptCommon.ColumnList | 2025-09-16.py:30 | one column per header |
| ScriptCommon.ColumnListAt | 2025-09-16.py:30 | entry `j` is `df[col]` for the `j`-th header |
| ScriptCommon.SummaryNamesStep | 2025-09-20.py:37-40 | a sheet named by sanitize_sheet_name's rule from "Summary_{sheet}" against the names before it (the cleaned label when free, otherwise its first free `_{i}` candidate) extends the names, which stay distinct, one per input sheet in order |
| ScriptCommon.FilledCell | 2025-09-16.py:36-40 | the per-cell lambda: a missing or blank cell becomes "Empty"; any other cell is trimmed as clean_single trims it; the result is always a token |
| ScriptCommon.FillEmptyAgrees | 2025-09-16.py:36-40 | the answers other than "Empty" are exactly those clean_single keeps, and the "Empty" answers are the blank cells plus any literal "Empty" answers |
| ScriptCommon.TabulatedLaid | 2025-09-16.py:30-55 | a title, answer rows below it and a blank row: the block is laid out in order |
| ScriptCommon.AnswersTabulated | 2025-09-16.py:30-55 | a question titled and followed by one row per share and a blank row is `shares + 2` rows high and writes `1 + 2 × shares` cells, in order |
| ScriptCommon.HeaderAbove | 2025-09-16.py:24-28 | the header row stays above the body |
| ScriptCommon.NoCharts | 2025-09-16.py:30-55 | a script that saves no chart leaves the chart log empty |
| ScriptCommon.OnlyPies | 2025-09-20v3.py:183-186 | a script that saves only pie charts saves no other kind |
| Pipeline.ControlKeyword | main.py:41-48 | a column's keyword: `str(kw).strip().upper()`, so it has no ASCII lower-case letter |
| Pipeline.MissingKeywordIsClosed | main.py:41-45 | a column past the control row, or with an empty control cell, is "FECHADA" |
| Pipeline.Keywords | main.py:38-48 | one keyword per header |
| Pipeline.ZipMapKeys | main.py:38-48 | the map's keys are exactly the headers |
| Pipeline.ZipMapLast | main.py:48 | with repeated keys the last assignment wins |
| Pipeline.ControlMapKeys | main.py:37-48 | the control map has exactly the headers as keys |
| Pipeline.ControlMapLast | main.py:37-48 | a header's keyword is that of its last occurrence in the control row |
| Pipeline.BuildControlMap | main.py:37-48 | the loop builds exactly that control map |
| Pipeline.GroupKey | main.py:77-79 | the group key of a cell: in a column holding text, `astype(str).str.strip()`, so a missing cell becomes "nan" and text is trimmed; in any other column the cell itself |
| Pipeline.NanIsStripped | main.py:79 | "nan" is unchanged by `strip()` |
| Pipeline.RekeyRow | main.py:77-79 | only the group cell of a row is rewritten |
| Pipeline.KeptRows | main.py:77-81 | the rows kept for grouping all have a group: not missing and not "" |
| Pipeline.KeptRowsAre | main.py:77-81 | the kept rows are the rows whose rewritten key is neither missing nor "", each with its key rewritten, in order |
| Pipeline.RowHasGroup | main.py:78-81 | in a column without text, a row is kept exactly when its key is present; in a column with text, a row with a missing key is kept, under "nan" |
| Pipeline.Select | main.py:88 | `df[col == g]`: only rows of that group, all from the frame |
| Pipeline.SelectKeeps | main.py:88 | every row of that group is selected |
| Pipeline.Keys | main.py:84 | the group column of the kept rows |
| Pipeline.GroupsInOrder | main.py:84 | the groups appear in the order in which they first occur in the kept rows |
| Pipeline.GroupLabelOfText | main.py:89 | a trimmed, non-empty text group is labelled by itself |
| Pipeline.SizesOfSnoc | main.py:87-88 | one more row adds one to the size of its own group only |
| Pipeline.SizesOfCover | main.py:87-88 | when every row has one of the groups, the groups' sizes add up to the number of rows |
| Pipeline.SizesOfEmpty | main.py:87-88 | no rows means no group rows |
| Pipeline.GroupsPartition | main.py:77-88 | the groups are distinct; every kept row belongs to the frame of its group; each group frame holds only rows of that group; and the group frames together have as many rows as were kept, so they partition the kept rows |
| Pipeline.GroupSheetsAreOf | main.py:87-96 | group `k`'s sheet is the summary of that group's frame under that group's label |
| Pipeline.SheetsStep | main.py:87-96 | the group sheets are written one after another |
| Pipeline.DistinctSnoc | summarizer.py:22 | adding a name not yet used keeps the names distinct |
| Pipeline.SummarizeGroups | main.py:87-96 | the group loop: one new sheet per group, in order, each named by sanitize_sheet_name's rule from its group label against the names before it (the overall sheet and the earlier group sheets); the cells and charts are the group sheets in order |
| Pipeline.SummarizeGroup | main.py:88-96 | one group: a sheet named by the rule from the group's label against the sheets already present, holding the summary of that group's rows |
| Pipeline.GeneralSheetNames | main.py:58-64 | the overall sheet's label, "Geral" in `main.py` and "geral" in `analysis.py`, is a valid sheet name as it stands |
| Pipeline.Run | main.py:26-96 | the driver: fails with the missing sheet exactly when the answers sheet is absent, and then writes nothing; fails with the index exactly when the sheet is present and the grouping column lies past the last column; otherwise the overall sheet comes first, then, with grouping, one sheet per group in order of first appearance, each named by sanitize_sheet_name's rule from its group label against the names before it (the overall sheet and the earlier group sheets) |
| Pipeline.WriteSummaries | main.py:54-96 | the writer block: the overall sheet, then the group sheets, each named by sanitize_sheet_name's rule from its group label against the names before it (the overall sheet and the earlier group sheets), or an index error after the overall sheet |
| Pipeline.GeneralOnly | main.py:58-67 | without grouping, the workbook holds the overall sheet alone |
| Pipeline.WriteGroups | main.py:74-96 | after the overall sheet, one sheet per group, each named by sanitize_sheet_name's rule from its group label against the names before it (the overall sheet and the earlier group sheets), with everything written matching the group sheets |
| Pipeline.WrittenAfterGeneral | main.py:58-96 | the overall sheet followed by the group sheets is the promised workbook |
| Pipeline.WriteGeneral | main.py:58-64 | the overall sheet is the first sheet and holds the summary of all rows |
| OneSheetSummary.PercentTable | 2025-09-16.py:30-46 | one list of percentages per column |
| OneSheetSummary.PercentTableAt | 2025-09-16.py:30-46 | entry `j` holds the percentages of column `j` |
| OneSheetSummary.FrameTableOf | 2025-09-16.py:30-46 | the table of a frame holds the percentages of each of its columns |
| OneSheetSummary.ColumnsAreColumnsOf | 2025-09-16.py:30-55 | each column's block is its title and its percentage rows |
| OneSheetSummary.PercentagesOverAllRows | 2025-09-16.py:36-46 | `value_counts(dropna=False, normalize=True)` over the filled column: empty only for a frame with no rows; in non-increasing order with no label twice; a permutation of every label's share of all the rows, "Empty" included |
| OneSheetSummary.PercentBlockLayout | 2025-09-16.py:30-55 | a question takes its title, one row per answer and one spacer row, in order, and saves no chart |
| OneSheetSummary.PercentBlockRows | 2025-09-16.py:32-52 | the title comes first, then answer `k` on the `k`-th row below it: `str(answer)` and `pct / 100` |
| OneSheetSummary.SheetLayout | 2025-09-16.py:24-55 | the rows of the "Summary" sheet never go back up, and no chart is saved |
| OneSheetSummary.Summarize | 2025-09-16.py:8-55 | the script: one sheet named "Summary", holding the header row and then every column of the first sheet, read with the first row as header; no chart |
| OneSheetSummary.WriteColumns | 2025-09-16.py:30-55 | the column loop writes exactly the body of the sheet |
| OneSheetSummary.WriteStep | 2025-09-16.py:30-55 | one pass of the column loop adds that column's block |
| OneSheetSummary.WriteColumn | 2025-09-16.py:30-55 | one column: its title and percentage rows, and the row moves past them |
| OneSheetSummary.ColumnPercentages | 2025-09-16.py:36-46 | the percentages of one column |
| OneSheetSummary.WritePercentages | 2025-09-16.py:32-55 | the title, the answer rows and the spacer of one question |
| ShareSheets.Fractions | 2025-09-20.py:62 | one share per count |
| ShareSheets.FractionsAt | 2025-09-20.py:62 | share `i` is count `i` over the number of rows, with its label |
| ShareSheets.DivMonotone | 2025-09-20.py:62 | a larger count gives a larger share |
| ShareSheets.FractionsSum | 2025-09-20.py:62 | the shares add up to the total count over the number of rows |
| ShareSheets.FractionsNonIncreasing | 2025-09-20.py:62 | counts in non-increasing order give shares in non-increasing order |
| ShareSheets.MultiplicityAtMost | 2025-09-20.py:62 | no answer occurs more often than there are rows |
| ShareSheets.PortionsAreFractions | 2025-09-20.py:62 | the sorted shares of a column are the shares of its value counts, already in order |
| ShareSheets.FractionsDistinct | 2025-09-20.py:62 | shares keep labels distinct |
| ShareSheets.FractionBounds | 2025-09-20.py:62 | a share of an answer that occurs is above 0 and at most 1 |
| ShareSheets.FractionsOfCounts | 2025-09-20.py:62 | `value_counts(normalize=True)`: non-increasing, distinct labels, and the shares add up to exactly 1 |
| ShareSheets.FractionOfCount | 2025-09-20.py:62 | each share is the number of rows holding that answer over the number of rows |
| ShareSheets.FractionsOfCountsEntries | 2025-09-20.py:62 | the same for every share |
| ShareSheets.PortionsShape | 2025-09-20.py:55-62 | the shares of a column: empty only for no rows; non-increasing; distinct labels; adding up to 1; each the fraction of rows, "Empty" included, holding that answer |
| ShareSheets.PortionPuts | 2025-09-20.py:65-68 | two cell writes per share |
| ShareSheets.PortionPutsRows | 2025-09-20.py:65-68 | share `i` goes to row `row + i` |
| ShareSheets.PortionPutsLaid | 2025-09-20.py:65-68 | the share rows lie in `[row, row + n)`, in increasing order |
| ShareSheets.PortionPutsAt | 2025-09-20.py:65-68 | write `w` is half `w % 2` of share `w / 2`'s row |
| ShareSheets.PortionPutsNext | 2025-09-20.py:65-68 | each pass of the answer loop adds the next share's row |
| ShareSheets.PortionBlockLayout | 2025-09-20.py:50-71 | a question takes its title, one row per share and one spacer row, in order, and saves no chart |
| ShareSheets.PortionBlockRows | 2025-09-20.py:51-68 | the title comes first, then share `k` on the `k`-th row below it: `str(answer)` and the share itself, not divided by 100 |
| ShareSheets.PortionTable | 2025-09-20.py:49-62 | one list of shares per column |
| ShareSheets.PortionTableAt | 2025-09-20.py:49-62 | entry `j` holds the shares of column `j` |
| ShareSheets.ColumnsAreColumnsOf | 2025-09-20.py:49-71 | each column's block is its title and its share rows |
| ShareSheets.SheetLayout | 2025-09-20.py:42-71 | a summary sheet's rows never go back up, and no chart is saved |
| ShareSheets.InputSheetsAreOf | 2025-09-20.py:32-34 | sheet `k` of the output summarises input sheet `k`, read with its first row as header |
| ShareSheets.SummarizeWorkbook | 2025-09-20.py:32-71 | the script: one summary sheet per input sheet, in order, named by sanitize_sheet_name's rule from "Summary_{sheet}" against the names before it (the cleaned label when free, otherwise its first free `_{i}` candidate), so all distinct; the cells are those sheets one after another; no chart |
| ShareSheets.SummarizeStep | 2025-09-20.py:32-71 | one pass of the sheet loop adds the next input sheet's summary |
| ShareSheets.SummarizeSheet | 2025-09-20.py:37-71 | one sheet holding the header and every column, named by sanitize_sheet_name's rule from "Summary_{sheet}" against the sheets already present |
| ShareSheets.WriteColumns | 2025-09-20.py:49-71 | the column loop writes exactly the body of the sheet |
| ShareSheets.WriteStep | 2025-09-20.py:49-71 | one pass of the column loop adds that column's block |
| ShareSheets.WriteColumn | 2025-09-20.py:49-71 | one column: its title and share rows, and the row moves past them |
| ShareSheets.ColumnPortions | 2025-09-20.py:55-62 | the shares of one column |
| ShareSheets.WritePortions | 2025-09-20.py:51-71 | the title, the share rows and the spacer of one question |
| AllColumnSheets.PercentagesOverAnswers | 2025-09-20v2.py:89-98 | the percentages over the cleaned answers: empty exactly when every cell is blank; non-increasing; distinct labels; a permutation of every answer's share of the non-blank cells |
| AllColumnSheets.QuestionLayout | 2025-09-20v2.py:85-113 | with no answers: title, note, blank row, no chart; otherwise title, one row per answer and a spacer row, and exactly one pie chart |
| AllColumnSheets.PercentTable | 2025-09-20v2.py:84-98 | one list of percentages per column |
| AllColumnSheets.PercentTableAt | 2025-09-20v2.py:84-98 | entry `j` holds the percentages of column `j` |
| AllColumnSheets.ColumnsAreColumnsOf | 2025-09-20v2.py:84-113 | each column's block is its question block, with chart file `{sanitize_filename(sheet, 50)}_{sanitize_filename(col, 70)}.jpg` |
| AllColumnSheets.ColumnsLayout | 2025-09-20v2.py:84-113 | every column's block is laid out in order and saves only pie charts |
| AllColumnSheets.SheetLayout | 2025-09-20v2.py:77-113 | a summary sheet's rows never go back up, and every chart is a pie |
| AllColumnSheets.InputSheetsAreOf | 2025-09-20v2.py:68-69 | output sheet `k` summarises input sheet `k`, read with its first row as header |
| AllColumnSheets.SummarizeWorkbook | 2025-09-20v2.py:68-113 | the script: one summary sheet per input sheet, in order, named by sanitize_sheet_name's rule from "Summary_{sheet}" against the names before it (the cleaned label when free, otherwise its first free `_{i}` candidate), so all distinct; the cells and charts are those sheets one after another |
| AllColumnSheets.SummarizeStep | 2025-09-20v2.py:68-113 | one pass of the sheet loop adds the next input sheet's summary |
| AllColumnSheets.SummarizeSheet | 2025-09-20v2.py:72-113 | one sheet holding the header and every column, named by sanitize_sheet_name's rule from "Summary_{sheet}" against the sheets already present |
| AllColumnSheets.WriteColumns | 2025-09-20v2.py:84-113 | the column loop writes exactly the body of the sheet and saves its charts |
| AllColumnSheets.WriteStep | 2025-09-20v2.py:84-113 | one pass of the column loop adds that column's block |
| AllColumnSheets.WriteColumn | 2025-09-20v2.py:85-113 | one column: the question block of its cleaned answers |
| AllColumnSheets.WriteQuestion | 2025-09-20v2.py:91-113 | the note when there are no answers, otherwise the percentages and the pie chart |
| AllColumnSheets.PercentagesEmpty | 2025-09-20v2.py:91 | the percentages are empty exactly when there are no answers |
| AllColumnSheets.WriteNote | 2025-09-20v2.py:91-95 | the note row and then `row += 2` |
| AllColumnSheets.WritePercentages | 2025-09-20v2.py:98-113 | the answer rows, the pie chart and the spacer |
| ControlledSheets.SheetIndex | 2025-09-20v3.py:92 | the position of the first sheet with that name, or none exactly when no sheet has it |
| ControlledSheets.ControlIndex | 2025-09-20v3.py:92 | the control sheet is "respostas_validas" when the workbook has it, and otherwise the first sheet |
| ControlledSheets.KeywordOfColumn | 2025-09-20v3.py:95-105 | a column missing from the control sheet's headers is "FECHADA"; otherwise it has the keyword of its last occurrence in the control row |
| ControlledSheets.ControlRowSkipped | 2025-09-20v3.py:121-124 | the control sheet is read with `header=1`: the names come from its second row and the data from the rows after it; any other sheet is read with `header=0` |
| ControlledSheets.PercentagesOfAnswers | 2025-09-20v3.py:174 | to_percentages without the top-N cap: empty exactly when there are no answers; non-increasing; distinct labels; a permutation of every answer's share |
| ControlledSheets.PercentagesFromAnswers | 2025-09-20v3.py:174 | every label written is one of the answers |
| ControlledSheets.ShareFromCount | 2025-09-20v3.py:174 | every share comes from one of the counts |
| ControlledSheets.ClosedQuestionEmpty | 2025-09-20v3.py:149-172 | for any keyword but "MÚLTIPLA", there are no answers exactly when every cell is blank |
| ControlledSheets.QuestionLayout | 2025-09-20v3.py:146-189 | with no answers: title, the keyword's note, blank row, no chart; otherwise title, one row per answer and a spacer row, and exactly one pie chart |
| ControlledSheets.ColumnLayout | 2025-09-20v3.py:139-189 | a column writes nothing exactly when its keyword is "IGNORAR" or "ABERTA"; its rows are laid out in order; its only chart is a pie at `{sanitize_filename(sheet, 50)}_column{letter}.jpg` |
| ControlledSheets.ColumnsAreColumnsOf | 2025-09-20v3.py:139-189 | each column's block is the one its keyword calls for |
| ControlledSheets.SheetLayout | 2025-09-20v3.py:132-189 | a summary sheet's rows never go back up, and every chart is a pie |
| ControlledSheets.InputSheetsAreOf | 2025-09-20v3.py:117-124 | output sheet `k` summarises input sheet `k`, read with the header row its role calls for |
| ControlledSheets.SummarizeWorkbook | 2025-09-20v3.py:88-189 | the script: one summary sheet per input sheet, in order, named by sanitize_sheet_name's rule from "Summary_{sheet}" against the names before it (the cleaned label when free, otherwise its first free `_{i}` candidate), so all distinct; the cells and charts are those sheets one after another |
| ControlledSheets.SummarizeStep | 2025-09-20v3.py:117-189 | one pass of the sheet loop adds the next input sheet's summary |
| ControlledSheets.SummarizeSheet | 2025-09-20v3.py:127-189 | one sheet holding the header and every column, named by sanitize_sheet_name's rule from "Summary_{sheet}" against the sheets already present |
| ControlledSheets.WriteColumns | 2025-09-20v3.py:139-189 | the column loop writes exactly the body of the sheet and saves its charts |
| ControlledSheets.WriteStep | 2025-09-20v3.py:139-189 | one pass of the column loop adds that column's block |
| ControlledSheets.WriteColumn | 2025-09-20v3.py:139-189 | one column: nothing for a skipped keyword, otherwise its question block |
| ControlledSheets.ChartPath | 2025-09-20v3.py:183-185 | the chart file of column `j` |
| ControlledSheets.WriteQuestion | 2025-09-20v3.py:146-189 | the note when there are no answers, otherwise the percentages and the pie chart |
| ControlledSheets.WriteNote | 2025-09-20v3.py:151-154 | the note row and then `row += 2` |
| ControlledSheets.WritePercentages | 2025-09-20v3.py:174-189 | the answer rows, the pie chart and the spacer |
| Questions.AnswerLinesAppend | question.py:9-10 | the answer lines of `a + b` are those of `a` followed by those of `b` |
| Questions.RenderedInOrder | question.py:7-11 | `__str__` lists the answers in insertion order: the text for the first `i` keys, then the lines of the rest |
| Questions.AnswerLinesBreaks | question.py:9-10 | each answer adds exactly one line break |
| Questions.OneBreak | question.py:10 | one answer line holds one line break |
| Questions.HeaderBreaks | question.py:8 | the heading holds two line breaks |
| Questions.RenderedLineCount | question.py:7-11 | `__str__` holds `2 + number of answers` line breaks, and with no answers it is just the heading |
| Questions.Question.constructor | question.py:2-5 | a new question has an empty text, no answers and a count of 0 |
| Questions.Question.SetAnswer | archive/question_handlers.py:50-51 | `q.answers[key] = value`: the map is updated, a new key goes to the end of the insertion order, and nothing else changes |
| Questions.Question.ToString | question.py:7-11 | `__str__`: the heading, then one `{key}: {value}` line per answer in insertion order |
| Questions.QuestionList.constructor | archive/question_handlers.py:24 | an empty list of questions |
| Questions.QuestionList.Append | archive/question_handlers.py:54 | `question_list.append(q)`: `q` is added at the end |
| Questions.Present | archive/question_handlers.py:28 | `dropna()`: exactly the cells that are not missing |
| Questions.PresentSnoc | archive/question_handlers.py:28 | `dropna()` works cell by cell |
| Questions.DivAddInt | archive/question_handlers.py:74 | the same for whole counts |
| Questions.SumBySnoc | archive/question_handlers.py:73-78 | a sum grows by the last term |
| Questions.UniqueSnoc | archive/question_handlers.py:66 | `unique()` grows by a value only when it is new |
| Questions.SumByBump | archive/question_handlers.py:73-78 | one more occurrence adds 1 to the sum of counts over distinct values |
| Questions.UniqueCountSum | archive/question_handlers.py:66-78 | the counts of the distinct answers add up to the number of answers |
| Questions.SharesOverKeys | archive/question_handlers.py:74-77 | shares that are counts over `n` add up to the total count over `n` |
| Questions.FrequenciesSumToOne | archive/question_handlers.py:73-77 | the normalised frequencies of the distinct answers add up to 1 |
| Questions.BinShares | archive/question_handlers.py:49-50 | shares of the counts over `n` add up to the total over `n` |
| Questions.FillFrequencies | archive/question_handlers.py:73-78 | the answer loop: the keys are the distinct answers in first-appearance order, each maps to its frequency among the present cells, the count is the number of present cells, and the shares add up to 1 |
| Questions.HandleDefault | archive/question_handlers.py:56-81 | handle_question_default: a new question titled by the column's header, with each distinct present answer mapped to its frequency, the count equal to the number of present cells, and the question appended to the list |
| Questions.RepeatedResponseCountedOnce | archive/question_handlers.py:28-43 | choices are counted over the distinct responses, so repeating a response changes no count |
| Questions.TallySnoc | archive/question_handlers.py:43 | counting one more choice adds 1 to it |
| Questions.PiecesAreCleaned | archive/question_handlers.py:38-42 | the choices kept from a response are its split parts, trimmed, without empty ones, as expand_multiple keeps them |
| Questions.CleanPiecesSnoc | archive/question_handlers.py:39-42 | one more part adds its trimmed form when that is not empty |
| Questions.CleanSingleOne | archive/question_handlers.py:41-42 | a blank part gives nothing, any other part gives its trimmed form |
| Questions.ExpandSnoc | archive/question_handlers.py:36-43 | one more response adds its choices |
| Questions.ExpandOne | archive/question_handlers.py:36-43 | one more response adds its cleaned split parts |
| Questions.PiecesSnoc | archive/question_handlers.py:39-42 | one more part adds at most one choice, its trimmed text |
| Questions.TallyStep | archive/question_handlers.py:43 | counting the choices one at a time |
| Questions.CountPieces | archive/question_handlers.py:39-43 | the inner loop counts every non-empty trimmed choice of one response |
| Questions.CountPiece | archive/question_handlers.py:40-43 | one pass of the inner loop |
| Questions.PiecesNone | archive/question_handlers.py:39 | before the loop nothing is counted |
| Questions.PiecesAll | archive/question_handlers.py:39 | after the loop every part is counted |
| Questions.CountPiecesStep | archive/question_handlers.py:41-43 | an empty choice is skipped; any other choice adds 1 to its count |
| Questions.CountChoices | archive/question_handlers.py:35-43 | the outer loop counts the choices of all responses, in first-appearance order |
| Questions.FillShares | archive/question_handlers.py:45-51 | each choice maps to its count over the total, the count is the total, the keys keep the counting order, and the shares add up to 1 |
| Questions.LabelNotBefore | archive/question_handlers.py:49 | a label of distinct counts does not occur before its own position |
| Questions.ResponsesAreStrings | archive/question_handlers.py:28-38 | without numeric cells, every distinct present response is text |
| Questions.HandleMultiChoice | archive/question_handlers.py:17-54 | handle_question_multi_choice: a new question titled by the column's header; its keys are the choices, counted once per distinct response, in first-appearance order; each maps to its count over the total; the count is the total; the shares add up to 1; the question is appended to the list |
| Questions.LabelIsNotGibberish | archive/question_handlers.py:15 | the placeholder 'Invalid/Gibberish/NA' does not count as gibberish itself |
| Questions.CleanedAnswer | archive/question_handlers.py:107-114 | one response: the lemmatised cleaned text, or the placeholder when that is gibberish; never gibberish |
| Questions.CleanedResponses | archive/question_handlers.py:105-120 | one cleaned response per present response, in order, and none is gibberish |
| Questions.CleanResponses | archive/question_handlers.py:105-120 | the loop builds exactly those cleaned responses |
| Questions.ClampK | archive/question_handlers.py:139-140 | the cluster count as written: `best_k` when it fits, else `num_unique - 2`; never above `num_unique`; below 1 whenever it is clamped with fewer than 3 distinct rows |
| Questions.ClampKBelowOne | archive/question_handlers.py:139-140 | as written, `best_k = 10` with one distinct row gives -1, and 3 with two rows gives 0 |
| Questions.ClampKFloored | archive/question_handlers.py:139-140 | the corrected count: `best_k` when it fits; otherwise at least 1 and at most `num_unique`; the same as written whenever there are 3 or more distinct rows |
| Questions.Analyse | archive/question_handlers.py:126-153 | the try block: the clustering is present exactly when vectorizing, the elbow search and clustering (with the elbow's choice clamped by ClampKFloored) all succeed, and it is then that clustering; the matrix and its feature names are kept exactly when the clustering is; on any failure (a ValueError) the matrix is None and the feature names empty |
| Questions.HandleOpen | archive/question_handlers.py:83-156 | handle_open_question: a new question titled by the column's header, without answers, holding the cleaned responses of the present cells and their analysis, appended to the list |
| Questions.AnalyseInto | archive/question_handlers.py:126-153 | the analysis is stored in the question, and nothing else changes |
| TextProcessing.RemovePunctuation | text_processing.py:23 | `translate` with `string.punctuation` removed: no punctuation is left, and every other character is kept |
| TextProcessing.RemovePunctuationAppend | text_processing.py:23 | removal works character by character: `remove(a + b) == remove(a) + remove(b)`, so the kept characters stay in order |
| TextProcessing.RemovePunctuationSnoc | text_processing.py:23 | one more character is dropped when it is punctuation and appended otherwise |
| TextProcessing.CleanResponse | text_processing.py:9-25 | clean_response: the lower-cased text with punctuation removed, trimmed of outer whitespace only (a slice between whitespace runs); so no punctuation, no upper-case letter, no outer whitespace, never longer |
| TextProcessing.LowerOfLower | text_processing.py:22 | lower-casing a text without upper-case letters changes nothing |
| TextProcessing.CleanResponseOfClean | text_processing.py:9-25 | a clean text comes back unchanged |
| TextProcessing.CleanResponseIdempotent | text_processing.py:9-25 | cleaning a cleaned text changes nothing |
| TextProcessing.IsGibberish | text_processing.py:27-55 | is_gibberish: a text of at most 2 characters, or one without a lower-case vowel, is gibberish |
| TextProcessing.VowelIsNotDigit | text_processing.py:47-53 | a text with a vowel is not all digits, so the digit test never decides |
| TextProcessing.IsGibberishReduces | text_processing.py:27-55 | gibberish exactly when the text is at most 2 characters long or has no lower-case vowel |
| TextProcessing.HelloIsNotGibberish | text_processing.py:27-55 | "hello" is not gibberish |
| CsvExport.SkipRule | csv_export.py:19-20 | `flag in ("ignore")` is a substring test on the string "ignore": "ignore", "", "ign" are skipped, while "open_question" and "fixed_question" are kept |
| CsvExport.KeptColumnsSpec | csv_export.py:17-20 | the kept columns are in range and increasing, and a column is kept exactly when its flag is not skipped |
| CsvExport.KeptColumnsSnoc | csv_export.py:17-20 | the column loop decides one column at a time |
| CsvExport.AddColumn | csv_export.py:23-40 | a kept column adds one question titled by the first header line, with each distinct present answer mapped to its frequency and the count equal to the present cells |
| CsvExport.BuildQuestions | csv_export.py:13-40 | the list holds one question per kept column, in column order, each counted from that column |
| CsvExport.Items | csv_export.py:51 | `answers.items()`: one entry per key in insertion order, with its share |
| CsvExport.ScaleFrequency | csv_export.py:55 | a frequency times the number of answers is the count |
| CsvExport.AnswerRows | csv_export.py:54-55 | one CSV row per answer |
| CsvExport.AnswerRowsSnoc | csv_export.py:54-55 | the answer loop writes one row at a time |
| CsvExport.AnswerRowsAt | csv_export.py:55 | row `i` is `[answer, share, share × num_answers]` of entry `i` |
| CsvExport.SortedItemsSpec | csv_export.py:51 | `sorted(..., reverse=True)`: the shares are non-increasing, and the result is a permutation of the answers, each with its share |
| CsvExport.SortedItemsStable | csv_export.py:51 | answers with equal shares keep their insertion order |
| CsvExport.QuestionRowsSpec | csv_export.py:47-55 | one title row, then one row per answer, each holding an answer's share and that share times the number of answers |
| CsvExport.QuestionRowsOrdered | csv_export.py:51-55 | the answer rows come by non-increasing share |
| CsvExport.QuestionRowsAt | csv_export.py:48-55 | row `i` is the `i`-th answer in sorted order |
| CsvExport.ScaledIsCount | csv_export.py:33-37 | the third column is exactly the number of times the answer occurs |
| CsvExport.CsvRowsSnoc | csv_export.py:47-55 | the rows of the first `i + 1` questions extend those of the first `i` |
| CsvExport.WriteQuestion | csv_export.py:48-55 | one question's rows |
| CsvExport.WriteAnswers | csv_export.py:54-55 | the answer loop writes exactly the answer rows |
| CsvExport.WriteNext | csv_export.py:47-55 | one pass of the question loop |
| CsvExport.WriteCsv | csv_export.py:43-55 | the writer block: every question's rows, in list order |
| Docx.TextParagraphText | create_survey.py:40 | `add_paragraph(text)` gives one paragraph whose text is `text`, with at most one run |
| Docx.Document.constructor | create_survey.py:25 | `Document()`: an empty document |
| Docx.Document.AddParagraph | create_survey.py:40 | a paragraph is appended |
| Docx.Document.AddHeading | generate_report.py:58-71 | `doc.add_heading(text, level)`: a heading of that level is appended |
| Docx.Document.AddPicture | generate_report.py:43 | `doc.add_picture(path)`: a picture is appended |
| Docx.Document.AddRun | generate_report.py:21-34 | `p.add_run()` with its text and style: a run is added to the end of the last paragraph, and nothing else changes |
| Markdown.CloseAt | generate_report.py:16 | the lazy `.*?` finds the nearest closing delimiter after the opening one, on the same line |
| Markdown.CloseAtSome | generate_report.py:16 | a found close is a delimiter, with no newline before it and no earlier delimiter |
| Markdown.CloseAtNone | generate_report.py:16 | with no close found, every later delimiter lies past a newline |
| Markdown.Delimited | generate_report.py:16 | a delimited span is at least twice the delimiter long and lies in the text |
| Markdown.MatchAt | generate_report.py:16 | the alternatives `\*\*…\*\*`, `__…__`, `\*…\*`, `_…_`, tried in that order, end inside the text |
| Markdown.DelimitedShape | generate_report.py:16 | a delimited span starts and ends with its delimiter |
| Markdown.MatchShape | generate_report.py:16 | a matched token starts and ends with the same marker, `*` or `_` |
| Markdown.ScanConcat | generate_report.py:16 | `re.split` with a capturing group loses no text: the pieces joined are the input |
| Markdown.TokensConcat | generate_report.py:16 | the tokens of a line joined are the line |
| Markdown.ScanShape | generate_report.py:16 | the pieces alternate plain text and matched tokens |
| Markdown.TokensShape | generate_report.py:16 | there is an odd number of tokens, and every odd-indexed token is styled |
| Markdown.NoMatchBetweenPlain | generate_report.py:16 | a stretch of text where no match starts is plain text |
| Markdown.ScanLeftmost | generate_report.py:16 | the scan splits the rest of the text into plain text with no match starting in it, then the match at the first position where one starts, and so on |
| Markdown.LeftmostFound | generate_report.py:16 | when the scan meets a match, the plain text before it and the match lead the split |
| Markdown.LeftmostSkip | generate_report.py:16 | a position where no match starts stays in the plain text |
| Markdown.LeftmostCons | generate_report.py:16 | plain text without a match, followed by a match, followed by a leftmost split, is a leftmost split |
| Markdown.TokensLeftmost | generate_report.py:16 | `re.split` takes the leftmost match each time: no match starts inside an even-indexed (plain) token, and each odd-indexed token is the match found where it starts |
| Markdown.AlternatesCons | generate_report.py:16 | plain text and a styled token in front of alternating pieces keep them alternating |
| Markdown.ShapeFound | generate_report.py:16 | the pieces found from a match onwards alternate plain text and styled tokens |
| Markdown.ClassifyInverse | generate_report.py:23-36 | a token is never both bold and italic; a bold or italic run's text is the token with its markers removed; a plain run is the token itself |
| Markdown.ClassifyBold | generate_report.py:23-28 | a bold run's text is the token without its doubled marker at each end |
| Markdown.ClassifyItalic | generate_report.py:29-34 | an italic run's text is the token without its single marker at each end |
| Markdown.MarkedIsStyled | generate_report.py:29-34 | a token that starts and ends with the same `*` or `_` becomes a styled run |
| Markdown.RunsOfFiltered | generate_report.py:18-36 | the runs are the non-empty tokens, each classified, in order |
| Markdown.MarkdownRunsSpec | generate_report.py:13-36 | a paragraph's runs are its classified non-empty tokens, the tokens make up the line, and each styled token is the leftmost match after the previous one |
| Markdown.AddToken | generate_report.py:18-36 | one pass of the token loop extends the last paragraph's runs |
| Markdown.AddMarkdownParagraph | generate_report.py:9-36 | exactly one paragraph is appended, holding the line's runs |
| Report.SpanFacts | generate_report.py:79 | a greedy repetition takes matching characters and stops at the first one that does not match |
| Report.Skip | generate_report.py:79 | a bounded repetition stays within the line and within its bound |
| Report.SkipAt | generate_report.py:79 | a repetition that stops where the class ends is the greedy one |
| Report.SkipRange | generate_report.py:79 | what a repetition skips belongs to its character class |
| Report.GreedyReading | generate_report.py:79-81 | every way of reading a line as lead, stars, one to three capitals, stars, spaces and a separator yields the same letters |
| Report.ScanReading | generate_report.py:79-81 | a letter found comes from such a reading |
| Report.ColumnLetterSpec | generate_report.py:79-81 | `re.match` finds the letters exactly when the line reads as lead, up to two stars, one to three capitals, up to two stars, spaces and a separator |
| Report.FirstChart | generate_report.py:40-41 | a found chart is a listed file |
| Report.FirstChartSpec | generate_report.py:40-45 | the chart picked is the first listed file whose name holds `_column<letter>.jpg`, and none is picked when no file does |
| Report.InsertChartForColumn | generate_report.py:39-45 | returns true exactly when a chart was found, and then appends that one picture |
| Report.BlankLine | generate_report.py:61-62 | a line is skipped exactly when it is all white space, and then adds nothing |
| Report.HeadingMarkers | generate_report.py:64-71 | the markers are `# `, `## ` and `### ` |
| Report.HashLineNotBlank | generate_report.py:61-64 | a line starting with `#` is not skipped as blank |
| Report.MarkersExclusive | generate_report.py:64-71 | a `## ` or `### ` line does not take an earlier branch |
| Report.HeadingOne | generate_report.py:64-65 | `# ` gives a level 1 heading of the rest of the line |
| Report.HeadingTwo | generate_report.py:67-68 | `## ` gives a level 2 heading |
| Report.HeadingThree | generate_report.py:70-71 | `### ` gives a level 3 heading |
| Report.HeadingLineIf | generate_report.py:64-71 | a line with the level-n marker is a level-n heading of the text after the marker |
| Report.HeadingLineOnlyIf | generate_report.py:64-71 | a level-n heading line starts with the level-n marker |
| Report.HeadingRule | generate_report.py:64-71 | both directions: a line starts with the level-n marker exactly when it is a level-n heading, and then it adds just that heading |
| Report.BodyRule | generate_report.py:73-84 | any other non-blank line adds its markdown paragraph, then its chart if the line names a column |
| Report.LineChartShape | generate_report.py:79-84 | a line adds at most one picture |
| Report.ParagraphWellFormed | generate_report.py:76-84 | a paragraph followed by its line's chart is well formed: the chart is exactly the one the paragraph's line picks |
| Report.KindLevel | generate_report.py:64-71 | heading levels are 1 to 3 |
| Report.KindWellFormed | generate_report.py:60-84 | each kind of line adds well-formed blocks that do not start with a picture |
| Report.LineWellFormed | generate_report.py:60-84 | each line adds well-formed blocks that do not start with a picture |
| Report.WellFormedAppend | generate_report.py:60-84 | well-formed blocks stay well formed when joined |
| Report.OutlineWellFormed | generate_report.py:60-84 | the body's headings have levels 1 to 3, and every picture directly follows the paragraph of a line whose column letter picks exactly that chart |
| Report.ReportStructure | generate_report.py:57-84 | the report opens with the level 0 title, later headings have levels 1 to 3, and every picture directly follows the paragraph of a line whose column letter picks exactly that chart |
| Report.AddParagraphLine | generate_report.py:75-84 | a body line appends its paragraph and then its chart |
| Report.AddLine | generate_report.py:61-84 | one pass of the line loop appends exactly that line's blocks |
| Report.OutlineSnoc | generate_report.py:60-84 | the outline's blocks grow line by line |
| Report.GenerateReport | generate_report.py:48-96 | the document holds the title heading, then every outline line's blocks in order |
| SurveyDoc.ParagraphsText | create_survey.py:39-64 | one paragraph per text, each reading as its text |
| SurveyDoc.BodyLength | create_survey.py:53-64 | the loop writes two paragraphs per row plus one per section change |
| SurveyDoc.SurveyLength | create_survey.py:39-64 | the document has 3 + 2 × rows + section changes paragraphs, and the first row never starts a new section |
| SurveyDoc.BodyPrefix | create_survey.py:53-64 | later rows only append paragraphs |
| SurveyDoc.RowInDocument | create_survey.py:56-64 | each row's question line `"<order>) <question>"` and its answers stand at a known place, preceded by the section title when the section changes |
| SurveyDoc.RowTextsCases | create_survey.py:56-64 | a row writes the new section only when the section changes, then the question and the answers |
| SurveyDoc.AddParagraphStep | create_survey.py:39-64 | appending a paragraph extends the paragraphs of the texts written so far |
| SurveyDoc.AddSection | create_survey.py:56-58 | the section paragraph is written exactly when the section changes, and the current section becomes this row's |
| SurveyDoc.AddRow | create_survey.py:56-64 | one pass of the row loop writes that row's paragraphs |
| SurveyDoc.CreateSurvey | create_survey.py:25-64 | the document is the title, the intro, the first section, then each row's paragraphs |

## Left out

- Numbers: a pandas cell holding a number is `Num(n)` with an integer `n`. Floats, NaN other than a missing cell, and the "3.0" spelling of a float label are not modelled. Group labels are built from the integer's digits.
- Questions.HandleMultiChoice: requires no numeric cell in the column. The source calls `.split` on such a cell and raises AttributeError.
- Questions.HandleOpen: requires no numeric cell in the column. The source calls `.lower` on such a cell and raises AttributeError.
- SurveyDoc.CreateSurvey: requires at least four columns, at least one row, and a text section on every row. Otherwise the source raises IndexError, or raises when python-docx is given a section that is not text.
- Shares are exact: percentages are integer hundredths with round-half-even, and frequencies are exact reals. Float rounding is not modelled, so `FractionSum` and `ScaledIsCount` hold exactly here, while with floats they hold only up to rounding.
- Character classes: `IsSpace`, `IsWordChar`, `Lower` and `Upper` follow Python on Latin-1 (U+0000 to U+00FF). Characters above U+00FF count as not white space, not word characters and caseless.
- Sorting: ties keep their original order. pandas `sort_values` uses quicksort, whose order among ties is unspecified. Only the order by count and the permutation are claimed for pandas sorts.
- External code is taken as parameters: the chart directory (CHARTS_DIR is imported but not defined in config.py), `textwrap.wrap`, the spaCy Spanish lemmatizer (remove_stopwords_and_lemmatize_spanish), the TF-IDF vectorizer, the elbow search (find_optimal_k_elbow is imported but not defined in text_processing.py), KMeans, and the LLM outline (LLM_OUTPUT_SIMPLE is imported but not defined in llm_prompts.py).
- Book.Workbook.AddWorksheet: refuses only a name already present. xlsxwriter also refuses names that differ only in case, so two groups such as "UERN" and "uern" make the source raise. It also refuses a name that starts or ends with an apostrophe, which the sheet-name sanitizer does not remove: a group label such as "Professores'" (main.py, analysis.py), or an input sheet name whose 31-character "Summary_" cut ends on an apostrophe (the 2025-09-20 scripts). The model does not capture either refusal, so Pipeline.Run's `Completed` outcome and the scripts' SummarizeWorkbook contracts also describe a sheet the source never creates in those cases.
- Text.Strip: its own postcondition gives the shape of the result (no outer whitespace, no longer, only the input's characters). That it is exactly the input with the outer whitespace removed is stated by the lemma Text.StripIsSlice instead, so that the many proofs that call `Strip` do not carry the extra quantifiers.
- ScriptCommon.ReadFrame: keeps duplicate headers as they are. pandas renames a repeated header to "Q.1", and that is not modelled.
- ScriptCommon.ReadFrame: a sheet with at least one row but no row `h` reads as an empty frame. pandas raises ParserError there (for instance a one-row control sheet read with `header=1` in 2025-09-20v3.py), and only a sheet with no rows at all reads as empty. The scripts then write a header-only summary where the source stops with that error.
- Pipeline.Run: the grouping column is a natural index. Python also accepts a negative `GROUP_BY_COL_INDEX`, counting from the last column, and that is not modelled. Its `Completed` outcome also covers the sheet names xlsxwriter refuses (see Book.Workbook.AddWorksheet).
- ControlledSheets.SummarizeWorkbook: requires at least one input sheet. The source reads `sheet_names[0]` and raises IndexError on an empty workbook.
- File I/O is not modelled: reading xlsx/csv files, saving files, the output ZIP and cleanup of temporary files. Their contents are parameters or results.
- Chart rendering (matplotlib) is not modelled: each chart is the record of its kind, labels, values and path.
- Cell formats, column widths and other workbook styling are not modelled.
- ppt-to-doc.py, test2.py, openai_module.py, ai_integration.py and chart_utils.py are not part of this model.
- Questions.Analyse: clusters with `ClampKFloored`, not with the clamp as written (see Findings).
- analysis.py's helpers (sanitize_sheet_name, sanitize_filename, colnum_to_excel, clean_single, expand_multiple, cap_top_n_with_outros, to_percentages, wrap_labels) are copies of those in helpers.py and data_cleaning.py and are modelled once, in Naming and Cleaning. Its save_pie_jpg and save_bar_jpg are chart_utils.py's, whose saved chart is the record Book.Workbook.SaveChart appends. Its summarize_df_to_excel_and_charts is summarizer.py's, modelled by Summary.SummarizeSheet, and its driver is Pipeline.Run with Pipeline.AnalysisGeneralLabel.

## Findings

| source | as written | input that shows it | evidently intended | confidence | as-written member | corrected member |
|---|---|---|---|---|---|---|
| archive/question_handlers.py:139-140 | when the elbow choice exceeds the number of distinct TF-IDF rows, `best_k = num_unique - 2`, with no lower bound | elbow choice 10 with 1 distinct row gives -1 clusters; elbow choice 3 with 2 distinct rows gives 0 | a cluster count of at least 1 and at most the number of distinct rows | not executed | Questions.ClampKBelowOne | Questions.ClampKFloored |
