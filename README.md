# Agile Enterprise Architecture maturity surveys, modelled in Dafny

This project models the scoring logic of two survey scripts.

The **maturity assessment** (`Maturity_Calculation.py`) loads a sheet of
survey responses and preprocesses it in place:

- the answer columns G to O are cut down to their first digit run;
- the four identifier columns B to E are dropped;
- the job titles are cleaned.

It then strips the headers and renames the long question headers to the nine
aspects of Agile Enterprise Architecture. It checks that every aspect is
present and turns each answer into a score. Each aspect is averaged over all
respondents and over the respondents of each of five roles. The averages are
shaped for the charts: a closed radar outline and bars in ascending order.
The script also defines `determine_maturity_level`, which places a score on one
of five maturity levels; nothing in the script calls it, and it is modelled as
the standalone classifier it is.

The **validation survey** (`Validation_Calculation.py`) strips the sheet's
headers and replaces the five Likert labels with 1 to 5. It then computes one
average per category of questions: first each respondent's mean over the
category's questions, then the mean of those over the respondents.

Modules, one per file:

- `Common` holds the option/result wrappers, the named column of cells, and lookup by header.
- `Text` holds `str.strip()`, `[^\w\s]` removal, the first `\d+` match, `float` of digits, and header stripping.
- `Stats` holds pandas' `mean()` with missing values skipped.
- `Preprocessing` holds `preprocess_data`, as a `Frame` class whose methods update the sheet in place.
- `Aggregation` holds `process_data` up to the charts, and the steps of `load_excel`.
- `MaturityLevels` holds `determine_maturity_level`.
- `Charts` holds the list shaping before plotting.
- `Validation` holds the validation survey.

Modelling choices:

- A cell of the maturity sheet is text (`Str`) or missing (`Missing`, pandas' NaN). A numeric cell is held as the text `str()` gives for it, and `str()` of a missing cell is "nan".
- A cell of the validation sheet is text (`Words`), a number (`Number`, what a Likert label is replaced by) or empty (`Blank`, pandas' NaN).
- Scores are `Option<real>`, with `None` for NaN. Means are exact.
- Columns are selected by header, first match first.
- `df.drop(df.columns[[1, 2, 3, 4]])` drops by header, so every column that shares a header with those four goes too. `DropIdentifiersPositional` shows this equals positional removal when headers are distinct.
- The rename dictionary of `Maturity_Calculation.py:68` is keyed by the stripped header and maps to `aspect_column_map.get(stripped, col)`. When two headers strip to the same key, the later one wins.

Two behaviours of the code as written are kept and stated as lemmas:

- A header that still has whitespace at either end is never renamed (`UntrimmedHeaderKept`). `load_excel` strips headers before `process_data`, so this does not arise on that path.
- The one title rewrite produces "Architecture Models & Insights Expert". That is none of the five roles, and the matching role is spelled "Architecture Models and Insights Expert". A respondent whose title is rewritten therefore counts under no role (`RewrittenTitleHasNoRole`).

## Model

| member | source | states |
|---|---|---|
| Common.Find | Maturity_Calculation.py:56 | the position of the first column with the given header, or none exactly when no column has it |
| Common.FindPresent | Maturity_Calculation.py:56 | a header can be found exactly when it is one of the sheet's headers |
| Common.Absent | Maturity_Calculation.py:74 | the required names not present: a name is listed iff it is required and absent, in required order |
| Common.NoneAbsent | Maturity_Calculation.py:74-75 | when every required name is present, nothing is reported missing |
| Text.Trim | Maturity_Calculation.py:30 | `strip()` yields the slice of the input left after cutting off only whitespace before and after it, with no whitespace at either end |
| Text.TrimmedIsFixed | Maturity_Calculation.py:30 | stripping a string without surrounding whitespace returns it unchanged |
| Text.TrimIdempotent | Validation_Calculation.py:58 | stripping twice gives the same as stripping once |
| Text.KeepWordAndSpace | Maturity_Calculation.py:56 | removing `[^\w\s]` leaves only word characters and whitespace, keeps a string of them unchanged and removes any other single character |
| Text.KeepWordAndSpaceAppend | Maturity_Calculation.py:56 | the removal works character by character: on a concatenation it is the concatenation of the two results, so every kept character stays, in order |
| Text.FirstDigitRun | Maturity_Calculation.py:50 | `\d+`'s first match: none exactly when the text has no digit, otherwise a maximal digit run with no digit before it |
| Text.FirstDigitRunUnique | Maturity_Calculation.py:50 | the first maximal digit run is unique, so the match is determined |
| Text.DigitsAreOwnRun | Maturity_Calculation.py:50 | a string of digits is its own first match |
| Text.LeadingZeroIgnored | Maturity_Calculation.py:86 | leading zeros do not change the value `float` gives a digit string |
| Text.StripNames | Validation_Calculation.py:12 | `columns.str.strip()`: each header becomes the stripped text of the old one, the cells are kept |
| Text.StripNamesIdempotent | Maturity_Calculation.py:44 | stripping the headers again changes nothing |
| Stats.Mean | Maturity_Calculation.py:95 | a mean is missing exactly when every value is missing |
| Stats.MeanSkipsMissing | Maturity_Calculation.py:95 | dropping the missing values first gives the same mean |
| Stats.MeanWithin | Maturity_Calculation.py:95 | a mean of values within [lo, hi] lies within [lo, hi] |
| Stats.MeanOfOne | Maturity_Calculation.py:95 | the mean of one value is that value |
| Stats.MeanDropMissing | Validation_Calculation.py:61 | leaving out one missing value keeps the mean |
| Preprocessing.ExtractDigits | Maturity_Calculation.py:50 | a cell becomes its first digit run, or missing exactly when `str()` of it has no digit |
| Preprocessing.ExtractDigitsIdempotent | Maturity_Calculation.py:50 | extracting from an extracted cell changes nothing |
| Preprocessing.ExtractAnswersIdempotent | Maturity_Calculation.py:49-50 | running the extraction loop twice is the same as once |
| Preprocessing.ExtractAnswers | Maturity_Calculation.py:49-50 | headers and row counts kept; columns outside positions 6 to 14 unchanged; inside them every cell replaced by its extraction |
| Preprocessing.Frame.ExtractAnswerDigits | Maturity_Calculation.py:49-50 | the columns at positions 6 to 14 that exist are extracted in place, all others unchanged |
| Preprocessing.DropLabels | Maturity_Calculation.py:53 | no kept column carries a dropped header, and every kept column was in the sheet |
| Preprocessing.DropLabelsKeeps | Maturity_Calculation.py:53 | every column whose header is not dropped is kept |
| Preprocessing.DropIdentifiers | Maturity_Calculation.py:53 | the kept columns are columns of the sheet with none of the four identifier headers, every column without one of them is kept, and the first column stays first when its header is not among them |
| Preprocessing.DropIdentifiersPositional | Maturity_Calculation.py:53 | with distinct headers, exactly the columns at positions 1 to 4 are removed and the rest keep their order |
| Preprocessing.Frame.DropIdentifierColumns | Maturity_Calculation.py:53 | raises when there are fewer than five columns (sheet unchanged), otherwise drops the identifier headers |
| Preprocessing.CleanTitleShape | Maturity_Calculation.py:56-61 | a cleaned title is the rewrite target iff the stripped text was the rewrite source; otherwise it is word and space characters only, stripped |
| Preprocessing.CleanTitleIdempotent | Maturity_Calculation.py:56-61 | cleaning a cleaned title again changes nothing, unless it is the rewrite target |
| Preprocessing.CleanTitle | Maturity_Calculation.py:56-61 | a missing title stays missing and a text title stays text |
| Preprocessing.Frame.CleanTitles | Maturity_Calculation.py:56-61 | raises when there is no title column, or when that column has rows but no text and did not go through the extraction (pandas then holds it as floats and `.str` raises), leaving the sheet unchanged; otherwise cleans that column's cells only |
| Preprocessing.Frame.Preprocess | Maturity_Calculation.py:47-63 | the outcome and sheet are those of extraction, then the drop, then the title cleaning; a step that raises leaves the earlier steps' changes |
| Preprocessing.PreprocessSheetFails | Maturity_Calculation.py:47-63 | preprocessing raises for position out of range iff there are fewer than five columns, and for a missing title column iff none is left after the drop; a title column at positions 6 to 14 never makes it raise for having no text; a pass leaves the title column in place |
| Preprocessing.Frame.StripColumnNames | Maturity_Calculation.py:44 | the headers are stripped in place, row count kept |
| Aggregation.QuestionHeadersDistinct | Maturity_Calculation.py:18-26 | the nine question headers are pairwise different |
| Aggregation.QuestionPairsKeys | Maturity_Calculation.py:17-30 | the nine (header, aspect) pairs have stripped and pairwise different headers |
| Aggregation.StrippedLookup | Maturity_Calculation.py:30 | a dictionary rebuilt with stripped keys, from stripped and distinct keys, sends each key to its own value and has no other key |
| Aggregation.StripKeysOfTrimmed | Maturity_Calculation.py:30 | when every key is already stripped, the stripping comprehension is the plain dictionary of the pairs |
| Aggregation.AspectColumnMapShape | Maturity_Calculation.py:17-30 | the stripped lookup sends the i-th question header to the i-th aspect and has no other key |
| Aggregation.RoleColumnIsNoKey | Maturity_Calculation.py:67 | the role column's header is not a lookup key |
| Aggregation.RenameDictOfTrimmed | Maturity_Calculation.py:68 | over stripped headers, the rename dictionary sends each header to its aspect when it is a lookup key and to itself otherwise |
| Aggregation.RenameColumns | Maturity_Calculation.py:68 | the rename keeps the number of columns and every column's cells; only headers change |
| Aggregation.RenameOfTrimmedHeaders | Maturity_Calculation.py:68 | on stripped headers, a question header becomes its aspect and every other header, the role column's included, is kept |
| Aggregation.UntrimmedHeaderKept | Maturity_Calculation.py:68 | a header with surrounding whitespace is never renamed |
| Aggregation.MissingAspects | Maturity_Calculation.py:74 | an aspect is reported missing iff no header is that aspect, and nothing is missing iff every aspect is a header |
| Aggregation.AllQuestionsNoneMissing | Maturity_Calculation.py:68-77 | a stripped sheet holding the nine question headers passes the missing-column check |
| Aggregation.ExtractNumericValue | Maturity_Calculation.py:84-86 | the value of the first digit run, non-negative; missing exactly when the text has no digit |
| Aggregation.ScoreOfLeadingDigit | Maturity_Calculation.py:84-86 | "4 - mostly there" scores 4 |
| Aggregation.MissingCellHasNoScore | Maturity_Calculation.py:84-86 | a missing cell ("nan") scores as missing, never 0 |
| Aggregation.ScoresForRole | Maturity_Calculation.py:108 | the row filter keeps a single row iff it holds the role, keeps no row when no row holds the role and every row when all do |
| Aggregation.ScoresForRoleAppend | Maturity_Calculation.py:108 | the filter works row by row: on concatenated rows it is the concatenation of the two results, so exactly the rows holding the role are kept, in order |
| Aggregation.ScoreAspects | Maturity_Calculation.py:88-89 | the loop turns each aspect column, in order, into its scores |
| Aggregation.AbsentRoleEntry | Maturity_Calculation.py:109-110 | a role that no row holds gets a missing mean for every aspect |
| Aggregation.RoleAverages | Maturity_Calculation.py:105-110 | one entry per role, in order; each aspect gets the mean over the rows of that role, or missing when no row holds it |
| Aggregation.AggregateScores | Maturity_Calculation.py:74-110 | missing aspects are reported in order; a missing role column raises; otherwise each aspect's overall and per-role means, roles in order |
| Aggregation.ProcessData | Maturity_Calculation.py:65-110 | the same, on the sheet after renaming |
| Aggregation.OverallMissingIffNoDigit | Maturity_Calculation.py:95 | an aspect's overall score is missing exactly when none of its cells has a digit |
| Aggregation.OverallWithin | Maturity_Calculation.py:95 | an aspect whose scores lie within [lo, hi] has its overall score there |
| Aggregation.RoleWithoutRowsIsMissing | Maturity_Calculation.py:106-110 | a role no row holds still gets an entry, with every aspect missing |
| Aggregation.RoleOfEveryRow | Maturity_Calculation.py:108 | when every row holds the role, its score equals the overall score |
| Aggregation.RewrittenTitleHasNoRole | Maturity_Calculation.py:59-61 | a title that is rewritten matches none of the five roles |
| Aggregation.StrippedSheetRenamed | Maturity_Calculation.py:42-45 | on the loaded sheet, whose headers are stripped first, every header is renamed by its stripped text, so a padded question header still becomes its aspect |
| Aggregation.LoadExcel | Maturity_Calculation.py:42-45 | a preprocessing failure is returned with the partially preprocessed sheet; otherwise the sheet becomes the preprocessed sheet with stripped headers, and the result is `process_data`'s on it: missing aspects, missing role column, or the summary of the renamed sheet |
| MaturityLevels.LevelIsLowestCovering | Maturity_Calculation.py:131-141 | a score gets the lowest level whose upper bound it does not exceed |
| MaturityLevels.LevelMonotone | Maturity_Calculation.py:131-141 | a higher score never gets a lower level |
| MaturityLevels.BoundariesGoDown | Maturity_Calculation.py:131-141 | each boundary value 1.5, 2.5, 3.5, 4.5 belongs to the level below it |
| MaturityLevels.DetermineMaturityLevel | Maturity_Calculation.py:131-141 | a missing score is "Advanced"; a present score gets a level whose upper bound it does not exceed |
| MaturityLevels.LabelsDistinct | Maturity_Calculation.py:131-141 | the five returned labels are pairwise different, so a label names one level |
| Charts.CloseOutline | Maturity_Calculation.py:144-154 | an empty series is refused; otherwise the series with its first point appended, so the outline closes |
| Charts.SortByScore | Maturity_Calculation.py:229 | as many bars come out as go in; order, permutation and stability are the three lemmas below |
| Charts.SortByScoreSorted | Maturity_Calculation.py:229 | the bars come out in ascending order of score |
| Charts.SortByScorePermutes | Maturity_Calculation.py:229 | the sorted bars are a permutation of the input |
| Charts.SortByScoreStable | Maturity_Calculation.py:229 | bars with equal scores keep their relative order |
| Validation.ReplaceAnswer | Validation_Calculation.py:15-24 | a cell exactly equal to a Likert label becomes its number; any other cell is unchanged |
| Validation.LikertInOrder | Validation_Calculation.py:15-21 | the i-th label becomes i + 1 |
| Validation.StronglyAgreeIsFive | Validation_Calculation.py:24 | "Strongly Agree" is 5 and "Agree" is 4: whole-value replacement |
| Validation.OtherTextKept | Validation_Calculation.py:24 | text that is none of the labels is kept |
| Validation.ReplaceLikert | Validation_Calculation.py:24 | headers and shape kept, each cell replaced |
| Validation.ReplaceLikertIdempotent | Validation_Calculation.py:24 | replacing twice is the same as once |
| Validation.StripQuestions | Validation_Calculation.py:58 | every question stripped; category names, order and counts kept |
| Validation.StripQuestionsIdempotent | Validation_Calculation.py:58 | stripping the questions again changes nothing |
| Validation.CategoryNames | Validation_Calculation.py:27-55 | five categories in declared order |
| Validation.SharedQuestion | Validation_Calculation.py:33-52 | the guidance question is listed under both Accuracy and Overall Satisfaction |
| Validation.Selected | Validation_Calculation.py:61 | `df_numerical[questions]`: one answer list per question, in question order, each the cells of the column with that header |
| Validation.SelectedHeight | Validation_Calculation.py:61 | when every question has a column, each selected answer list has one answer per respondent |
| Validation.RowMeans | Validation_Calculation.py:61 | `mean(axis=1)`: one mean per respondent, over that respondent's selected answers |
| Validation.BlankIffMissing | Validation_Calculation.py:61 | with no text left, the mean of the respondents' means is missing iff every selected answer is empty |
| Validation.CategoryAverage | Validation_Calculation.py:61 | raises listing the absent questions, or on remaining text; otherwise an average missing exactly when every selected answer is empty |
| Validation.Collect | Validation_Calculation.py:61 | all categories' values in order, or the error of the first category that raises |
| Validation.AveragesOf | Validation_Calculation.py:61 | one entry per category, named and in order |
| Validation.AverageScores | Validation_Calculation.py:61 | on success one average per category, named and in order, each the category average; otherwise the error of the first category that raises |
| Validation.ScoreSurvey | Validation_Calculation.py:12-61 | on success, exactly five averages named after the categories in order |
| Validation.AverageWithinRange | Validation_Calculation.py:61 | answers all in [1, 5] or empty give an average in [1, 5] |
| Validation.LikertAverageWithin | Validation_Calculation.py:15-61 | when every used answer is a Likert label or empty, the category average does not raise and lies in [1, 5] |
| Validation.AveragesWithinLikert | Validation_Calculation.py:24-61 | for any categories whose questions are present with Likert or empty answers, scoring succeeds and every average lies in [1, 5] |
| Validation.SurveyWithinLikert | Validation_Calculation.py:12-61 | the same for the whole survey |
| Validation.EmptyRespondentExcluded | Validation_Calculation.py:61 | a respondent who left every question of a category empty does not change its average |

## Left out

- Reading the workbook (`pd.read_excel`, the file dialog, the hard-coded path) is left out. A sheet is a parameter: its columns in order and its row count.
- The tkinter windows, the error message boxes and all plotly figure building and display are left out. Errors become `Failure` values, and only the list shaping before plotting is kept.
- The debug `print` of the column index (Maturity_Calculation.py:71) is left out.
- Floating point and NaN are not modelled. Means are exact reals, and NaN is `None`.
- Preprocessing.ExtractDigits and Aggregation.ExtractNumericValue use ASCII classes only. `\d` means 0-9, `\w` means ASCII letters, digits and `_`, and whitespace is the ASCII part of `str.isspace()`. Python's Unicode classes are wider.
- Aggregation.ExtractNumericValue gives the exact value of the digit run. `float()` rounds very long runs.
- Charts.SortByScore sorts present scores only. Python's ordering of NaN is not well defined.
- Common.Find takes the first column when headers repeat. pandas would select every column with that header.
- Preprocessing.Frame.CleanTitles raises only when the title column has rows, every cell is empty, and the column is not one of the extracted answer columns (an extracted column holds strings, which `.str` accepts even when all are empty). A column read from the workbook holding only numbers, or only numbers and empty cells, is held by pandas as numbers and `.str` raises on it as well; numeric cells are held as text here, so the model cleans such a column instead.
- Preprocessing.CleanTitle treats every non-missing title cell as text. In a column that also holds text, a numeric title cell would become NaN under `.str`.
- Validation.CategoryAverage raises on any text left after the replacement. That is the pandas 2 behaviour of `mean(axis=1)` on text. Older pandas silently dropped non-numeric columns.
- Aggregation.ProcessData does not model the rename of the role column to "Role" (Maturity_Calculation.py:81). The role column is read under its own header, which gives the same values.
- The per-role windows and bar charts for each role (Maturity_Calculation.py:112-118) are drawing and are left out.
