# ECIP QSR validator, modelled in Dafny

The ECIP QSR validator reconciles a bank's Quarterly Supplemental Reports
with its annual report. Each quarterly workbook holds a "Sch B" sheet. Its
20th row (index 19, counting from 0 as `iloc` does) carries 24 figures: loan counts and dollar volumes per population
and per Schedule C/D category. The annual workbook spreads the same
categories over its own sheets: "Sch C1 People", "Sch C2 Business" and
seven "Sch D" tabs.

The validator does four things:
- It sums every bank's quarterly Schedule B figures, keyed by the EC number
  taken from the file name.
- It reads each bank's annual C & D figures.
- It remembers a display name per bank.
- It prints a validation matrix. The matrix has one line per EC that has
  both kinds of data, saying whether any figure differs by more than 1.

The project has five modules, one per file:

- `Frames` (frames.dfy): a workbook as pandas reads it with `header=None`.
  A workbook is named sheets of cells that are empty, numeric or text. A
  frame is as wide as its longest row, and the cells missing from shorter
  rows read as empty. The module also holds the two pandas primitives the
  extractors share:
  - `pd.to_numeric(errors="coerce")` on a cell, for plain decimal text,
    with None standing for NaN;
  - `Series.sum()`, which skips NaN.
- `Series` (series.dfy): a metric series is a map from metric name to
  value. The module defines:
  - the fill-value add that accumulates quarters;
  - the aligned subtraction followed by `fillna(0)`;
  - the "difference above 1" test.
- `ScheduleB` (schedule_b.dfy): `extract_sch_b` as a function. It holds the
  24-entry position table in the order `extract_sch_b` lists it, the cell
  cleaning regex, and the parse-or-0 rule.
- `CdParser` (cd_parser.dfy): `extract_c_and_d_data`. It is a method that
  builds the mapping step by step, including the loop over the D tabs. The
  method is proved equal to the section-by-section specification
  `AnnualSpec`, and the properties are proved about that specification.
- `Validator` (validator.dfy): the script's three dictionaries, `ec_data`,
  `cd_data` and `bank_names`, are the fields of the class `Session`. The
  two upload loops and the matrix loop are its methods. Each method is
  proved against a fold over the uploads (`QuarterlyFold`, `AnnualFold`)
  or against the row function `RowOf`. Lemmas then state what those folds
  keep, overwrite and accumulate.

Row and column numbers below count from 0, as pandas' `iloc` does.

Reconciliation follows the code of `qsr_validator_app.py` line 117:
`(df_b - df_cd).fillna(0)`. When a metric is on only one side, pandas
subtracts to NaN and `fillna` turns that NaN into 0. So a figure that the
annual report lacks is never an issue, whatever its quarterly total. The
model follows the code (`Series.Diff`, `Series.HasIssues`). It also keeps,
as a reference definition, the difference if an absent figure counted as 0
(`Series.DiffZeroFilled`). The lemmas below state where the two agree and
where they part:
- `DiffAgreesWhereShared` and `DiffPartsWhereOneSided`;
- `IssuesAreZeroFilledIssues` (every issue the code reports is an issue
  when absent figures count as 0, not conversely);
- `MissingMetricNotFlagged` (an input that shows the difference);
- `DeepMetricsNeverCompared` (the four "Deep" Schedule B metrics have no
  annual counterpart, so they are never compared).

The same line hides NaN annual figures. A blank cell among those that C1 or
C2 adds reads as NaN in pandas, and `+` and `sum` carry the NaN into the
figure without raising. The extraction is still non-empty, so it is stored.
Line 117 then turns the NaN difference into 0, and that metric is never
flagged. The model keeps annual figures as `Readings`, with `None` for NaN
(`CdParser.C1Blanks`, `CdParser.C2Blanks`, `Series.NaNNeverFlagged`,
`Series.NaNHidesDiscrepancy`).

## Model

| member | source | states |
|---|---|---|
| ScheduleB.ExtractSchB | qsr_validator_app.py:13-52 | Data is returned exactly when "Sch B" exists, has at least 20 rows and reaches column index 54. Otherwise the result is None. The data has exactly the 24 metric names of the table, and each metric is the cleaned, parsed (or 0) cell of row index 19 under its column. |
| ScheduleB.ShortSheetIsNoData | qsr_validator_app.py:16-17 | A sheet with fewer than 20 rows yields None, not a series of zeros. |
| ScheduleB.ExtractionHas24Metrics | qsr_validator_app.py:19-48 | A successful extraction has exactly 24 metrics: the 24 names of the table are pairwise distinct. |
| ScheduleB.NamesDistinct | qsr_validator_app.py:19-44 | No two entries of the position table name the same metric. |
| ScheduleB.ColumnsInRangeIff | qsr_validator_app.py:19-46 | The table reads every column up to 54 and nothing further right, so the row lookup succeeds exactly when the frame is wider than 54 columns. |
| ScheduleB.RenameReadsEveryColumn | qsr_validator_app.py:46-48 | Renaming the selected row by a table with distinct names keys it by exactly those names, each holding the converted cell under its own column. |
| ScheduleB.Clean | qsr_validator_app.py:46 | `replace(r"[^0-9.-]", "", regex=True)` on a cell's text: the text with every character other than a digit, '.' or '-' removed. The Clean lemmas below state its properties. |
| ScheduleB.CellValue | qsr_validator_app.py:46-47 | A cell of the data row as a number: its `str`, cleaned, parsed, and 0 when the parse fails. CellValueExamples, CellValueFallsBackToZero and WholeNumberCellReadBack state its properties. |
| ScheduleB.CleanOnlyAllowed | qsr_validator_app.py:46 | The cleaned text holds only digits, '.' and '-', and is no longer than the input. |
| ScheduleB.CleanKeepsAllowedCounts | qsr_validator_app.py:46 | Each kept character occurs as often as in the input, and no other character occurs. |
| ScheduleB.CleanIsSubsequence | qsr_validator_app.py:46 | The cleaned text is the input with characters left out and the rest in order. |
| ScheduleB.CleanAppend | qsr_validator_app.py:46 | Cleaning a concatenation cleans each part. |
| ScheduleB.CleanKeepsAllowedText | qsr_validator_app.py:46 | Text made only of digits, '.' and '-' is unchanged. |
| ScheduleB.CleanIdempotent | qsr_validator_app.py:46 | Cleaning twice is cleaning once. |
| ScheduleB.CleanBlanks | qsr_validator_app.py:46 | Blanks around a figure are stripped. |
| ScheduleB.CleanDollars | qsr_validator_app.py:46 | Currency signs and thousands separators are stripped ("$1,234.50" to "1234.50"). |
| ScheduleB.ParseThousands | qsr_validator_app.py:47 | "1234.50" parses to 1234.5. |
| ScheduleB.ParseNegative | qsr_validator_app.py:47 | "-56" parses to -56. |
| ScheduleB.CellValueExamples | qsr_validator_app.py:46-47 | Formatted text cells ("$1,234.50", " -56 ") read as their numbers. |
| ScheduleB.CellValueFallsBackToZero | qsr_validator_app.py:47 | Empty cells ("nan"), and texts that do not parse after cleaning, read as 0 and never raise an error. |
| ScheduleB.WholeNumberCellReadBack | qsr_validator_app.py:46-47 | A numeric cell rendered as Python renders a whole float ("1234.0") is read back exactly. |
| ScheduleB.IntTextAllowed | qsr_validator_app.py:46 | The decimal text of an integer survives cleaning untouched. |
| ScheduleB.NamesOfMembers | qsr_validator_app.py:19-44 | A name belongs to the table's names exactly when some entry carries it. |
| ScheduleB.NamesCount | qsr_validator_app.py:19-44 | A table with distinct names has as many names as entries. |
| Frames.ParseDecimal | qsr_validator_app.py:47 | The text-to-number step of `pd.to_numeric(errors="coerce")` for plain decimal text. ParseDecimalAccepts, ParseRejects and IntTextRoundTrip state what it accepts and returns. |
| Frames.ParseDecimalAccepts | qsr_validator_app.py:47 | Text accepted as a number is not empty and holds only digits, '.' and '-'; a negative value needs a leading '-'. |
| Frames.ParseUnsignedAccepts | qsr_validator_app.py:47 | Text accepted as an unsigned number is not empty and holds only digits and '.', and its value is not negative. |
| Frames.ToNumeric | cd_parser.py:42 | `pd.to_numeric(errors="coerce")` of one cell: an empty cell is NaN (None), a number is itself, and text is what ParseDecimal makes of it. |
| Frames.NanAdd | cd_parser.py:12-13 | Python's float `+` with None for NaN: NaN on either side gives NaN. |
| Frames.SkipNaSum | cd_parser.py:42-43 | `Series.sum()`, which skips NaN. SkipNaSumIsSumOfPresent, SkipNaSumAllNa and SkipNaSumAppend state its properties. |
| Frames.IntTextRoundTrip | qsr_validator_app.py:46-47 | Parsing the decimal text of any integer gives that integer back. |
| Frames.WholeFloatTextRoundTrip | qsr_validator_app.py:46-47 | Parsing "<integer>.0" gives the integer back. |
| Frames.ParseRejects | qsr_validator_app.py:47 | "", "-", ".", "1.2.3" and "1-2" are not numbers (NaN). |
| Frames.NatTextDigits | qsr_validator_app.py:46 | The text of a natural number is a non-empty string of digits whose value is that number. |
| Frames.SkipNaSumIsSumOfPresent | cd_parser.py:42-43 | The NaN-skipping sum is the sum of the numbers that are present; NaN counts as nothing. |
| Frames.SkipNaSumAllNa | cd_parser.py:42-43 | A series with no number sums to 0. |
| Frames.SkipNaSumAppend | cd_parser.py:42-43 | The sum of a concatenation is the sum of its parts. |
| Frames.SumAppend | cd_parser.py:42-43 | The same for plain sums. |
| Series.AddFill | qsr_validator_app.py:74 | `a.add(b, fill_value=0)`. AddFillMeaning, AddFillCommutes, AddFillAssociates and AddFillEmpty state its properties. |
| Series.Diff | qsr_validator_app.py:117 | `(df_b - df_cd).fillna(0)`, with NaN annual figures. DiffMeaning states it. |
| Series.HasIssues | qsr_validator_app.py:117-118 | `(diff.abs() > 1).any()`. HasIssuesIff states it. |
| Series.AddFillMeaning | qsr_validator_app.py:74 | The fill-value add keeps the metrics of both sides. It adds where both have a metric and keeps the single value where only one does. |
| Series.AddFillCommutes | qsr_validator_app.py:74 | The fill-value add is commutative. |
| Series.AddFillAssociates | qsr_validator_app.py:74 | The fill-value add is associative. |
| Series.AddFillEmpty | qsr_validator_app.py:55 | The empty series a new EC starts from adds nothing. |
| Series.DiffMeaning | qsr_validator_app.py:117 | The difference covers the metrics of both sides. It is b - cd where both sides report a number, and 0 where only one side has the metric or the annual figure is NaN. |
| Series.HasIssuesIff | qsr_validator_app.py:117-118 | There are issues exactly when some metric that both sides report as a number differs by strictly more than 1. |
| Series.HasIssuesSymmetric | qsr_validator_app.py:117-118 | Between two series without NaN, the verdict does not depend on the direction of the subtraction. |
| Series.DisjointNeverFlagged | qsr_validator_app.py:117-118 | Two series with no metric in common are never flagged. |
| Series.DiffAgreesWhereShared | qsr_validator_app.py:117 | On a metric both sides report as a number, the code's difference and the zero-filled one are both b - cd. |
| Series.DiffPartsWhereOneSided | qsr_validator_app.py:117 | On a one-sided metric, the code's difference is 0 while the zero-filled one is the present value, negated for the annual side. |
| Series.IssuesAreZeroFilledIssues | qsr_validator_app.py:117-118 | Every issue the code reports is also an issue when absent metrics count as 0. |
| Series.NaNNeverFlagged | qsr_validator_app.py:117-118 | A NaN annual figure subtracts to 0, and the verdict is the same as if the metric were not reported at all. |
| Series.NaNHidesDiscrepancy | qsr_validator_app.py:117-118 | A quarterly 40 against an annual 0 is an issue; against an annual NaN it is not. |
| Series.MissingMetricNotFlagged | qsr_validator_app.py:117-118 | The converse fails: a quarterly 40 with no annual counterpart is not flagged by the code, but is flagged when absent counts as 0. |
| CdParser.ColumnIndex | cd_parser.py:40-41 | `ord(c.upper()) - 65`. ColumnIndexExamples, ColumnIndexOfLetter and ColumnIndexOfUpper state its values. |
| CdParser.RowReading | cd_parser.py:11-13 | `row[c]` of row index 20 as a float: a number, or NaN for a blank cell. |
| CdParser.RowSum | cd_parser.py:14-23 | `sum(row[i] for i in cols)` over row index 20, from 0 and left to right with NaN carried. RowSumBlank and C1OtherSumsSpelled state its values. |
| CdParser.RowSumBlank | cd_parser.py:14-23 | A row sum is NaN exactly when one of the cells it adds is blank. |
| CdParser.RowSumNumeric | cd_parser.py:14-23 | With a number in every cell it adds, a row sum is never NaN and equals the plain left-to-right sum of those cells (`RowValueSum`). |
| CdParser.ColumnTotal | cd_parser.py:42-43 | `pd.to_numeric(df.iloc[5:, col], errors="coerce").sum()`. ColumnTotalMeaning states it. |
| CdParser.C1Entries | cd_parser.py:7-15 | The C1 block's four figures, or nothing when the sheet is absent or short. C1Presence, C1Values and C1Blanks state them. |
| CdParser.C2Entries | cd_parser.py:17-23 | The C2 block's two figures, or nothing when the sheet is absent or short. C2Presence, C2Values and C2Blanks state them. |
| CdParser.DEntries | cd_parser.py:25-43 | The D loop's figures, tab after tab. DEntriesKeys and DEntriesValue state them. |
| CdParser.AnnualSpec | cd_parser.py:3-45 | The three sections' figures together. The Presence, Values and Blanks lemmas, AnnualKeysInVocabulary and MissingSheet state its properties. |
| CdParser.ExtractCAndD | cd_parser.py:3-45 | The step-by-step construction (the C1 block, the C2 block, then the loop over the seven D tabs) returns exactly the section-by-section specification, blank C1 and C2 cells giving NaN figures. |
| CdParser.C1Presence | cd_parser.py:8-10 | C1's four metrics are present exactly when "Sch C1 People" exists with at least 21 rows. |
| CdParser.C2Presence | cd_parser.py:18-20 | C2's two metrics are present exactly when "Sch C2 Business" exists with at least 21 rows. |
| CdParser.DPresence | cd_parser.py:36-39 | A D tab's two metrics are present exactly when that tab exists with at least 6 rows. |
| CdParser.DKeyOwner | cd_parser.py:36-43 | Among the D entries, a tab's metric names come from that tab alone. |
| CdParser.DKeyFromTabs | cd_parser.py:36-45 | A D metric is in the result exactly when the D loop produced it, with the same value. |
| CdParser.C1Values | cd_parser.py:11-15 | C1's LMI metrics are the float sums of columns 3+5 and 4+6 of row index 20, and its "Other Targeted Populations" metrics are the 8-term sums of the listed columns. |
| CdParser.C1Blanks | cd_parser.py:11-15 | A C1 figure is NaN exactly when one of the cells it adds is blank. |
| CdParser.C1OtherSumsSpelled | cd_parser.py:14-15 | With numbers in every cell, those two sums are the sums of columns 11, 13, ..., 25 and 12, 14, ..., 26 of row index 20. |
| CdParser.C2Values | cd_parser.py:21-23 | C2's metrics are the sums of row index 20 over the loan columns and the dollar columns. |
| CdParser.C2NumericSums | cd_parser.py:22-23 | With numbers in all eleven cells of a range, C2's loan or dollar figure is the plain sum of those cells. |
| CdParser.C1LmiLoansFigure | cd_parser.py:8-12 | With numbers in columns 3 and 5 of row index 20 of a C1 sheet with at least 21 rows, "Sch C1 People # Loans (LMI Borrowers)" is in the result and is their sum. |
| CdParser.C2Blanks | cd_parser.py:21-23 | A C2 figure is NaN exactly when one of the eleven cells it adds is blank. |
| CdParser.C2ColumnsAreRanges | cd_parser.py:22-23 | C2's column lists are `range(3, 24, 2)` and `range(4, 25, 2)`. |
| CdParser.C2ColumnsShape | cd_parser.py:22-23 | C2 reads the 11 odd columns 3 to 23 for loans, and for dollars the column to the right of each. |
| CdParser.C1ListsAsRanges | cd_parser.py:14-15 | C1's written-out lists are `range(11, 26, 2)` and `range(12, 27, 2)`. |
| CdParser.C1ColumnsShape | cd_parser.py:14-15 | C1 reads the 8 odd columns 11 to 25 for loans, and for dollars the column to the right of each. |
| CdParser.DValues | cd_parser.py:40-43 | A D tab's metrics are the totals of the columns its two letters name, and are never NaN. |
| CdParser.ColumnTotalMeaning | cd_parser.py:42-43 | A D column total is the sum of the numeric cells from row index 5 down, with every other cell left out. With no numeric cell it is 0. |
| CdParser.NumericColumnAt | cd_parser.py:42-43 | `to_numeric` of `iloc[5:, col]` has one entry per row from row index 5 on, each the converted cell. |
| CdParser.ColumnIndexExamples | cd_parser.py:40-41 | Letters E, F and G, in either case, resolve to columns 4, 5 and 6. |
| CdParser.ColumnIndexOfLetter | cd_parser.py:40-41 | The i-th letter, upper or lower case, resolves to column i. |
| CdParser.ColumnIndexOfUpper | cd_parser.py:40-41 | Upper-case letters resolve to columns 0 to 25, and the column gives its letter back. |
| CdParser.TabKeysSpelled | cd_parser.py:26-43 | The seven D tabs' metric names, spelled out. |
| CdParser.SheetNamesDistinct | cd_parser.py:8-37 | No two sections read the same sheet. |
| CdParser.SectionKeysDisjoint | cd_parser.py:12-43 | C1, C2 and the D tabs never produce the same metric name. |
| CdParser.TabKeysDisjoint | cd_parser.py:26-43 | Two D tabs never produce the same metric name, and neither does one tab twice. |
| CdParser.DEntriesKeys | cd_parser.py:36-43 | A name is among the D entries exactly when some tab present with enough rows produces it. |
| CdParser.DEntriesValue | cd_parser.py:36-43 | A later tab does not overwrite an earlier tab's values. |
| CdParser.AnnualKeysInVocabulary | cd_parser.py:5-45 | The result never holds a metric outside the 20 names the extractor can produce. |
| CdParser.MissingSheet | cd_parser.py:8-39 | Removing a sheet from the workbook removes exactly the metrics of the section that reads it. Every other metric keeps its value. |
| CdParser.MissingSheetC1 | cd_parser.py:8 | The C1 part of MissingSheet. |
| CdParser.MissingSheetC2 | cd_parser.py:18 | The C2 part of MissingSheet. |
| CdParser.MissingSheetD | cd_parser.py:37 | The D part of MissingSheet. |
| CdParser.PyRangeShape | cd_parser.py:22-23 | The k-th element of `range(start, stop, step)` is start + step*k. |
| CdParser.PyRangeLength | cd_parser.py:22-23 | A range has n elements when its n-th term is the last one below `stop`. |
| Validator.QuarterlyStep | qsr_validator_app.py:69-75 | One pass of the quarterly loop. QuarterlyStepKeys and QuarterlyStepKeeps state it. |
| Validator.QuarterlyFold | qsr_validator_app.py:64-75 | The quarterly loop over all files. The quarterly lemmas below state its properties. |
| Validator.AnnualStep | qsr_validator_app.py:86-92 | One pass of the annual loop: a non-empty extraction replaces the EC's figures and bank name. AnnualStepKeeps states it. |
| Validator.AnnualFold | qsr_validator_app.py:82-92 | The annual loop over all files. AnnualLastWins, AnnualUntouched, AnnualKeepsQuarters and AnnualFoldKeeps state its properties. |
| Validator.QuarterlyTotals | qsr_validator_app.py:64-75 | After the quarterly loop, an EC's total is its earlier total plus the fill-value sum of all its extractions. |
| Validator.QuarterlyStepTotal | qsr_validator_app.py:69-74 | One pass adds the upload's extraction to its EC's total, and adds nothing to any other EC's. |
| Validator.QuarterlyStepBank | qsr_validator_app.py:69-75 | One pass sets an EC's bank name when it yields data for it, and otherwise leaves the EC's total and bank name as they were. |
| Validator.QuarterlyKeys | qsr_validator_app.py:64-75 | An EC has a quarterly total exactly when it had one before, or some upload for it yielded data. |
| Validator.QuarterlyStepKeys | qsr_validator_app.py:69-75 | One pass of the loop adds the EC to `ec_data` exactly when the file names an EC and the extraction is not None. |
| Validator.QuarterSumAppend | qsr_validator_app.py:74 | The quarterly sum over two batches of files is the fill-value add of the two sums. |
| Validator.QuarterSumSwap | qsr_validator_app.py:74 | Exchanging two neighbouring uploads changes no EC's quarterly sum. |
| Validator.HasQuarterAppend | qsr_validator_app.py:69-75 | Some upload in two batches yields data exactly when one in either batch does. |
| Validator.QuarterOrderIrrelevant | qsr_validator_app.py:64-75 | The order of the quarterly files does not matter: swapping two neighbours leaves `ec_data` unchanged. |
| Validator.QuarterSumPermutation | qsr_validator_app.py:69-75 | Uploads that rearrange one another give every EC the same quarterly sum, and yield data for the same ECs. |
| Validator.QuarterSumMiddle | qsr_validator_app.py:74 | An upload in the middle of the files adds to the quarterly sum as if it came last. |
| Validator.HasQuarterMiddle | qsr_validator_app.py:69-75 | Whether some upload yields data does not depend on where an upload sits. |
| Validator.QuarterOrderPermutation | qsr_validator_app.py:64-75 | Any rearrangement of the quarterly files leaves `ec_data` unchanged. |
| Validator.QuarterlyUntouched | qsr_validator_app.py:69-75 | An EC for which no quarterly upload yields data keeps its quarterly total (or its absence) and its bank name. |
| Validator.QuarterlyKeepsAnnual | qsr_validator_app.py:64-75 | Quarterly uploads never touch the annual figures. |
| Validator.QuarterlyBankLastWins | qsr_validator_app.py:75 | An EC's bank name is the one from its last quarterly upload that yielded data. |
| Validator.AnnualLastWins | qsr_validator_app.py:89-92 | An EC's annual figures and bank name are those of its last upload with a non-empty extraction. |
| Validator.AnnualUntouched | qsr_validator_app.py:90 | An EC without a non-empty annual extraction keeps its annual figures and its bank name; an empty result is dropped. |
| Validator.AnnualKeepsQuarters | qsr_validator_app.py:82-92 | Annual uploads never touch the quarterly totals. |
| Validator.QuarterlyStepKeeps | qsr_validator_app.py:69-75 | One quarterly pass keeps the tables well formed: every EC with data has a bank name, quarterly totals hold exactly the 24 Schedule B metrics, and annual figures are non-empty and within the annual vocabulary. |
| Validator.QuarterlyStepBanks | qsr_validator_app.py:73-75 | One quarterly pass adds a bank name exactly for the EC it adds quarterly data for. |
| Validator.QuarterlyStepShapes | qsr_validator_app.py:73-74 | After one quarterly pass every quarterly total still holds exactly the 24 Schedule B metrics. |
| Validator.QuarterlyFoldKeeps | qsr_validator_app.py:64-75 | The whole quarterly loop keeps the tables well formed. |
| Validator.AnnualStepKeeps | qsr_validator_app.py:86-92 | One annual pass keeps the tables well formed. |
| Validator.AnnualFoldKeeps | qsr_validator_app.py:82-92 | The whole annual loop keeps the tables well formed. |
| Validator.StrLt | qsr_validator_app.py:113 | Python's `<` on strings: by code point, a proper prefix first. StrLtIrreflexive, StrLtTransitive and StrLtTotal state that it is a strict total order. |
| Validator.StrLtIrreflexive | qsr_validator_app.py:113 | Python's string order is irreflexive. |
| Validator.StrLtTransitive | qsr_validator_app.py:113 | Python's string order is transitive. |
| Validator.StrLtTotal | qsr_validator_app.py:113 | Python's string order is total on distinct strings. |
| Validator.Least | qsr_validator_app.py:113 | Returns the element of a non-empty key set that precedes every other element. |
| Validator.SortedKeys | qsr_validator_app.py:113 | `sorted(ec_data.keys())` lists every key exactly once, in strictly increasing order. |
| Validator.BankLabel | qsr_validator_app.py:120 | `bank_names.get(ec, f"EC{ec}")`. BankLabelKnown states that the fallback is never used. |
| Validator.Verdict | qsr_validator_app.py:117-121 | "Yes" when the EC has issues, otherwise "No". VerdictIff and SingleMetricVerdict state it. |
| Validator.RowOf | qsr_validator_app.py:118-121 | The matrix row of one EC: its bank label and verdict. VerdictIff and BankLabelKnown state it. |
| Validator.BankLabelKnown | qsr_validator_app.py:120 | For well-formed tables, a reconciled EC always has its own bank name, so the "EC" fallback is never shown. |
| Validator.AnnualVocabularyInNames | qsr_validator_app.py:19-44 | Every metric the annual extractor can report is one of the 24 Schedule B metrics. |
| Validator.VocabularyEntry | qsr_validator_app.py:19-44 | Each annual metric is the name of a Schedule B entry other than the four "Deep" ones. |
| Validator.VerdictIff | qsr_validator_app.py:113-121 | An EC's annual metrics are a subset of its quarterly ones. Its row says "Yes" exactly when some annual figure that is not NaN differs from the quarterly total by more than 1, and "No" exactly when there are no issues. |
| Validator.DeepMetricsNeverCompared | qsr_validator_app.py:113-118 | The four "Deep" metrics are in every quarterly total and in no annual figures. Their difference is always 0. |
| Validator.DeepNotAnnual | cd_parser.py:5-45 | The annual extractor never produces a "Deep" metric. |
| Validator.FourQuartersExample | qsr_validator_app.py:113-121 | Four quarters of 10 accumulate to 40. Against an annual 40 the verdict is "No"; against 45 it is "Yes". |
| Validator.QuarterlyFromScratch | qsr_validator_app.py:64-75 | The quarterly loop from empty tables keeps them well formed. An EC is in `ec_data` exactly when some upload for it yields data, and it then holds the fill-value sum of those extractions. |
| Validator.AnnualRowReconciled | qsr_validator_app.py:86-121 | After the annual loop, an EC with quarterly data is reconciled against its last non-empty extraction, under that upload's bank name. Its quarterly total is untouched. |
| Validator.C1LmiLoansStored | qsr_validator_app.py:86-92 | After the annual loop, C1's LMI loan count for an EC is the sum of cells 3 and 5 of row index 20 from its last non-empty upload. |
| Validator.C1LmiLoansEndToEnd | qsr_validator_app.py:64-121 | From workbooks to matrix for "Sch C1 People # Loans (LMI Borrowers)". After both loops the EC holds the sum of its quarterly extractions and the last annual extraction. The metric is on both sides, with annual value cell 3 + cell 5. The EC's row is its bank name with the verdict on those two series. |
| Validator.FlaggedMetric | qsr_validator_app.py:113-121 | A shared metric whose annual number is more than 1 from its quarterly total makes the verdict "Yes". A "No" verdict means it agrees to within 1. |
| Validator.SingleMetricVerdict | qsr_validator_app.py:117-121 | With one shared metric, the verdict is whether the two values differ by more than 1; against a NaN annual figure it is "No". |
| Validator.Session.constructor | qsr_validator_app.py:55-57 | A session starts with the three dictionaries empty. |
| Validator.Session.UploadQuarterly | qsr_validator_app.py:64-75 | The loop updates `ec_data` and `bank_names` in place, ending in the quarterly fold over the files. It keeps the tables well formed. |
| Validator.Session.UploadAnnual | qsr_validator_app.py:82-92 | The loop calls the C & D extractor per file and ends in the annual fold. It keeps the tables well formed. |
| Validator.Session.ValidationMatrix | qsr_validator_app.py:113-122 | The rows are in strictly increasing EC order, with one row for each EC that has both quarterly and annual data and no other. Each row is that EC's bank label and verdict. |

## Left out

- The Streamlit page is left out: titles, uploaders, the warning shown when
  a quarterly file fails, and the tables drawn on screen.
- The per-bank side-by-side view (qsr_validator_app.py lines 95-107) is left
  out. It only displays data and stores nothing.
- Reading the Excel files is left out. A workbook is given as a map from
  sheet name to a grid of cells.
- Deriving the EC number and bank name from the file name is left out: the
  regular expressions, `zfill(4)` and the underscore replacement. An upload
  carries the EC (None when the file name has none) and the bank name as
  given fields.
- Float arithmetic is not modelled: values are exact reals. NaN is modelled
  where it reaches stored data, in the C1 and C2 figures (None in
  `Readings`). Inside `to_numeric` and Schedule B's `fillna(0)` it is an
  absent value.
- Python's `str` of a float is not modelled. It is the parameter `toText`;
  only whole numbers rendered as "<n>.0" are proved to read back.
- `pd.to_numeric` is modelled for plain decimal text only: an optional '-',
  digits, and at most one '.'. Other notations it accepts are not modelled:
  exponents, a leading '+', "inf"/"nan", and surrounding blanks. For
  Schedule B this changes nothing, because the cleaning has already removed
  every such character. It does matter for D-tab text cells, which are not
  cleaned: pandas reads " 12" or "1e3" as a number, but `Frames.ToNumeric`
  reads them as NaN, so the model leaves them out of a D column total.
- Letter case is modelled for ASCII letters only.
- CdParser.ExtractCAndD requires `AnnualReadable`. The source raises an
  exception in these cases, and the model does not recover from them:
  - a C1 or C2 cell that a `sum` adds holds text (`0 + str` is a TypeError);
  - an LMI cell holds text and its partner holds a number or is blank
    (`str + float` is a TypeError);
  - a C1 or C2 sheet of at least 21 rows is narrower than the highest
    column its sums read (column 26 for C1, column 24 for C2): the missing
    `row[i]` is a KeyError;
  - a D tab is narrower than the column its letter names (an IndexError).
  This exception propagates out of the script, so no result exists to model.
  Blank C1 and C2 cells are accepted: they give NaN figures, which are
  stored and never flagged (`CdParser.C1Blanks`, `Series.NaNNeverFlagged`).
- CdParser.ExtractCAndD also excludes one input that does not raise: two
  text cells added for an LMI figure (columns 3 and 5, or 4 and 6). Python
  joins the two strings, and the figure becomes text. Annual figures are
  numbers or NaN in this model, so a text figure is not modelled.
- Validator.Session.UploadAnnual: requires `AllReadable`, which is
  `AnnualReadable` for every file that names an EC, for the same reasons.
- Validator.Session.UploadQuarterly: requires `Valid()`, which the
  constructor establishes and every method keeps.
- Validator.Session.UploadAnnual: requires `Valid()`, for the same reason.
- Validator.Session.ValidationMatrix: each row carries its EC next to the
  two displayed columns, so that the contract can name it. The displayed
  matrix is the rows without the EC.
