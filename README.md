# Thesis_Data_Merger in Dafny

`Thesis_Data_Merger.py` merges the quarterly survey files of the ECB Survey of
Professional Forecasters into three long panels. For each survey vintage
(`2021Q3.csv`, ...) it computes the label of the forecast horizon
(`2022Jun`, `2022Q1`, `2022May`), keeps the survey rows for that label, left-joins
them onto the fixed forecaster panel 1..150 and appends the result to an
accumulator. There are three mergers:

- `merge_datasets_inflation` reads the HICP section of each file;
- `merge_datasets_GDP` collects the first run of rows for the label;
- `merge_datasets_unemployment` filters the whole file.

This project models those rules and the three loops around them, and proves
what they promise. It has these modules:

- `Decimal` (`decimal.dfy`): `int(s)` on digit strings and `str(n)`.
- `Periods` (`periods.dfy`): the three horizon rules `compute_target_period`,
  the GDP rule written inline, and `compute_target_period_unemployment`.
  Labels are structured values with a `Text()`. The module also gives an
  independent calendar reading of each rule (n months or quarters later) and
  proves each rule equal to it.
- `FileSelector` (`files.dfy`): the file-name filter `re.match(r'\d{4}Q[1-4]\.csv', f)`,
  the descending sort, and `filename.split('Q')`.
- `SectionExtractor` (`section.dfy`): the HICP section regex with its lazy
  `.*?` and lookahead.
- `Frame` (`frame.dfy`): the part of a data frame the mergers look at. These are
  the TARGET_PERIOD and FCT_SOURCE cells, which column names are present, and
  the other columns as an opaque payload.
- `Panel` (`panel.dfy`): the left join `pd.merge(full_forecaster_df, rows, on=[...], how='left')`
  that densifies one period onto ids 1..150.
- `GdpScan` (`scan.dfy`): the `include_rows` / `break` loop of the GDP merger,
  as a method. It is proved equal to a definition of the first block of
  matching rows.
- `MergeCommon` (`common.dfy`): the label filter `str.contains('^label$')`,
  conversion to join records, the run outcome, and the generic fold that the
  loops are specified by. The fold ends at the first exception.
- `InflationMerge`, `GdpMerge`, `UnemploymentMerge` (`inflation.dfy`, `gdp.dfy`,
  `unemployment.dfy`): each gives one pass as a function and the loop as a
  method proved to compute the fold, with lemmas about a single pass and about
  a whole run.

The directory listing is a `seq<string>`. Reading a file becomes a function
parameter: `read` gives the text of a file, `parse` gives the frame of a
section, and `load` gives the frame of a file. The exceptions that end a run
are a `Failure` value in a `Result`:

- `split('Q')` not giving two pieces;
- an unknown quarter key;
- a missing column;
- `astype(int)` of an empty FCT_SOURCE cell.

Python's `$` (without MULTILINE) matches at the end of the text and also just
before a newline that ends it. The model follows that in two places:

- The section search may stop one character before the end.
- The label filter also passes a cell equal to the label followed by `"\n"`.
  The join compares TARGET_PERIOD by equality, so such a row is then matched to
  no forecaster.

In `merge_datasets_unemployment`, the quarter taken from the file name is
`'Q' + quarter[0]`. For a name that passed the filter this digit is always
1 to 4, so the `KeyError` branch of that merger can never be reached.
`UnemploymentMerge.UnemploymentLabel` states this: it fails exactly when the
split fails.

`re.match` anchors the pattern only at the start of the name, so a name such as
`2021Q1.csv.bak` also passes the file filter. The two mergers that take the
quarter from the name treat it differently:

- `merge_datasets_GDP` (lines 104-106 of `Thesis_Data_Merger.py`) takes
  `'Q' + quarter[:-4]`, here `Q1.csv`. That is no key of `quarter_to_next_qtr`,
  so the lookup raises `KeyError`, which ends the whole GDP run.
  `GdpMerge.GdpLabel` states that the label is found exactly when the name has
  the ten characters of `YYYYQd.csv`, and `GdpMerge.GdpLongNameRaises` that a
  longer name with one Q raises.
- `merge_datasets_unemployment` (line 188) takes only the digit after the Q, so
  it processes such a file like `2021Q1.csv` (`UnemploymentMerge.UnemploymentLongName`).
- `merge_datasets_inflation` (line 53) reads only the year and quarter digits
  with `re.search`, so it also processes such a file like `2021Q1.csv`.

The loop bodies of `AccumulateInflation` and `AccumulateUnemployment` are
written as the source writes them: each failure is an early `continue` or
exception. Each loop is proved to compute the recursive panel function, whose
properties are proved lemma by lemma. The GDP loop body is the method `GdpFile`,
because it runs the `include_rows` scan loop `ScanBlock`.

## Model

| member | source | states |
|---|---|---|
| Decimal.Render | Thesis_Data_Merger.py:171 | `str(n)` gives a canonical numeral: digits, with no leading zero |
| Decimal.ValueRender | Thesis_Data_Merger.py:171 | `int(str(n)) == n` |
| Decimal.RenderValue | Thesis_Data_Merger.py:168-171 | `str(int(s)) == s` for a canonical numeral, so copying the year text and rendering its value agree |
| Decimal.RenderInjective | Thesis_Data_Merger.py:171 | distinct numbers render to distinct numerals |
| Decimal.ValueFourDigits | Thesis_Data_Merger.py:24 | `int()` of a four-digit year, digit by digit |
| Periods.QuarterOfKey | Thesis_Data_Merger.py:18 | a quarter is found only for its own key ("Q1" to "Q4") |
| Periods.QuarterOfKeyFinds | Thesis_Data_Merger.py:15-18 | `quarter_order.index(key)` succeeds exactly for the four keys of `quarter_order` |
| Periods.QuarterOfKeyInverse | Thesis_Data_Merger.py:15-18 | every quarter is found again from its key |
| Periods.QuarterOfDigit | Thesis_Data_Merger.py:18 | `'Q' + quarter` is found exactly when `quarter` is one digit 1 to 4, and it then has that digit's position |
| Periods.InflationTargetPeriod | Thesis_Data_Merger.py:7-29 | a label exists exactly for the digits 1 to 4; its year is computed and its month is one of Mar, Jun, Sep, Dec |
| Periods.GdpTargetPeriod | Thesis_Data_Merger.py:88-107 | a label exists exactly for the four quarter keys; its year is computed and its tag is a quarter |
| Periods.UnemploymentTargetPeriod | Thesis_Data_Merger.py:158-176 | a label exists exactly for the four quarter keys; its month is one of Nov, Feb, May, Aug |
| Periods.QuarterDigit | Thesis_Data_Merger.py:18 | `'Q'` followed by the digit of a quarter is that quarter's key |
| Periods.InflationIsNineMonthsAfterQuarterEnd | Thesis_Data_Merger.py:17-27 | the inflation label is the month nine months after the last month of the survey quarter (the end of the quarter three quarters ahead), with its year carried over on the calendar |
| Periods.GdpIsTwoQuartersAhead | Thesis_Data_Merger.py:88-107 | the GDP label is the quarter two quarters after the survey quarter, with the year carried over on the calendar |
| Periods.UnemploymentIsTenMonthsAfterQuarterStart | Thesis_Data_Merger.py:158-176 | the unemployment label reads as the month ten months after the first month of the survey quarter |
| Periods.FirstQuarterTarget | Thesis_Data_Merger.py:168-169 | Q1 copies the year text and names November; that reads as ten months after January of the same year |
| Periods.LaterQuarterTarget | Thesis_Data_Merger.py:170-171 | for any digit-string year, Q2 to Q4 give exactly the calendar offset of ten months |
| Periods.FromJanuary | Thesis_Data_Merger.py:161 | ten months after January is November of the same year |
| Periods.InflationQuarterTable | Thesis_Data_Merger.py:7-29 | Q1 gives `YDec`, and Q2, Q3, Q4 give `(Y+1)Mar`, `(Y+1)Jun`, `(Y+1)Sep` |
| Periods.GdpQuarterTable | Thesis_Data_Merger.py:88-107 | Q1 gives `YQ3` and Q2 gives `YQ4`; Q3 gives `(Y+1)Q1` and Q4 gives `(Y+1)Q2`, so the year moves on exactly for Q3 and Q4 |
| Periods.UnemploymentQuarterTable | Thesis_Data_Merger.py:158-176 | Q1 gives the year text as given followed by Nov; Q2, Q3, Q4 give `(Y+1)Feb`, `(Y+1)May`, `(Y+1)Aug` |
| Periods.AbbrevInjective | Thesis_Data_Merger.py:8-13 | distinct months have distinct abbreviations |
| Periods.TextInjective | Thesis_Data_Merger.py:27 | two computed labels of the same kind are equal when their texts are |
| Periods.InflationRuleInjective | Thesis_Data_Merger.py:7-29 | two vintages with the same inflation label have the same year value and the same quarter |
| Periods.GdpRuleInjective | Thesis_Data_Merger.py:88-107 | two vintages with the same GDP label have the same year value and the same quarter |
| Periods.UnemploymentRuleInjective | Thesis_Data_Merger.py:158-176 | two vintages with the same unemployment label text have the same year and quarter; in particular, distinct quarters of one year give distinct labels |
| Periods.TenMonthsLaterInjective | Thesis_Data_Merger.py:160-165 | ten months after the start of a quarter determines the quarter and the year |
| Periods.InflationExample | Thesis_Data_Merger.py:7-29 | vintage 2020Q4 gives `2021Sep` |
| Periods.GdpExample | Thesis_Data_Merger.py:88-107 | vintages 2021Q1 and 2021Q3 give `2021Q3` and `2022Q1` |
| Periods.UnemploymentExample | Thesis_Data_Merger.py:158-176 | the four vintages of 2021 give `2021Nov`, `2022Feb`, `2022May`, `2022Aug` |
| FileSelector.LexLeReflexive | Thesis_Data_Merger.py:32 | Python's string order is reflexive |
| FileSelector.LexLeTotal | Thesis_Data_Merger.py:32 | Python's string order is total |
| FileSelector.LexLeAntisymmetric | Thesis_Data_Merger.py:32 | Python's string order is antisymmetric |
| FileSelector.LexLeTransitive | Thesis_Data_Merger.py:32 | Python's string order is transitive |
| FileSelector.Matching | Thesis_Data_Merger.py:32 | the comprehension keeps exactly the listed names that match the pattern at their start |
| FileSelector.MatchingMultiset | Thesis_Data_Merger.py:32 | each matching name is kept as often as it is listed, and no other name is kept |
| FileSelector.Insert | Thesis_Data_Merger.py:32 | inserting into a descending list keeps it descending and adds exactly the new name |
| FileSelector.SortDescending | Thesis_Data_Merger.py:32 | `sorted(..., reverse=True)` is a permutation of its input in descending order |
| FileSelector.SelectFiles | Thesis_Data_Merger.py:32 | the processed files are a permutation of the matching names, hold exactly the listed names that match, and are in descending order |
| FileSelector.SelectFilesMultiset | Thesis_Data_Merger.py:32 | each matching name is processed as often as it is listed, and no other name is processed |
| FileSelector.SelectedVintages | Thesis_Data_Merger.py:96 | every processed file has a vintage name |
| FileSelector.DescendingUnique | Thesis_Data_Merger.py:179 | two descending arrangements of the same names are the same list, so the order is determined |
| FileSelector.FirstDifferenceOrders | Thesis_Data_Merger.py:32 | strings equal up to a position and smaller there are ordered |
| FileSelector.ValueInjectiveSameLength | Thesis_Data_Merger.py:32 | numerals of one length with equal values are equal |
| FileSelector.DigitsOrder | Thesis_Data_Merger.py:32 | a smaller numeral of the same length first differs by a smaller digit |
| FileSelector.VintageOrder | Thesis_Data_Merger.py:95-96 | an earlier vintage's file name sorts strictly below a later one's |
| FileSelector.LaterVintageFirst | Thesis_Data_Merger.py:95-96 | "sorted from latest to earliest": a later vintage is processed before an earlier one |
| FileSelector.FirstQ | Thesis_Data_Merger.py:104 | the position of the first 'Q' of a name |
| FileSelector.SplitOnQ | Thesis_Data_Merger.py:104 | `split('Q')` fails exactly when the name does not hold exactly one 'Q'; otherwise it gives the two pieces around it |
| FileSelector.SplitVintage | Thesis_Data_Merger.py:104-105 | on a vintage name the split gives the four year digits and what follows the Q |
| FileSelector.ShortVintageSplits | Thesis_Data_Merger.py:104 | a vintage name of exactly ten characters holds one Q, so the split succeeds |
| SectionExtractor.Find | Thesis_Data_Merger.py:42 | the first occurrence of a pattern at or after a position, or none |
| SectionExtractor.StopFrom | Thesis_Data_Merger.py:42 | the lazy `.*?` stops at the first position where the lookahead succeeds |
| SectionExtractor.SearchSection | Thesis_Data_Merger.py:42-43 | a match exists exactly when the HICP header occurs; it starts at the header's first occurrence and ends at the first later stop |
| SectionExtractor.ExtractSection | Thesis_Data_Merger.py:42-48 | the section exists exactly when the search matches, and it is at least as long as the header |
| SectionExtractor.SectionStartsWithHeader | Thesis_Data_Merger.py:48 | the section begins with the HICP header |
| SectionExtractor.OccursInSlice | Thesis_Data_Merger.py:48 | an occurrence inside the section is an occurrence in the text |
| SectionExtractor.NoStopInSlice | Thesis_Data_Merger.py:42 | where the lookahead fails, no following header begins in a slice |
| SectionExtractor.NoFollowingHeaderInside | Thesis_Data_Merger.py:42 | no following section header begins inside the section after its own header |
| SectionExtractor.SectionRunsToEnd | Thesis_Data_Merger.py:42 | with no following header in the text, the section runs to the end, less a final newline |
| Panel.Densify | Thesis_Data_Merger.py:64-71 | the merged frame has at least one row per forecaster id |
| Panel.MatchesSpec | Thesis_Data_Merger.py:69-71 | the records joined to a key are exactly those with that id and period |
| Panel.MatchesNone | Thesis_Data_Merger.py:69-71 | a key that no record has joins no record |
| Panel.AttachSpec | Thesis_Data_Merger.py:69-71 | each joined record gives a row carrying its payload |
| Panel.LookupFirst | Thesis_Data_Merger.py:69-71 | a payload found for a key belongs to a record with that key |
| Panel.MatchesLookup | Thesis_Data_Merger.py:69-71 | a key joins nothing exactly when no payload is found for it, and otherwise its first joined payload is the one found |
| Panel.JoinKeyHead | Thesis_Data_Merger.py:69-71 | every id gives at least one row, and the first carries the payload found or none |
| Panel.JoinKeyRows | Thesis_Data_Merger.py:69-71 | the rows of an id carry that id and the period |
| Panel.JoinKeyKeepsMatches | Thesis_Data_Merger.py:69-71 | every record appears among the rows of its own key |
| Panel.JoinKeyUnique | Thesis_Data_Merger.py:69-71 | with unique keys an id gives exactly one row |
| Panel.MatchesUnique | Thesis_Data_Merger.py:69-71 | with unique keys at most one record joins a key |
| Panel.DensifyFromLength | Thesis_Data_Merger.py:64 | at least one row for each id from a given id to 150 |
| Panel.RowsJoin | Thesis_Data_Merger.py:64 | the rows of one id followed by rows of later ids stay within the ids |
| Panel.DensifyFromRows | Thesis_Data_Merger.py:64-66 | every row from a given id on carries the period and an id up to 150 |
| Panel.AscendingJoin | Thesis_Data_Merger.py:64 | rows of one id followed by ascending rows of later ids ascend |
| Panel.DensifyFromAscending | Thesis_Data_Merger.py:64 | the ids ascend from a given id on |
| Panel.DensifyShape | Thesis_Data_Merger.py:64-71 | at least 150 rows, each with the target period and an id in 1..150, with the ids ascending |
| Panel.DensifyFromContains | Thesis_Data_Merger.py:64-71 | the rows of a later id appear in the frame from an earlier id |
| Panel.DensifyFromHasRow | Thesis_Data_Merger.py:64-71 | each id from a given id on has its row with the payload found, or none |
| Panel.DensifyFromKeeps | Thesis_Data_Merger.py:64-71 | each record with an id in range appears with its payload |
| Panel.JoinKeySound | Thesis_Data_Merger.py:69-71 | a payload in the rows of an id comes from a record with that key |
| Panel.DensifyFromSound | Thesis_Data_Merger.py:69-71 | every payload in the frame comes from a record with that row's key |
| Panel.DensifySound | Thesis_Data_Merger.py:130-137 | every payload in the merged frame comes from a filtered row with that id and period |
| Panel.RowsOfAppend | Thesis_Data_Merger.py:135-137 | the rows of one id in two concatenated frames are those of the first, then those of the second |
| Panel.RowsOfUniform | Thesis_Data_Merger.py:135-137 | rows that all carry one id are that id's rows whole, and no other id's |
| Panel.RowsOfEmpty | Thesis_Data_Merger.py:135-137 | when an id has no rows, no position of the frame carries it |
| Panel.RowsOfSingleton | Thesis_Data_Merger.py:135-137 | when an id has one row, exactly one position of the frame carries it |
| Panel.DensifyFromRowsOf | Thesis_Data_Merger.py:130-137 | from a given id on, forecaster k's rows are exactly the join's rows for k |
| Panel.DensifyRowsOf | Thesis_Data_Merger.py:130-137 | in the merged frame, forecaster k's rows are exactly what the left join gives for k: its survey rows in order, or one row of NaNs |
| Panel.DensifyCovers | Thesis_Data_Merger.py:130-137 | every id in 1..150 appears; an id with no survey row appears exactly once, with no payload (NaN); every matching record appears with its payload |
| Panel.DensifyFromUnique | Thesis_Data_Merger.py:206-213 | with unique keys, the frame from a given id is exactly one row per id, in order |
| Panel.DensifyUnique | Thesis_Data_Merger.py:206-213 | with unique keys, exactly 150 rows; row k is id k+1 with its payload or none |
| GdpScan.FirstMatchFrom | Thesis_Data_Merger.py:113-115 | the first row at or after a position whose TARGET_PERIOD equals the label |
| GdpScan.RunEnd | Thesis_Data_Merger.py:117-119 | the first row after a position whose TARGET_PERIOD differs from the label |
| GdpScan.ScanBlock | Thesis_Data_Merger.py:110-124 | the `include_rows` loop with `break` collects exactly the first block of matching rows |
| GdpScan.BlockRowsMatch | Thesis_Data_Merger.py:117-120 | every collected row has the target label |
| GdpScan.BlockEmptyIff | Thesis_Data_Merger.py:113-123 | nothing is collected exactly when no row has the label |
| GdpScan.BlockCharacterised | Thesis_Data_Merger.py:110-124 | the block is the contiguous slice from the first matching row to the first non-matching row after it |
| GdpScan.LaterRunIgnored | Thesis_Data_Merger.py:118-119 | matching rows after the first run has ended are not collected |
| MergeCommon.KeepLabel | Thesis_Data_Merger.py:58 | the filter keeps only rows whose TARGET_PERIOD passes `^label$` |
| MergeCommon.KeepLabelKeeps | Thesis_Data_Merger.py:200 | every row whose cell passes the filter is kept |
| MergeCommon.KeepLabelSubset | Thesis_Data_Merger.py:200 | the filter keeps only rows of its input |
| MergeCommon.ToRecords | Thesis_Data_Merger.py:203 | `astype(int)` on present FCT_SOURCE cells keeps every row, in order, with its cells |
| MergeCommon.Then | Thesis_Data_Merger.py:99-139 | an earlier exception stands, a new one ends the run, and two successes give the pass folded into the accumulator |
| MergeCommon.FoldErrorPersists | Thesis_Data_Merger.py:182-216 | once a pass has raised, the run's outcome is that exception |
| MergeCommon.FoldOkIff | Thesis_Data_Merger.py:182-216 | a run succeeds exactly when no pass raises |
| MergeCommon.FoldFirstError | Thesis_Data_Merger.py:182-216 | a failed run fails with the exception of the first pass that raised |
| InflationMerge.InflationLabel | Thesis_Data_Merger.py:54-55 | the label of a file is `compute_target_period` of its year and quarter digits |
| InflationMerge.DropNa | Thesis_Data_Merger.py:53 | `dropna()` leaves only rows whose three cells are present |
| InflationMerge.DropNaKeeps | Thesis_Data_Merger.py:53 | every complete row survives `dropna()` |
| InflationMerge.DropNaSubset | Thesis_Data_Merger.py:53 | `dropna()` keeps only rows of its input |
| InflationMerge.KeepLabelComplete | Thesis_Data_Merger.py:53-58 | filtering complete rows by label leaves complete rows |
| InflationMerge.PointRecords | Thesis_Data_Merger.py:61 | complete rows become join records, in order, with their cells |
| InflationMerge.SectionRecordsKeeps | Thesis_Data_Merger.py:53-58 | a complete section row with the label becomes a join record |
| InflationMerge.SectionRecordsSound | Thesis_Data_Merger.py:53-58 | every join record comes from a complete section row with the label |
| InflationMerge.InflationContributesIff | Thesis_Data_Merger.py:42-61 | a file adds a block exactly when its HICP section is found and has the three columns, whatever the labels of its rows |
| InflationMerge.InflationStep | Thesis_Data_Merger.py:73-76 | a pass with no block leaves the accumulator unchanged; otherwise it appends its block at the end |
| InflationMerge.AccumulateInflation | Thesis_Data_Merger.py:33-76 | the loop, with each missing section or column skipped by `continue`, ends with the blocks of the processed files, in file order |
| InflationMerge.InflationRun | Thesis_Data_Merger.py:78-84 | the output is written exactly when the accumulator is not empty |
| InflationMerge.MergeInflation | Thesis_Data_Merger.py:31-84 | the whole merger computes the run |
| InflationMerge.ContributionShape | Thesis_Data_Merger.py:63-71 | a block has at least 150 rows, each with the file's label and an id in 1..150 |
| InflationMerge.ContributionKeeps | Thesis_Data_Merger.py:52-71 | every complete section row with the file's label and an id in 1..150 appears in the block with its POINT |
| InflationMerge.ContributionSound | Thesis_Data_Merger.py:52-71 | every POINT in the block comes from a section row with that id and the label |
| InflationMerge.InflationPanelSize | Thesis_Data_Merger.py:74 | the accumulator holds at least 150 rows per contributing file, and is empty exactly when no file contributes |
| InflationMerge.Labels | Thesis_Data_Merger.py:54-55 | the labels of the files, one per file, in order |
| InflationMerge.InflationPanelRows | Thesis_Data_Merger.py:74 | every accumulated row has an id in 1..150 and the label of one of the processed files |
| InflationMerge.InflationRunWritten | Thesis_Data_Merger.py:79-84 | the output is written exactly when some file contributes, and then it holds at least 150 rows per such file |
| InflationMerge.CountWherePositive | Thesis_Data_Merger.py:79 | a count of the files with a property is positive exactly when some file has it |
| InflationMerge.InflationRunWrittenIff | Thesis_Data_Merger.py:42-84 | the output is written exactly when some processed file has an HICP section with the three columns |
| GdpMerge.QuarterOfName | Thesis_Data_Merger.py:105 | `'Q' + quarter[:-4]` is a quarter key exactly when the name has ten characters, and is then the name's Q and digit |
| GdpMerge.GdpLongNameRaises | Thesis_Data_Merger.py:104-107 | a name longer than ten characters with one Q, such as `2021Q1.csv.bak`, raises `KeyError` |
| GdpMerge.GdpLabel | Thesis_Data_Merger.py:104-107 | fails only by the split or by an unknown quarter key; succeeds exactly when the name has ten characters, and then gives the GDP rule's label for the year and quarter in the name |
| GdpMerge.BlockPeriods | Thesis_Data_Merger.py:117-120 | the collected rows carry the label |
| GdpMerge.Append | Thesis_Data_Merger.py:139 | the accumulator after a block is the earlier rows, if any, followed by the block |
| GdpMerge.Contributions | Thesis_Data_Merger.py:99 | one pass result per processed file, in order |
| GdpMerge.GdpFile | Thesis_Data_Merger.py:100-139 | the loop body, with its scan and early exceptions, computes the pass function |
| GdpMerge.GdpStep | Thesis_Data_Merger.py:99-139 | one more file folds that file's pass result into the accumulator |
| GdpMerge.GdpErrorPersists | Thesis_Data_Merger.py:99-139 | once a file has raised, the outcome is that exception |
| GdpMerge.AccumulateGdp | Thesis_Data_Merger.py:97-139 | the loop computes the fold of the passes, stopping at the first exception |
| GdpMerge.GdpRun | Thesis_Data_Merger.py:141-147 | the outcome of a run: an exception, nothing written, or the rows written |
| GdpMerge.MergeGdp | Thesis_Data_Merger.py:86-147 | the whole merger computes the run |
| GdpMerge.GdpContributionShape | Thesis_Data_Merger.py:129-137 | a block has at least 150 rows, each with the file's label and an id in 1..150 |
| GdpMerge.GdpNothingIff | Thesis_Data_Merger.py:123 | a file adds no block exactly when none of its rows has the label |
| GdpMerge.GdpContributionKeeps | Thesis_Data_Merger.py:123-137 | every row of the collected block with an id in 1..150 appears with its columns |
| GdpMerge.GdpContributionAdded | Thesis_Data_Merger.py:123-137 | a block added is the join of the collected rows, whose sources are all present |
| GdpMerge.GdpContributionSound | Thesis_Data_Merger.py:135-137 | every payload in the block comes from a collected row with that id |
| GdpMerge.AddPanelWritten | Thesis_Data_Merger.py:139-142 | the accumulator is set exactly when some pass added a block, and its ids are in 1..150 |
| GdpMerge.ContributionsAll | Thesis_Data_Merger.py:123-139 | every block a pass adds is a full panel |
| GdpMerge.GdpRunOk | Thesis_Data_Merger.py:99-139 | a run succeeds exactly when no processed file raises |
| GdpMerge.GdpRunFirstError | Thesis_Data_Merger.py:99-139 | a failed run fails with the exception of the first file that raised |
| GdpMerge.GdpRunWritten | Thesis_Data_Merger.py:142-147 | the output is written exactly when some file adds a block; it then holds at least 150 rows with ids in 1..150 |
| UnemploymentMerge.UnemploymentLabel | Thesis_Data_Merger.py:187-191 | the label fails exactly when the split fails, and is otherwise the unemployment rule's label for the year and the digit after the Q |
| UnemploymentMerge.UnemploymentLongName | Thesis_Data_Merger.py:187-191 | a longer name that splits gets the label of its first ten characters |
| UnemploymentMerge.BlankToNaN | Thesis_Data_Merger.py:194 | `replace("", NaN)` turns exactly the empty TARGET_PERIOD cells into NaN |
| UnemploymentMerge.DropNaPeriod | Thesis_Data_Merger.py:197 | `dropna(subset=['TARGET_PERIOD'])` leaves only rows with a TARGET_PERIOD |
| UnemploymentMerge.BlankKeeps | Thesis_Data_Merger.py:194 | a row with a non-empty cell survives the replace |
| UnemploymentMerge.BlankSubset | Thesis_Data_Merger.py:194 | a row with a cell after the replace was a row before |
| UnemploymentMerge.DropNaPeriodKeeps | Thesis_Data_Merger.py:197 | every row with a TARGET_PERIOD survives `dropna` |
| UnemploymentMerge.DropNaPeriodSubset | Thesis_Data_Merger.py:197 | `dropna` keeps only rows of its input |
| UnemploymentMerge.TargetRowsSpec | Thesis_Data_Merger.py:194-200 | a row is kept exactly when it is a row of the file whose cell passes `^label$` |
| UnemploymentMerge.Contributions | Thesis_Data_Merger.py:182 | one pass result per processed file, in order |
| UnemploymentMerge.UnemploymentStops | Thesis_Data_Merger.py:182-216 | a file whose pass raises, after files that did not, ends the run with that exception |
| UnemploymentMerge.UnemploymentStep | Thesis_Data_Merger.py:216 | one more file folds that file's block into the accumulator |
| UnemploymentMerge.AccumulateUnemployment | Thesis_Data_Merger.py:180-216 | the loop, with the source's four raising checks in its body, computes the fold of the passes, stopping at the first exception |
| UnemploymentMerge.UnemploymentRun | Thesis_Data_Merger.py:218-222 | the outcome of a run: an exception, nothing written, or the rows written |
| UnemploymentMerge.MergeUnemployment | Thesis_Data_Merger.py:178-222 | the whole merger computes the run |
| UnemploymentMerge.UnemploymentAdded | Thesis_Data_Merger.py:193-213 | a successful pass had both columns and present sources, and adds the join of the filtered rows |
| UnemploymentMerge.UnemploymentShape | Thesis_Data_Merger.py:205-213 | every pass that succeeds adds at least 150 rows, all with the label and ids in 1..150, even when no row matches |
| UnemploymentMerge.UnemploymentExact | Thesis_Data_Merger.py:205-213 | with unique filtered ids the block is exactly 150 rows; row j is id j+1 with its payload or none |
| UnemploymentMerge.UnemploymentKeeps | Thesis_Data_Merger.py:200-213 | every row of the file with the label and an id in 1..150 appears in the block with its columns |
| UnemploymentMerge.UnemploymentSound | Thesis_Data_Merger.py:200-213 | every payload in the block comes from a row of the file with that id and the label |
| UnemploymentMerge.ConcatBlocks | Thesis_Data_Merger.py:216 | blocks of 150 rows are concatenated in file order: row 150k+j is row j of the k-th block |
| UnemploymentMerge.ConcatLength | Thesis_Data_Merger.py:216 | the accumulator holds at least 150 rows per pass |
| UnemploymentMerge.UnemploymentRunOk | Thesis_Data_Merger.py:182-216 | a run succeeds exactly when no processed file raises |
| UnemploymentMerge.UnemploymentRunFirstError | Thesis_Data_Merger.py:182-216 | a failed run fails with the exception of the first file that raised |
| UnemploymentMerge.UnemploymentRunWritten | Thesis_Data_Merger.py:218-222 | a successful run writes its output exactly when some file was selected, with at least 150 rows per file |
| UnemploymentMerge.UnemploymentPanelBlocks | Thesis_Data_Merger.py:182-216 | with 150-row blocks, the accumulator is 150 rows per file, in file order |

## Left out

- File and console I/O are left out: `os.listdir`, `open`, `pd.read_csv`,
  `to_csv` and `print`. Listings and file contents are parameters, and writing
  the output is the `Output` value.
- The observed-value mergers are left out (`merge_*_ECB_Eurostat` and
  `merge_unemployment_datasets_SPF_Eurostat`). They are merge, rename and drop
  calls on hard-coded column names with no rule of their own.
- The `__main__` block and its hard-coded paths are left out.
- POINT values and the other columns are an opaque payload; no arithmetic is
  done on them.
- Type coercion is reduced to present or absent. An FCT_SOURCE cell is an
  integer or NaN; `astype(int)` of a non-integral float and pandas dtypes are
  not modelled.
- In the unemployment merger, `replace("", NaN)` is modelled on the
  TARGET_PERIOD column only, since that is the only column the model inspects.
- `.str.contains` on a column that is not of string type is not modelled; cells
  are strings or NaN.
- Regex `\d` is ASCII digits only. Python's `\d` also matches other Unicode
  decimal digits, which `int()` would then read.
- `int()` is modelled on digit strings only. Python also accepts a sign,
  surrounding whitespace and underscores, none of which the file-name filter
  lets through.
- Periods.UnemploymentIsTenMonthsAfterQuarterStart: requires a canonical year
  text (no leading zero). For Q1 the label copies the year text, so with
  leading zeros it differs from the calendar offset's `str(...)`.
- Periods.UnemploymentRuleInjective: requires canonical year texts, for the
  same reason.
- Periods.InflationRuleInjective: concludes that the year values are equal,
  not the year texts, because `int()` forgets leading zeros.
- Periods.GdpRuleInjective: concludes that the year values are equal, not the
  year texts, for the same reason.
