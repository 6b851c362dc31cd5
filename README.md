# Time-series visualisation and extrapolation of project snapshots

This project models the analysis core of the best-of-atomistic-machine-learning
repository in Dafny. A history directory holds one CSV snapshot per day,
named `YYYY-MM-DD_projects.csv`, with one row per project. Two classes read it:

- `TimeSeriesVisualizer` locates snapshots, aggregates one metric per snapshot
  over caller-defined label groups, builds a dense date × group table, and
  normalises rows to percentages before plotting.
- `TimeSeriesExtrapolator` locates snapshots too. It also records the earliest
  and latest snapshot date and collects project keys `(name, homepage)` with
  the earliest creation date. It then copies the sampled snapshots into a
  working directory and reconciles it. Pass 1 finds each project's first
  appearance. Pass 2 gives every file the category and labels of that first
  appearance.

Files and directories are in-memory values:

- A directory listing is a sequence of `DirEntry(name, table)`.
- A table is a set of columns plus a sequence of rows.
- A row maps column names to cells `Missing | Text | Number | Items`.
- The extrapolation directory is a map from date to table.

The module layout follows the program:

- `Calendar`: dates and the file-name convention.
- `Locator`: the `_find_csv_files` routine both classes share.
- `Labels`: tolerant label parsing and category merge.
- `Aggregation`: `_aggregate_by_label`.
- `Visualizer`: `process_data` and the `TimeSeriesVisualizer` class.
- `Normalization`: plot arithmetic.
- `Reconciliation`: the two passes of `clean_up_original_data`.
- `Extrapolator`: the `TimeSeriesExtrapolator` class and
  `create_extrapolation_directory`.

Loops and field updates are methods proved against specification
functions. The properties the program promises are lemmas about those
functions.

Where the code and the documented design differ, the model follows the code.
- A metric cell that `float()` cannot convert makes it raise. `_aggregate_by_label`
  does not catch this, so the model returns `Err(MetricNotNumeric)`. In a metric
  column, a `Text` or `Items` cell stands for such a value; a numeric string or
  a bool that `float()` accepts is represented as a `Number` cell (see
  "## Left out").
- "median" divides the sum by the count, exactly like "mean" (`MedianIsMean`).
- The table `process_data` builds has object-dtype columns, so normalising
  divides Python floats cell by cell: a row with a zero total, such as a date
  whose aggregate lacks every group or a row like [5, -5], makes `plot` raise
  `ZeroDivisionError` (`ZeroRowFails`, `MixedSignRow`).
- When a key occurs twice in one file, pass 2 rewrites only its last row,
  because `existing_projects[key] = idx` keeps the last index. Two rows of one
  key in the same file can therefore still disagree (`DuplicateRowKeepsCategory`).
- Discovery accepts any name that ends in the pattern, such as
  `v2_2024-01-01_projects.csv`. Clean-up only opens the canonical name of each
  date, so such a file is copied but never reconciled (`WorkingSetOf`).

## Model

| member | source | states |
|---|---|---|
| `Calendar.DaysInMonth` | src/analysis/timeseries_visualization.py:86 | month length is 28 to 31, and 29 exactly for February of a leap year (the calendar `strptime` checks) |
| `Calendar.DateField` | src/analysis/timeseries_visualization.py:122-125 | a captured field always has the `DDDD-DD-DD` shape of the regular expression |
| `Calendar.ExtractDate` | src/analysis/timeseries_visualization.py:122-132 | a date is returned only for a name ending in the pattern, and it is always a valid calendar date |
| `Calendar.FormatDate` | src/analysis/timeseries_extrapolation.py:83 | `strftime('%Y-%m-%d')` of a valid date has the `DDDD-DD-DD` shape |
| `Calendar.ExtractDateOfFields` | src/analysis/timeseries_visualization.py:122-132 | `YYYY-MM-DD_projects.csv` gives that date exactly when the fields form a calendar date, and gives None otherwise |
| `Calendar.FileNameRoundTrip` | src/analysis/timeseries_extrapolation.py:83 | parsing the canonical file name of a date gives the date back |
| `Calendar.FileNameInjective` | src/analysis/timeseries_extrapolation.py:83-84 | distinct dates have distinct canonical file names |
| `Calendar.ExtractDateIgnoresPrefix` | src/analysis/timeseries_visualization.py:123 | any directory part or other prefix before the last 24 characters leaves the extracted date unchanged (`$`-anchored `search` on the basename) |
| `Calendar.LeapDayRule` | src/analysis/timeseries_visualization.py:128 | 29 February is a valid date exactly in leap years |
| `Calendar.LeapDayExamples` | src/analysis/timeseries_visualization.py:126-130 | `2024-02-29` parses; `2023-02-29` gives None |
| `Calendar.CenturyExamples` | src/analysis/timeseries_visualization.py:126-130 | `1900-02-29` gives None; `2000-02-29` parses |
| `Calendar.OutOfRangeExamples` | src/analysis/timeseries_visualization.py:126-130 | month 13 and 31 April give None |
| `Calendar.ZeroFieldExamples` | src/analysis/timeseries_visualization.py:126-130 | day 0 and year 0 give None |
| `Calendar.NonMatchingExamples` | src/analysis/timeseries_visualization.py:77-83 | a `.bak` suffix and a one-digit month do not match the pattern |
| `Locator.Names` | src/analysis/timeseries_visualization.py:104 | the paths of a file list, one per file in order (what `not in sampled_files` compares against) |
| `Locator.Dates` | src/analysis/timeseries_extrapolation.py:239 | the dates of a file list, one per file in order |
| `Locator.Matching` | src/analysis/timeseries_visualization.py:80-89 | discovery keeps at most the listed entries, and every kept file's name parses to its date |
| `Locator.MatchingExactly` | src/analysis/timeseries_visualization.py:80-89 | a file is discovered exactly when it is a listed entry whose name parses to its date; non-matching names are never discovered |
| `Locator.MatchingDistinct` | src/analysis/timeseries_visualization.py:81-87 | distinct names in the listing stay distinct among the discovered files |
| `Locator.Insert` | src/analysis/timeseries_visualization.py:92 | stable insertion adds exactly one file |
| `Locator.InsertPermutes` | src/analysis/timeseries_visualization.py:92 | insertion adds the file and keeps every other one (a multiset equality) |
| `Locator.InsertAscending` | src/analysis/timeseries_visualization.py:92 | inserting into a date-ascending list keeps it date-ascending |
| `Locator.AscendingCons` | src/analysis/timeseries_visualization.py:92 | a file no later than every file of an ascending list can go in front of it |
| `Locator.SortByDate` | src/analysis/timeseries_visualization.py:92 | the sort keeps the number of files |
| `Locator.SortByDatePermutes` | src/analysis/timeseries_visualization.py:92 | the sort is a permutation of its input |
| `Locator.SortByDateAscending` | src/analysis/timeseries_visualization.py:92 | the sorted list is in date order |
| `Locator.SortKeepsDistinct` | src/analysis/timeseries_visualization.py:92 | sorting keeps file names distinct |
| `Locator.InsertKeepsDistinct` | src/analysis/timeseries_visualization.py:92 | inserting a file with a new name keeps names distinct |
| `Locator.SortedMembers` | src/analysis/timeseries_visualization.py:92 | a file is in the sorted list exactly when it is in the input |
| `Locator.SortedEnds` | src/analysis/timeseries_extrapolation.py:210-215 | the first and last sorted files are input files whose dates bound every input file's date |
| `Locator.StrideAt` | src/analysis/timeseries_visualization.py:100-101 | `range(i, n - 1, k)`: the m-th element taken is `s[i + m*k]`, and it exists exactly when that index is below the last one |
| `Locator.StrideFrom` | src/analysis/timeseries_visualization.py:100-101 | every stride element is an element at an index from `i` up to, but not including, the last |
| `Locator.StrideAscending` | src/analysis/timeseries_visualization.py:100-101 | a stride of a date-ascending list is date-ascending |
| `Locator.SampledFromAll` | src/analysis/timeseries_visualization.py:95-110 | sampling only takes files from the sorted list |
| `Locator.SampledShape` | src/analysis/timeseries_visualization.py:95-107 | with stride > 1, more than two files and distinct names, the sample is the first file, the files at 1, 1+k, 1+2k, … below n−1, then the last file |
| `Locator.SampledAscending` | src/analysis/timeseries_visualization.py:95-110 | sampling a date-ascending list gives a date-ascending list |
| `Locator.SampledEnds` | src/analysis/timeseries_visualization.py:95-110 | with distinct names, the sample of a non-empty list starts with its first file and ends with its last |
| `Locator.SampledFiles` | src/analysis/timeseries_visualization.py:95-110 | for a sorted list with distinct names: stride ≤ 1 or at most two files returns every file; otherwise the sample is an ascending list from the first file to the last |
| `Locator.Discover` | src/analysis/timeseries_visualization.py:80-89 | the listing loop returns exactly the discovered files in listing order |
| `Locator.Sample` | src/analysis/timeseries_visualization.py:95-110 | the sampling loop, including the `not in sampled_files` check, returns the specified sample |
| `Locator.Locate` | src/analysis/timeseries_visualization.py:77-110 | the whole routine: every discovered file sorted by date, and the sample of that list |
| `Locator.LocatedDistinct` | src/analysis/timeseries_visualization.py:80-92 | with a listing of unique names, the sorted discovered files have distinct names |
| `Labels.TrimLeft` | src/analysis/timeseries_visualization.py:230 | removes exactly the leading whitespace: the result is a suffix that does not start with whitespace, and everything cut off is whitespace |
| `Labels.TrimRight` | src/analysis/timeseries_visualization.py:230 | removes exactly the trailing whitespace |
| `Labels.StripSpec` | src/analysis/timeseries_visualization.py:230 | `str.strip()` returns a slice of the input with whitespace at neither end, cuts off only whitespace, and leaves a stripped string alone |
| `Labels.StripIdempotent` | src/analysis/timeseries_visualization.py:241 | stripping twice is stripping once |
| `Labels.Split` | src/analysis/timeseries_visualization.py:230 | `str.split(',')` gives at least one piece, and no piece contains the separator |
| `Labels.JoinSplit` | src/analysis/timeseries_visualization.py:230 | joining the pieces of a split with the separator gives the string back |
| `Labels.SplitJoin` | src/analysis/timeseries_visualization.py:230 | splitting a join of separator-free pieces gives the pieces back |
| `Labels.SplitNoSep` | src/analysis/timeseries_visualization.py:230 | a string without the separator splits into itself |
| `Labels.SplitPrefix` | src/analysis/timeseries_visualization.py:230 | a separator-free piece followed by the separator splits off as the first piece |
| `Labels.CommaLabels` | src/analysis/timeseries_visualization.py:230 | the comma form gives one label per comma-separated piece, each one stripped |
| `Labels.CommaLabelsOfJoin` | src/analysis/timeseries_visualization.py:229-230 | a comma-joined list of stripped, comma-free labels reads back as exactly that list |
| `Labels.SkipBlanks` | src/analysis/timeseries_visualization.py:227 | skips exactly the leading blanks between literal tokens |
| `Labels.PlainRun` | src/analysis/timeseries_visualization.py:227 | the length of the longest run of characters allowed unescaped inside the literal |
| `Labels.QuotedItem` | src/analysis/timeseries_visualization.py:227 | reading a string literal consumes input |
| `Labels.QuoteToken` | src/analysis/timeseries_visualization.py:227 | a quoted printable label reads back as that label, followed by the rest |
| `Labels.PlainRunStops` | src/analysis/timeseries_visualization.py:227 | the plain run of a printable label stops at its closing quote |
| `Labels.ListItemsBlank` | src/analysis/timeseries_visualization.py:227 | a blank before an item does not change the items read |
| `Labels.ListItemsCons` | src/analysis/timeseries_visualization.py:227 | a quoted label followed by `, ` and more items reads as that label in front of the items |
| `Labels.ListItemsSingle` | src/analysis/timeseries_visualization.py:227 | a single quoted label reads as a one-element list |
| `Labels.ListItemsRender` | src/analysis/timeseries_visualization.py:227 | the comma-separated quoted labels read back as the labels |
| `Labels.ParseRender` | src/analysis/timeseries_visualization.py:225-227 | the single-quoted list literal of labels that need no escape is bracketed, and parsing it gives the labels back (round trip) |
| `Labels.CellLabelsOfRender` | src/analysis/timeseries_visualization.py:224-227 | a `labels` cell holding a rendered list reads as that list |
| `Labels.WithCategory` | src/analysis/timeseries_visualization.py:237-243 | the merge leaves the labels alone or appends only the stripped text category |
| `Labels.WithCategorySpec` | src/analysis/timeseries_visualization.py:237-243 | the merged labels are the old labels plus the stripped category exactly when it is non-empty; the old labels keep their places, and no duplicate is introduced |
| `Labels.WithCategoryNonText` | src/analysis/timeseries_visualization.py:238-239 | a category cell that is not a string leaves the labels alone |
| `Labels.SkippedCells` | src/analysis/timeseries_visualization.py:218-219 | a missing, empty or non-string, non-list `labels` cell makes the row skipped |
| `Aggregation.Aggregate` | src/analysis/timeseries_visualization.py:205 | the result has exactly the groups as keys |
| `Aggregation.AggregateSpec` | src/analysis/timeseries_visualization.py:195-307 | a missing `labels` or metric column gives `{}`; a non-empty result has exactly the groups as keys; a failure is a non-numeric metric on a row some group takes |
| `Aggregation.DropNa` | src/analysis/timeseries_visualization.py:213 | keeps exactly the rows whose metric is present, and no more rows than there were |
| `Aggregation.DropNaKeeps` | src/analysis/timeseries_visualization.py:213 | dropping rows with a missing metric changes no group sum, no count and no failure |
| `Aggregation.AggregateDropNa` | src/analysis/timeseries_visualization.py:213 | dropping those rows leaves the result dictionary and the failure condition as they are |
| `Aggregation.AnyBadSnoc` | src/analysis/timeseries_visualization.py:216-257 | a list has a failing row exactly when its prefix does or its last row fails |
| `Aggregation.SumByGroup` | src/analysis/timeseries_visualization.py:216-257 | the summing loop succeeds exactly when no row makes `float()` fail; then each group's entry is the sum of the metric over its matching rows |
| `Aggregation.AddRow` | src/analysis/timeseries_visualization.py:248-257 | one row adds its metric once to every group it matches, fails exactly when its metric is not numeric and some group takes it, and keeps the group keys |
| `Aggregation.CountByGroup` | src/analysis/timeseries_visualization.py:262-295 | the counting loop gives each group the number of its matching rows |
| `Aggregation.DivisionStep` | src/analysis/timeseries_visualization.py:297-305 | dividing the sums by positive counts for "mean"/"median", or keeping the sums otherwise, gives the result dictionary |
| `Aggregation.AggregateByLabel` | src/analysis/timeseries_visualization.py:175-307 | the method returns exactly what the specification says: `{}`, the failure, or the per-group value |
| `Aggregation.SumAppend` | src/analysis/timeseries_visualization.py:216-257 | group sums and counts add up over a concatenation of row lists |
| `Aggregation.SumRemove` | src/analysis/timeseries_visualization.py:216-257 | removing one row removes its share from the sum and the count |
| `Aggregation.RemoveMatching` | src/analysis/timeseries_visualization.py:216 | removing matching elements from two permutations leaves permutations |
| `Aggregation.SumPermutation` | src/analysis/timeseries_visualization.py:216-257 | group sum and count do not depend on the order of the rows |
| `Aggregation.CountOfAllMatching` | src/analysis/timeseries_visualization.py:249-257 | a row adds to a group once however many of its labels match: when every row matches, the count is the number of rows |
| `Aggregation.MedianIsMean` | src/analysis/timeseries_visualization.py:300-305 | "median" gives exactly the same result as "mean" |
| `Aggregation.OwnNameGroup` | src/analysis/timeseries_visualization.py:250-257 | a group mapped to None matches exactly like a group listing only its own name |
| `Aggregation.UnlabelledRowIgnored` | src/analysis/timeseries_visualization.py:218-219 | a row with a missing or empty `labels` cell adds to no group sum or count, whatever its category |
| `Aggregation.RowStep` | src/analysis/timeseries_visualization.py:249-257 | one more row adds its metric to a group's sum and one to its count exactly when it matches the group |
| `Aggregation.SumAndCountExample` | src/analysis/timeseries_visualization.py:249-257 | two "ml" rows with metrics 5 and 3 and a "dft" row with 7: the "ml" sum is 8 and its count 2 |
| `Aggregation.MeanExample` | src/analysis/timeseries_visualization.py:260-301 | the same rows give an "ml" mean of 4 |
| `Visualizer.GroupsOf` | src/analysis/timeseries_visualization.py:332-335 | a list of labels becomes one group per label, each mapped to None; a map is used as given |
| `Visualizer.Outcomes` | src/analysis/timeseries_visualization.py:346-368 | one outcome per sampled file, in order |
| `Visualizer.CollectKeys` | src/analysis/timeseries_visualization.py:345-368 | the collected dates are exactly the dates some file was stored under |
| `Visualizer.CollectValue` | src/analysis/timeseries_visualization.py:345-368 | each collected value is the result of the last file stored under that date; no later file stores that date |
| `Visualizer.CollectStep` | src/analysis/timeseries_visualization.py:346-368 | one more file: a failure stays a failure, a skipped file changes nothing, a stored result replaces the date's entry |
| `Visualizer.ErrStays` | src/analysis/timeseries_visualization.py:365 | once a file's aggregation raises, the whole loop fails with that error |
| `Visualizer.DataByDateSpec` | src/analysis/timeseries_visualization.py:345-368 | `data_by_date` holds a date exactly when some file with that date and a non-empty table was used, and its value is the aggregate of the last such file, since later files overwrite earlier ones |
| `Visualizer.DataByDateValues` | src/analysis/timeseries_visualization.py:365-368 | every stored dictionary is empty or has exactly the groups as keys |
| `Visualizer.AllLabelsAreGroups` | src/analysis/timeseries_visualization.py:372 | the union of the result keys is empty or exactly the groups |
| `Visualizer.EarliestExists` | src/analysis/timeseries_visualization.py:371 | a non-empty set of dates has an earliest element |
| `Visualizer.SortedDates` | src/analysis/timeseries_visualization.py:371 | `sorted(keys)`: the dates strictly ascending, each key exactly once |
| `Visualizer.ListOfSet` | src/analysis/timeseries_visualization.py:375 | `list(all_labels)`: each label exactly once |
| `Visualizer.BuildSeriesTable` | src/analysis/timeseries_visualization.py:371-382 | rows are the sorted dates, columns every label of any date, and every cell is the date's value or 0.0 |
| `Visualizer.TimeSeriesVisualizer.constructor` | src/analysis/timeseries_visualization.py:62-64 | no files, no table and no labels yet |
| `Visualizer.TimeSeriesVisualizer.FindCsvFiles` | src/analysis/timeseries_visualization.py:66-110 | the located snapshots in date order, sampled with the stride |
| `Visualizer.TimeSeriesVisualizer.ProcessData` | src/analysis/timeseries_visualization.py:309-388 | no labels raises and changes nothing; no files raises; a failing file propagates its error; otherwise the stored table tabulates `data_by_date`, and the stored labels are its keys |
| `Visualizer.AggregateFiles` | src/analysis/timeseries_visualization.py:344-368 | the file loop computes `data_by_date`, or the first error |
| `Visualizer.AggregateFile` | src/analysis/timeseries_visualization.py:347-365 | a file with no date or an empty table is skipped; any other file is aggregated under its date |
| `Visualizer.LocatedFilesCarryDates` | src/analysis/timeseries_visualization.py:348-351 | every located file's name gives back its date, so the date check in the loop never skips a located file |
| `Normalization.NormalizedRow` | src/analysis/timeseries_visualization.py:445-448 | a row fails exactly when it has a cell and a zero total; otherwise each cell times the total is the row value times 100 |
| `Normalization.Normalize` | src/analysis/timeseries_visualization.py:443-448 | the column loop raises exactly when some row total is zero with a column to divide, and otherwise gives each row's percentages |
| `Normalization.DivAdd` | src/analysis/timeseries_visualization.py:448 | the percentage of a sum is the sum of the percentages |
| `Normalization.SumOfPercentages` | src/analysis/timeseries_visualization.py:445-448 | the percentages of a row add up to its total / t × 100 |
| `Normalization.PercentagesAddUpTo100` | src/analysis/timeseries_visualization.py:445-448 | a row with a non-zero total normalises, and its percentages sum to 100 |
| `Normalization.ZeroSumOfNonNegative` | src/analysis/timeseries_visualization.py:445 | a total of non-negative values is non-negative, and zero exactly when every value is zero |
| `Normalization.ZeroRowFails` | src/analysis/timeseries_visualization.py:445-448 | a non-empty non-negative row fails to normalise exactly when all its values are zero |
| `Normalization.MixedSignRow` | src/analysis/timeseries_visualization.py:445-448 | the row [5, -5] has total 0, so normalising it fails too |
| `Reconciliation.InsertDate` | src/analysis/timeseries_extrapolation.py:82 | inserting a date adds it and keeps the others |
| `Reconciliation.SortDates` | src/analysis/timeseries_extrapolation.py:82 | `sorted()` is a permutation of the dates |
| `Reconciliation.PrependAscending` | src/analysis/timeseries_extrapolation.py:82 | a date no later than the head of an ascending list can go in front of it |
| `Reconciliation.AscendingTail` | src/analysis/timeseries_extrapolation.py:82 | the tail of an ascending list is ascending, and no date in it is earlier than the head |
| `Reconciliation.InsertDateAscending` | src/analysis/timeseries_extrapolation.py:82 | insertion keeps dates ascending |
| `Reconciliation.SortDatesAscending` | src/analysis/timeseries_extrapolation.py:82 | `sorted()` gives ascending dates |
| `Reconciliation.SortDatesOfAscending` | src/analysis/timeseries_extrapolation.py:82 | dates already in order are left as they are |
| `Reconciliation.FirstRowExists` | src/analysis/timeseries_extrapolation.py:99-118 | a file that contains a key has a first row with it |
| `Reconciliation.FirstFileExists` | src/analysis/timeseries_extrapolation.py:82-118 | a key in some file has a first date whose file contains it |
| `Reconciliation.FirstInFileKeys` | src/analysis/timeseries_extrapolation.py:99-118 | a file adds exactly its keys and never changes an entry already present |
| `Reconciliation.FirstInFileAt` | src/analysis/timeseries_extrapolation.py:114-118 | a new key takes the date, category and labels of its first row in the file |
| `Reconciliation.Pass1Keys` | src/analysis/timeseries_extrapolation.py:82-118 | pass 1 holds exactly the keys of the existing files that have the required columns |
| `Reconciliation.Pass1At` | src/analysis/timeseries_extrapolation.py:82-118 | a key's entry comes from the first date whose file contains it, with the category and labels of its first row there |
| `Reconciliation.FirstAppearanceIsEarliest` | src/analysis/timeseries_extrapolation.py:82-118 | over ascending dates, the recorded date is no later than any date whose file contains the key, and its own file contains the key |
| `Reconciliation.ExistingIndexSpec` | src/analysis/timeseries_extrapolation.py:144-152 | `existing_projects` holds exactly the file's named keys, each at its last row |
| `Reconciliation.LastIsIndexed` | src/analysis/timeseries_extrapolation.py:152-158 | a row is a key's last exactly when the index holds the key at that row |
| `Reconciliation.OverwriteKeepsKey` | src/analysis/timeseries_extrapolation.py:162-163 | the overwrite keeps the key and every other column, and leaves nothing differing |
| `Reconciliation.Rewritten` | src/analysis/timeseries_extrapolation.py:156-164 | the rows after some keys are handled: one row per row |
| `Reconciliation.RewrittenNone` | src/analysis/timeseries_extrapolation.py:155 | with no key handled the rows are unchanged |
| `Reconciliation.RewrittenStep` | src/analysis/timeseries_extrapolation.py:156-164 | handling one more known key rewrites at most its indexed row, and only when its category or labels differ |
| `Reconciliation.ReconciledRows` | src/analysis/timeseries_extrapolation.py:154-164 | in one file, the last row of each known key carries its first-appearance category and labels; other columns, keys and rows are unchanged |
| `Reconciliation.ReconciledKeepsLast` | src/analysis/timeseries_extrapolation.py:152-164 | being a key's last row is the same before and after pass 2 |
| `Reconciliation.ReconciledIdempotent` | src/analysis/timeseries_extrapolation.py:160-164 | running pass 2 on a file twice changes nothing the second time |
| `Reconciliation.DuplicateRowKeepsCategory` | src/analysis/timeseries_extrapolation.py:152 | with two rows of one key in a file, only the last is rewritten, so the two can disagree |
| `Reconciliation.Changes` | src/analysis/timeseries_extrapolation.py:155-169 | a file is written back when it exists, has the columns, and some row changes |
| `Reconciliation.Pass2` | src/analysis/timeseries_extrapolation.py:127-169 | pass 2 never adds or removes a file, nor changes a file's columns |
| `Reconciliation.Pass2Step` | src/analysis/timeseries_extrapolation.py:127-169 | one more date: that file is replaced by its reconciled rows and counted exactly when it changes |
| `Reconciliation.Pass2Untouched` | src/analysis/timeseries_extrapolation.py:127-132 | a file whose date is not in the sequence is left alone |
| `Reconciliation.Pass2Reconciles` | src/analysis/timeseries_extrapolation.py:127-169 | every processable file of the sequence ends up holding its reconciled rows, whatever dates repeat |
| `Reconciliation.Pass2CountStep` | src/analysis/timeseries_extrapolation.py:166-169 | the last date adds one to the count exactly when it is new and its file changes |
| `Reconciliation.ChangedDatesStep` | src/analysis/timeseries_extrapolation.py:166-169 | the last date joins the changed files exactly when it is new and its file changes |
| `Reconciliation.Pass2Count` | src/analysis/timeseries_extrapolation.py:126-169 | `modified_files_count` is the number of distinct files that change |
| `Reconciliation.CleanedLastOccurrence` | src/analysis/timeseries_extrapolation.py:144-169 | after clean-up, a key's last row in any processable file carries the category and labels of its first appearance |
| `Reconciliation.ConsistentAcrossFiles` | scripts/timeseries_visualization/test_extrapolation.py:73-84 | after clean-up, a key's last rows in any two files show the same category and the same labels |
| `Reconciliation.CleanedUniqueKeys` | src/analysis/timeseries_extrapolation.py:144-164 | in a file with one row per key, every row of a key carries the key's first-appearance category and labels after clean-up |
| `Reconciliation.ConsistentUniqueKeys` | scripts/timeseries_visualization/test_extrapolation.py:73-84 | in files with one row per key, every occurrence of a key in any two files shows the same category and labels after clean-up |
| `Reconciliation.FindFirstAppearances` | src/analysis/timeseries_extrapolation.py:82-118 | the first loop computes pass 1 |
| `Reconciliation.IndexExisting` | src/analysis/timeseries_extrapolation.py:144-152 | the index loop computes `existing_projects` |
| `Reconciliation.ReconcileFile` | src/analysis/timeseries_extrapolation.py:154-164 | the update loop gives the reconciled rows, and `modified` holds exactly when they differ from the file's rows |
| `Reconciliation.EnsureConsistency` | src/analysis/timeseries_extrapolation.py:126-169 | the second loop computes pass 2 and the count of files written back |
| `Extrapolator.CollectKey` | src/analysis/timeseries_extrapolation.py:321-330 | a key exists exactly when the name is present and non-empty; the name is kept, and a missing homepage becomes `''` |
| `Extrapolator.RowKeysSpec` | src/analysis/timeseries_extrapolation.py:320-333 | the keys of a file are exactly the keys of its named rows |
| `Extrapolator.RowDatesSpec` | src/analysis/timeseries_extrapolation.py:335-345 | the creation dates of a file are exactly the parsed `created_at` of its named rows; unparsable values are skipped |
| `Extrapolator.FileKeysSpec` | src/analysis/timeseries_extrapolation.py:302-333 | the key set is the union over the non-empty files that have both key columns; other files contribute nothing |
| `Extrapolator.FileDatesSpec` | src/analysis/timeseries_extrapolation.py:302-345 | the creation dates are the union over the same files |
| `Extrapolator.LeastOf` | src/analysis/timeseries_extrapolation.py:351 | a non-empty set of instants has a least element |
| `Extrapolator.MinExists` | src/analysis/timeseries_extrapolation.py:351 | the same, as an existence statement |
| `Extrapolator.Min` | src/analysis/timeseries_extrapolation.py:351 | `min()` is an element no greater than any other |
| `Extrapolator.CollectFromRows` | src/analysis/timeseries_extrapolation.py:320-347 | the row loop collects exactly the file's keys and creation dates |
| `Extrapolator.CollectFromFiles` | src/analysis/timeseries_extrapolation.py:302-359 | the file loop collects the key set and the dates; the earliest date is their minimum, or None when none parsed |
| `Extrapolator.WorkingSetDates` | src/analysis/timeseries_extrapolation.py:83-87 | the working set holds a date exactly when a canonically named file of that date was copied |
| `Extrapolator.WorkingSetTable` | src/analysis/timeseries_extrapolation.py:393-397 | with distinct names, each canonically named copied file's table is found under its date |
| `Extrapolator.TimeSeriesExtrapolator.constructor` | src/analysis/timeseries_extrapolation.py:50-58 | empty file list, keys, dates and first appearances; no earliest or latest date |
| `Extrapolator.TimeSeriesExtrapolator.FindCsvFiles` | src/analysis/timeseries_extrapolation.py:182-239 | the sample and its dates index by index; the earliest and latest dates of all located files are recorded, and only when some file exists |
| `Extrapolator.TimeSeriesExtrapolator.CollectProjectKeysAndDates` | src/analysis/timeseries_extrapolation.py:280-361 | stores the sample; no file raises; otherwise the keys and dates are those of the usable files, and the earliest date is their minimum or None |
| `Extrapolator.TimeSeriesExtrapolator.StoreFiles` | src/analysis/timeseries_extrapolation.py:291 | records the sampled files and their dates |
| `Extrapolator.TimeSeriesExtrapolator.StoreCollected` | src/analysis/timeseries_extrapolation.py:298-359 | records the keys, the creation dates and the earliest of them |
| `Extrapolator.TimeSeriesExtrapolator.CleanUpOriginalData` | src/analysis/timeseries_extrapolation.py:60-180 | no extrapolation directory returns `{}` and changes nothing; otherwise pass 1 over the sorted dates is stored and returned, and the directory becomes the result of pass 2 with its count |
| `Extrapolator.CreateExtrapolationDirectory` | src/analysis/timeseries_extrapolation.py:364-404 | no file raises; otherwise the directory is the sampled copy after both passes, returned with the date sequence |
| `Extrapolator.CsvDateRange` | src/analysis/timeseries_extrapolation.py:210-215 | the recorded earliest and latest dates are the least and greatest dates of all located files, whatever the stride |
| `Extrapolator.DateSequenceAscending` | src/analysis/timeseries_extrapolation.py:221-239 | the date sequence is ascending, so clean-up's `sorted()` leaves it unchanged, and it pairs with the file list index by index |
| `Extrapolator.CreatedDirectoryConsistent` | scripts/timeseries_visualization/test_extrapolation.py:73-84 | after `create_extrapolation_directory`, a key's last rows in any two files show the same category and labels |

## Left out

- File-system calls are left out: `os.listdir`, `pd.read_csv`, `to_csv`,
  `os.path.exists`, `shutil.rmtree`, `copy2` and `makedirs`. A directory is a
  value, and copying files is identity.
- The YAML label loading (`load_labels_from_yaml`) is left out: it is a foreign
  parser and aggregation never uses it.
- Plot rendering (matplotlib, seaborn), `save_data` and logging are left out.
  Only the normalisation arithmetic of `plot` is modelled.
- `eval` of a bracketed labels string is modelled as a parser for lists of
  single- or double-quoted string literals. Any other literal `eval` would
  accept, such as escapes or nested lists, skips the row.
- `datetime.fromisoformat` is the parameter `parse: string -> Option<int>`, and
  instants are integers. A non-string `created_at` that `pd.read_csv` yields
  (a number or a bool) is treated as unparsable and dropped, while the source
  keeps a truthy one unconverted (see Extrapolator.CreatedAt below).
- Floating point: metrics are `real`. Rounding is not modelled.
- The `fillna(0).astype(float)` at timeseries_visualization.py:460 is not modelled: every cell of the
  table is a number, and a zero row total raises before any NaN can arise, so
  it changes no value.
- pandas comparison quirks are not modelled: NaN `!=` NaN at line 161 and the
  equality of NaN cells. Cells compare structurally.
- The `except Exception` blocks around each file in clean-up are not modelled.
  The model reads no file that can fail to parse.
- The synthesis phase (`prepare_extrapolation_files`) is not part of this model,
  and neither are the print-only `test_*` helpers.
- The duplicate-name warning in `process_data` (lines 359-362) only logs, so it
  is left out.
- `all_project_data` in clean-up is filled but never read, so it is left out.
- Visualizer.ListOfSet: the order of `list(all_labels)` is Python's set
  iteration order. The model promises each label exactly once, in no
  particular order.
- AggregateSpec: `float()` also accepts numeric strings (`"5"`, `" 1e3 "`,
  `"inf"`) and bools. The model does not parse strings as floats. It assumes
  that a metric value `float()` accepts is already a `Number` cell. It fails on
  every `Text` or `Items` metric of a row that some group takes. A table in
  which pandas left a numeric string is therefore outside the model.
- SumByGroup: its failure condition is `BadRow`, which counts every non-`Number`
  metric as one `float()` rejects, for the reason given under AggregateSpec.
- AddRow: fails on every non-`Number` metric of a taken row, for the reason
  given under AggregateSpec.
- AggregateByLabel: equals AggregateSpec, so it has the same gap for numeric
  strings and bools.
- ConsistentAcrossFiles, CreatedDirectoryConsistent: the clean-up is meant to
  make every occurrence of a key agree. Pass 2 rewrites only the last row of a
  key in each file, so these lemmas state agreement for last rows only.
  `CleanedUniqueKeys` and `ConsistentUniqueKeys` state it for every row when
  each file has one row per key. `DuplicateRowKeepsCategory` shows two rows of
  one file that still disagree.
- Calendar.IsDigit: `\d` in the file-name pattern and `strptime` accept any
  Unicode decimal digit. The model accepts ASCII digits only, so a name written
  with, say, Arabic-Indic digits gives a date in the program and none here.
- Extrapolator.Min: `min(self.created_dates)` raises `TypeError` when naive and
  timezone-aware datetimes mix, for example `2020-01-01` and
  `2020-01-01T00:00:00Z`. The model's instants are integers, so this error is
  not modelled.
- AggregateSpec, AggregateByLabel, Labels.WithCategoryNonText: a list-valued
  cell is modelled as `Items`. At timeseries_visualization.py:218, `pd.isna` of a `labels` list of two
  or more items returns an array, and its truth test raises an uncaught
  `ValueError` out of `_aggregate_by_label`. The model aggregates such a row.
  At line 238 the same happens to a list `category` inside the `try`, so the
  source skips the row, while `WithCategory` keeps it with its labels. Neither
  case reaches the program from a file: `pd.read_csv` never produces a list
  cell.
- Extrapolator.CreatedAt: `pd.read_csv` can yield a number or a bool in
  `created_at`. timeseries_extrapolation.py:337-345 adds a truthy one to `created_dates` unconverted,
  and `min` at line 351 then returns it or raises `TypeError` against the
  datetimes. The model drops every non-string value, so `RowDatesSpec`,
  `CollectFromRows` and the minimum leave out values that the source keeps.
- Labels.PlainChar: `eval` raises on a string that holds a NUL character, and
  the row is then skipped. The model's list-literal parser accepts NUL inside a
  quoted label, so it reads such a row.
- Locator.SortByDate: the sort is stable like `list.sort`, so files with equal
  dates keep their listing order. The model computes this but does not state
  it as a property: the order comes from `os.listdir`, which is a parameter
  here. Its own contract states only the length; the lemmas
  `SortByDatePermutes` and `SortByDateAscending` state the permutation and the
  date order.
