# Wikidemics feasibility study: the analysis core of `make_figures.py`

This project models the analysis core of the script that produced the
figures of the 2014 PLOS Computational Biology Wikidemics feasibility
study. The model is written in Dafny 4.11 and its properties are proved
by the verifier.

The script reads two tables:

- hourly Wikipedia access counts, one column per `project-article` and one
  per project total;
- official disease incidence (the ground truth), one value per date.

It then does the following:

1. It buckets the access counts into days.
2. It aggregates each article's daily counts over the windows between
   consecutive ground-truth dates.
3. It divides each window's article count by the project's total count in
   the same window.
4. It correlates each normalised series with the ground truth and keeps
   the ten articles with the largest absolute correlation.
5. For each offset from -28 to 28 days, it builds a least-squares design
   from those ten articles' shifted series.
6. It plots the resulting R² values against the offset.

The model is split into these modules, one file each:

| file | module | what it holds |
|---|---|---|
| `wrappers.dfy` | `Wrappers` | `Option` and `Result`; Python exceptions become `Err` values |
| `ordered_map.dfy` | `OrderedMaps` | `OrderedDict` as a key sequence plus a map |
| `headers.dfy` | `Headers` | `header.split('-')`, joining the article parts, and the column routing of line 120 |
| `loading.dfy` | `Loading` | the header loop, the row loop, and the ground-truth loader |
| `normalization.dfy` | `Normalization` | `get_date_normalized_wiki_count` and its window walk |
| `ranking.dfy` | `Ranking` | the correlation loop and the top ten by magnitude |
| `lag_scan.dfy` | `LagScan` | the lagged regression scan, the transposition, and the R² plot order |

Conventions:

- A calendar date is an `int` day number, and a timestamp is a day plus a
  second of that day.
- The script imports `division` from `__future__`, so a window's ratio is
  true division. It is modelled as `real`.
- A daily map is a `map<Day, int>`, and the nested dictionary
  project → article → date is keyed by the pair (project, article).
- Every `KeyError`, `StopIteration` and `ValueError` the script can raise
  in the modelled code is an `Err` case with its own constructor
  (`LoadError`, `NormalizeError`).
- The loops of the script are `method`s with loop invariants. Most are
  proved equal to a recursive specification function (`AddRows`,
  `Walked`, `Correlations`, `DesignAt`, `ScanUpTo`), and the properties
  are lemmas about those functions. Two are specified by their
  postconditions instead: the header loop `Loading.IndexColumns`
  establishes the predicate `IndexedFrom`, and the ground-truth loop
  `Loading.LoadGroundTruth` states its result directly.

Two behaviours of the code are proved and worth knowing:

- A header that ends in a hyphen, such as `en-`, names the article "" (`Headers.TrailingHyphenRoutesToTotal`). The `if article:` test on line 120 sends its values to the project total, so that pair's daily map stays empty (`Loading.EmptyArticleUntouched`). The ranking loop still enumerates the pair, and normalising it raises `StopIteration`, which stops the script (`Ranking.EmptyArticleStopsRanking`).
- Line 149 filters the shifted ground-truth dates to the days of the article's map. A window's end date must therefore be a day of that map. With ground truth on days 0 and 7, an article whose counts stop on day 6 gives one matched date and no series (`Normalization.WeeklyExampleWithoutEndDay`). With day 7 present the value is 7/70 (`Normalization.WeeklyExample`).

## Model

| member | source | states |
|---|---|---|
| Headers.Split | experiments/2014_PLOS-Comp-Bio_Wikidemics-feasibility/make_figures.py:87 | `str.split` never returns an empty list of parts |
| Headers.Remove | experiments/2014_PLOS-Comp-Bio_Wikidemics-feasibility/make_figures.py:90 | the result holds no hyphen, and every other character occurs in it as often as in the input |
| Headers.Concat | experiments/2014_PLOS-Comp-Bio_Wikidemics-feasibility/make_figures.py:90 | `''.join(parts)`: the result holds exactly the characters of the parts and begins with the first part |
| Headers.Classify | experiments/2014_PLOS-Comp-Bio_Wikidemics-feasibility/make_figures.py:85-104 | a header names no data column exactly when it is `timestamp` |
| Headers.Route | experiments/2014_PLOS-Comp-Bio_Wikidemics-feasibility/make_figures.py:117-127 | a column keeps its project; its values go to an article exactly when it is an article column with a non-empty article (the `if article:` test), and then to that article |
| Headers.JoinSplit | experiments/2014_PLOS-Comp-Bio_Wikidemics-feasibility/make_figures.py:87 | joining the split parts with `-` gives back the header |
| Headers.SplitPartsFree | experiments/2014_PLOS-Comp-Bio_Wikidemics-feasibility/make_figures.py:87 | no split part contains a hyphen |
| Headers.ConcatSplit | experiments/2014_PLOS-Comp-Bio_Wikidemics-feasibility/make_figures.py:87-90 | concatenating the split parts removes every hyphen and nothing else |
| Headers.SplitAtFirst | experiments/2014_PLOS-Comp-Bio_Wikidemics-feasibility/make_figures.py:87-89 | the first part is everything before the first hyphen |
| Headers.ClassifyArticleHeader | experiments/2014_PLOS-Comp-Bio_Wikidemics-feasibility/make_figures.py:86-101 | `project-rest` names project `project` and article `rest` with its hyphens removed |
| Headers.ClassifyTotalHeader | experiments/2014_PLOS-Comp-Bio_Wikidemics-feasibility/make_figures.py:102-104 | a header other than `timestamp` with no hyphen names its project's total column |
| Headers.SplitWithout | experiments/2014_PLOS-Comp-Bio_Wikidemics-feasibility/make_figures.py:87 | a string without the separator splits into itself alone |
| Headers.TrailingHyphenRoutesToTotal | experiments/2014_PLOS-Comp-Bio_Wikidemics-feasibility/make_figures.py:86-127 | a header `project-` names the article "" of its project, and its values go to the project total |
| Loading.BucketDay | experiments/2014_PLOS-Comp-Bio_Wikidemics-feasibility/make_figures.py:110 | the day is the date of the instant one hour before the timestamp |
| Loading.InitializeArticle | experiments/2014_PLOS-Comp-Bio_Wikidemics-feasibility/make_figures.py:95-99 | the pair and its project get daily maps; every daily map is still empty |
| Loading.IndexColumns | experiments/2014_PLOS-Comp-Bio_Wikidemics-feasibility/make_figures.py:83-104 | every non-`timestamp` header index has its classified column; the article pairs are those of the article columns; exactly those pairs and their projects have daily maps, all empty |
| Loading.Bump | experiments/2014_PLOS-Comp-Bio_Wikidemics-feasibility/make_figures.py:121-127 | `m[d] += v` after creating `m[d] = 0`: day `d` gains `v`, every other day is unchanged |
| Loading.AddCell | experiments/2014_PLOS-Comp-Bio_Wikidemics-feasibility/make_figures.py:117-127 | one cell is added exactly when its header has a column whose target dictionary exists, and then no dictionary is created or dropped |
| Loading.AddCells | experiments/2014_PLOS-Comp-Bio_Wikidemics-feasibility/make_figures.py:112-127 | the cells of a row from position `j` on create or drop no dictionary |
| Loading.AddRow | experiments/2014_PLOS-Comp-Bio_Wikidemics-feasibility/make_figures.py:110-127 | one row creates or drops no dictionary |
| Loading.AddRows | experiments/2014_PLOS-Comp-Bio_Wikidemics-feasibility/make_figures.py:107-127 | the row loop creates or drops no dictionary |
| Loading.AccumulateRows | experiments/2014_PLOS-Comp-Bio_Wikidemics-feasibility/make_figures.py:107-127 | the row loop computes `AddRows`: the rows in file order, stopping at the first error |
| Loading.AccumulateRow | experiments/2014_PLOS-Comp-Bio_Wikidemics-feasibility/make_figures.py:110-127 | the cell loop of one row computes `AddRow` |
| Loading.AddCellEffect | experiments/2014_PLOS-Comp-Bio_Wikidemics-feasibility/make_figures.py:117-127 | one cell adds its value to exactly the count of its target on its day, and creates or drops no dictionary |
| Loading.AddCellsEffect | experiments/2014_PLOS-Comp-Bio_Wikidemics-feasibility/make_figures.py:112-127 | one row adds, per target, the sum of its values routed there to the row's day |
| Loading.AddRowsEffect | experiments/2014_PLOS-Comp-Bio_Wikidemics-feasibility/make_figures.py:107-127 | after the row loop, a target's count on a day is its earlier count plus the values routed to it from the rows that bucket to that day |
| Loading.AddCellsKeys | experiments/2014_PLOS-Comp-Bio_Wikidemics-feasibility/make_figures.py:112-127 | after one row a target has an entry for a day exactly when it had one before, or the day is the row's and some value of the row is routed to the target |
| Loading.AddRowsKeys | experiments/2014_PLOS-Comp-Bio_Wikidemics-feasibility/make_figures.py:107-127 | after the row loop a target has an entry for a day exactly when it had one before or some row on that day has a value routed to it |
| Loading.CellsHitSpec | experiments/2014_PLOS-Comp-Bio_Wikidemics-feasibility/make_figures.py:112-127 | some cell of a row from position `j` on is routed to the target exactly when some header index after `j` is |
| Loading.RowsHitSpec | experiments/2014_PLOS-Comp-Bio_Wikidemics-feasibility/make_figures.py:107-127 | some row reaches the target on a day exactly when a row bucketed to that day has a value under a header routed to the target |
| Loading.AddCellsFailure | experiments/2014_PLOS-Comp-Bio_Wikidemics-feasibility/make_figures.py:112-127 | a row fails exactly when one of its values is under a header with no column, or whose dictionary does not exist |
| Loading.AddRowsFailure | experiments/2014_PLOS-Comp-Bio_Wikidemics-feasibility/make_figures.py:107-127 | the row loop fails exactly when some row fails in this way |
| Loading.EmptyArticleUntouched | experiments/2014_PLOS-Comp-Bio_Wikidemics-feasibility/make_figures.py:117-127 | the daily map of an empty article is never written |
| Loading.LoadSucceeds | experiments/2014_PLOS-Comp-Bio_Wikidemics-feasibility/make_figures.py:93-127 | after the header loop, the rows load exactly when every value sits under a data column whose project has an article column |
| Loading.RowRoutableReadable | experiments/2014_PLOS-Comp-Bio_Wikidemics-feasibility/make_figures.py:93-127 | after the header loop every value of a row has a target dictionary exactly when it sits under a data column whose project has an article column |
| Loading.ColumnRoutable | experiments/2014_PLOS-Comp-Bio_Wikidemics-feasibility/make_figures.py:95-127 | after the header loop a column's target dictionary exists exactly when its project has an article column |
| Loading.LoadedCounts | experiments/2014_PLOS-Comp-Bio_Wikidemics-feasibility/make_figures.py:76-127 | each loaded count is the sum of the routed values of the rows that bucket to that day; a target has an entry for a day exactly when such a row has a value routed to it, so the days of a daily map are the days the lookups of lines 149, 187-188 and 193-194 can find; the article pairs are those of the header |
| Loading.LoadGroundTruth | experiments/2014_PLOS-Comp-Bio_Wikidemics-feasibility/make_figures.py:130-140 | it succeeds exactly when no date repeats, holding the dates in file order with their values; otherwise the error names the first repeated date |
| Normalization.MatchedDates | experiments/2014_PLOS-Comp-Bio_Wikidemics-feasibility/make_figures.py:149 | at most one matched date per ground-truth date |
| Normalization.MatchedDatesMembers | experiments/2014_PLOS-Comp-Bio_Wikidemics-feasibility/make_figures.py:149 | a day is matched exactly when it is a day of the article and the day minus the offset is a ground-truth date |
| Normalization.MatchedDatesIncreasing | experiments/2014_PLOS-Comp-Bio_Wikidemics-feasibility/make_figures.py:149 | sorted ground truth gives sorted matched dates at every offset |
| Normalization.Ratio | experiments/2014_PLOS-Comp-Bio_Wikidemics-feasibility/make_figures.py:163-172 | the value is 0 when the denominator is 0, and otherwise the exact quotient |
| Normalization.FirstMissingSpec | experiments/2014_PLOS-Comp-Bio_Wikidemics-feasibility/make_figures.py:181-196 | the walk's error is the first day missing from the article's map, or else from the project's; there is none exactly when every day is in both |
| Normalization.WalkClose | experiments/2014_PLOS-Comp-Bio_Wikidemics-feasibility/make_figures.py:161-179 | dividing a finished window by the project total closes it; the walk goes on in the next window, or the series is the result |
| Normalization.WalkDay | experiments/2014_PLOS-Comp-Bio_Wikidemics-feasibility/make_figures.py:181-196 | a day missing from the article's map, then from the project's, is the error; otherwise the day is counted and the walk goes on |
| Normalization.NormalizeWalk | experiments/2014_PLOS-Comp-Bio_Wikidemics-feasibility/make_figures.py:142-198 | the function returns `Normalized`: fewer than two matched dates is the `StopIteration` case, and otherwise the windows are walked |
| Normalization.WalkWindows | experiments/2014_PLOS-Comp-Bio_Wikidemics-feasibility/make_figures.py:153-198 | the `while` loop over the days computes `Walked` |
| Normalization.Walked | experiments/2014_PLOS-Comp-Bio_Wikidemics-feasibility/make_figures.py:153-198 | `StopIteration` exactly when there are fewer than two dates; a `KeyError` names a day from the first date up to the last, blaming the article's map exactly when that lacks the day |
| Normalization.WalkedFailure | experiments/2014_PLOS-Comp-Bio_Wikidemics-feasibility/make_figures.py:153-198 | the walk succeeds exactly when there are two dates and every day from the first to the last is in both maps |
| Normalization.Normalized | experiments/2014_PLOS-Comp-Bio_Wikidemics-feasibility/make_figures.py:142-198 | `StopIteration` exactly when fewer than two shifted dates match; a `KeyError` on the article's map names a day it lacks, one on the project's map a day the article has and the project lacks |
| Normalization.WindowKeysIncreasing | experiments/2014_PLOS-Comp-Bio_Wikidemics-feasibility/make_figures.py:163-193 | later windows get later dates in either aggregation mode |
| Normalization.BucketsShape | experiments/2014_PLOS-Comp-Bio_Wikidemics-feasibility/make_figures.py:159-196 | after `j` windows the series is a valid ordered map with `j` keys; key `i` is window `i`'s date, valued at window `i`'s ratio |
| Normalization.BucketsKeys | experiments/2014_PLOS-Comp-Bio_Wikidemics-feasibility/make_figures.py:159-196 | after `j` windows the keys are the `j` window dates in window order |
| Normalization.BucketsValues | experiments/2014_PLOS-Comp-Bio_Wikidemics-feasibility/make_figures.py:159-196 | after `j` windows each window's date maps to that window's ratio |
| Normalization.BucketsIncreasing | experiments/2014_PLOS-Comp-Bio_Wikidemics-feasibility/make_figures.py:159-196 | the series' dates increase |
| Normalization.BucketsAt | experiments/2014_PLOS-Comp-Bio_Wikidemics-feasibility/make_figures.py:159-196 | entry `i` of the series has `d_i` (after) or `d_(i+1)` (before) as its key, and the article's window sum divided by the project's as its value |
| Normalization.AppendKey | experiments/2014_PLOS-Comp-Bio_Wikidemics-feasibility/make_figures.py:184-191 | a date not yet in the series is appended at its end |
| Normalization.WindowKeyFresh | experiments/2014_PLOS-Comp-Bio_Wikidemics-feasibility/make_figures.py:184-191 | a window's date is not yet a key when its first day is added |
| Normalization.FinalizeStep | experiments/2014_PLOS-Comp-Bio_Wikidemics-feasibility/make_figures.py:161-172 | the running count of a finished window, divided by its project total (or set to 0), gives that window's ratio |
| Normalization.AccumulateStep | experiments/2014_PLOS-Comp-Bio_Wikidemics-feasibility/make_figures.py:183-194 | creating the entry at 0 and adding the day's count extends the running window sum by one day |
| Normalization.NormalizedFailure | experiments/2014_PLOS-Comp-Bio_Wikidemics-feasibility/make_figures.py:149-194 | the `StopIteration` case happens exactly when fewer than two dates match; a result exists exactly when at least two match and every day from the first to the last is in both maps |
| Normalization.WalkedSeries | experiments/2014_PLOS-Comp-Bio_Wikidemics-feasibility/make_figures.py:159-198 | given n >= 2 dates, the series has n-1 increasing keys, `d_0..d_(n-2)` after or `d_1..d_(n-1)` before, each valued at the article's window sum divided by the project's |
| Normalization.WalkedBuckets | experiments/2014_PLOS-Comp-Bio_Wikidemics-feasibility/make_figures.py:153-198 | a successful walk had at least two dates and is the series of all its windows |
| Normalization.NormalizedDates | experiments/2014_PLOS-Comp-Bio_Wikidemics-feasibility/make_figures.py:149-198 | every date of the series is a day of the article whose unshifted date is a ground-truth date |
| Normalization.WindowSumSplit | experiments/2014_PLOS-Comp-Bio_Wikidemics-feasibility/make_figures.py:181-196 | counts over adjacent day ranges add up |
| Normalization.WindowsPartitionSpan | experiments/2014_PLOS-Comp-Bio_Wikidemics-feasibility/make_figures.py:159-196 | the windows' sums add up to the sum over `[d_0, d_(n-1))`: no day is counted twice and the last date is not counted |
| Normalization.WindowOf | experiments/2014_PLOS-Comp-Bio_Wikidemics-feasibility/make_figures.py:159-196 | every day of the span lies in exactly one window |
| Normalization.WindowFrom | experiments/2014_PLOS-Comp-Bio_Wikidemics-feasibility/make_figures.py:159-196 | searching from a window finds the window that holds the day |
| Normalization.WeeklyExample | experiments/2014_PLOS-Comp-Bio_Wikidemics-feasibility/make_figures.py:142-198 | ground truth on days 0 and 7, one access a day and ten project accesses a day give the series {0: 7/70} in after-mode |
| Normalization.WeeklyExampleWithoutEndDay | experiments/2014_PLOS-Comp-Bio_Wikidemics-feasibility/make_figures.py:149-155 | the same data without day 7 in the article's map matches one date only, so there is no series |
| Normalization.ZeroTotalExample | experiments/2014_PLOS-Comp-Bio_Wikidemics-feasibility/make_figures.py:163-172 | a window with no project accesses is valued 0 |
| Ranking.Aligned | experiments/2014_PLOS-Comp-Bio_Wikidemics-feasibility/make_figures.py:207 | the ground-truth values at the series' dates shifted back, in series order |
| Ranking.NormalizedUsable | experiments/2014_PLOS-Comp-Bio_Wikidemics-feasibility/make_figures.py:203-207 | a normalised series is a valid, non-empty ordered map whose dates, shifted back, are ground-truth dates, so the lookups of line 207 cannot fail |
| Ranking.Score | experiments/2014_PLOS-Comp-Bio_Wikidemics-feasibility/make_figures.py:203-210 | one pair's correlation at offset 0: `Err` with the normalisation's error, or `corr` of the series' values and the aligned ground truth; `Ranking.CorrelationsMembers` fixes how it decides the dictionary |
| Ranking.FrontOrder | experiments/2014_PLOS-Comp-Bio_Wikidemics-feasibility/make_figures.py:202 | dropping the last pair of an enumeration leaves an enumeration of loaded pairs, none twice |
| Ranking.Correlations | experiments/2014_PLOS-Comp-Bio_Wikidemics-feasibility/make_figures.py:202-213 | at most one entry per enumerated pair, each for an enumerated pair, and no pair twice |
| Ranking.CorrelationsStep | experiments/2014_PLOS-Comp-Bio_Wikidemics-feasibility/make_figures.py:202-213 | one more enumerated pair either stops the loop with its normalisation error or adds its correlation when that is defined |
| Ranking.CorrelationsSucceed | experiments/2014_PLOS-Comp-Bio_Wikidemics-feasibility/make_figures.py:202-213 | the loop succeeds exactly when every enumerated pair normalises |
| Ranking.CorrelationsMembers | experiments/2014_PLOS-Comp-Bio_Wikidemics-feasibility/make_figures.py:202-213 | a pair with value `v` is kept exactly when it was enumerated and its correlation is defined and equals `v`: NaN correlations are dropped and nothing else is |
| Ranking.CorrelationsPrefixFails | experiments/2014_PLOS-Comp-Bio_Wikidemics-feasibility/make_figures.py:202-203 | the first failing normalisation is the loop's error |
| Ranking.Magnitude | experiments/2014_PLOS-Comp-Bio_Wikidemics-feasibility/make_figures.py:215 | `abs`: non-negative, and equal to the value or to its negation |
| Ranking.InsertPermutes | experiments/2014_PLOS-Comp-Bio_Wikidemics-feasibility/make_figures.py:215 | insertion adds exactly the inserted entry |
| Ranking.PrependSorted | experiments/2014_PLOS-Comp-Bio_Wikidemics-feasibility/make_figures.py:215 | an entry at least as large as every entry of a sorted sequence can go in front of it |
| Ranking.InsertBounded | experiments/2014_PLOS-Comp-Bio_Wikidemics-feasibility/make_figures.py:215 | insertion keeps every entry within a common bound |
| Ranking.InsertSorted | experiments/2014_PLOS-Comp-Bio_Wikidemics-feasibility/make_figures.py:215 | inserting into a sorted sequence keeps it sorted |
| Ranking.SortByMagnitude | experiments/2014_PLOS-Comp-Bio_Wikidemics-feasibility/make_figures.py:215 | the sort is a rearrangement of its input |
| Ranking.SortByMagnitudeSpec | experiments/2014_PLOS-Comp-Bio_Wikidemics-feasibility/make_figures.py:215 | the sort is descending by absolute value and is a permutation of its input |
| Ranking.TopTen | experiments/2014_PLOS-Comp-Bio_Wikidemics-feasibility/make_figures.py:215 | the slice `[:10]` keeps min(10, n) entries |
| Ranking.InsertDistinct | experiments/2014_PLOS-Comp-Bio_Wikidemics-feasibility/make_figures.py:215 | inserting an entry of a new pair keeps the pairs distinct |
| Ranking.SortDistinct | experiments/2014_PLOS-Comp-Bio_Wikidemics-feasibility/make_figures.py:215 | sorting keeps the pairs distinct |
| Ranking.TopTenDistinct | experiments/2014_PLOS-Comp-Bio_Wikidemics-feasibility/make_figures.py:213-215 | a dictionary's items keep distinct pairs through the sort and the slice |
| Ranking.TopTenSorted | experiments/2014_PLOS-Comp-Bio_Wikidemics-feasibility/make_figures.py:215 | the top list has min(10, n) entries, sorted by descending absolute value |
| Ranking.PrefixDominates | experiments/2014_PLOS-Comp-Bio_Wikidemics-feasibility/make_figures.py:215 | what a prefix of a sorted list leaves out is no larger than the prefix's last entry |
| Ranking.TopTenDominates | experiments/2014_PLOS-Comp-Bio_Wikidemics-feasibility/make_figures.py:215 | the top list is drawn from the input; an entry is left out only when ten are kept, and then it is no larger than the tenth |
| Ranking.Ranked | experiments/2014_PLOS-Comp-Bio_Wikidemics-feasibility/make_figures.py:201-215 | at most ten entries, for enumerated pairs only, no pair twice |
| Ranking.RankArticles | experiments/2014_PLOS-Comp-Bio_Wikidemics-feasibility/make_figures.py:201-215 | the loop computes `Ranked`: the correlations in enumeration order, then the top ten |
| Ranking.EmptyArticleStopsRanking | experiments/2014_PLOS-Comp-Bio_Wikidemics-feasibility/make_figures.py:202-203 | an enumerated pair whose daily map is empty, as a header `project-` leaves it, stops the ranking with an error |
| Ranking.TrailingHyphenHeaderStopsRanking | experiments/2014_PLOS-Comp-Bio_Wikidemics-feasibility/make_figures.py:86-203 | a header `project-` in the file makes the ranking fail once the rows are loaded, with `order` any enumeration of the header's pairs |
| Ranking.TrailingHyphenIndexed | experiments/2014_PLOS-Comp-Bio_Wikidemics-feasibility/make_figures.py:86-101 | a header `project-` puts the pair (project, "") among the header's pairs |
| Ranking.LoadedFromHeader | experiments/2014_PLOS-Comp-Bio_Wikidemics-feasibility/make_figures.py:93-127 | after the rows are loaded every pair of the header has its daily map and its project's |
| Ranking.EmptyMatches | experiments/2014_PLOS-Comp-Bio_Wikidemics-feasibility/make_figures.py:149 | an empty daily map matches no date |
| LagScan.SeriesAt | experiments/2014_PLOS-Comp-Bio_Wikidemics-feasibility/make_figures.py:226-227 | the ranked pairs normalised at the offset, in ranking order, or the first error; `LagScan.SeriesAtShape`, `LagScan.SeriesAtMembers` and `LagScan.SeriesAtPrefixFails` fix its meaning |
| LagScan.SeriesAtShape | experiments/2014_PLOS-Comp-Bio_Wikidemics-feasibility/make_figures.py:226-227 | one usable series per ranked pair |
| LagScan.SeriesAtMembers | experiments/2014_PLOS-Comp-Bio_Wikidemics-feasibility/make_figures.py:226-227 | series `i` is ranked pair `i` normalised at the offset |
| LagScan.SeriesAtPrefixFails | experiments/2014_PLOS-Comp-Bio_Wikidemics-feasibility/make_figures.py:226-227 | the first failing pair is the offset's error |
| LagScan.ColumnsOf | experiments/2014_PLOS-Comp-Bio_Wikidemics-feasibility/make_figures.py:230 | column `i` of `X` is the values of series `i` |
| LagScan.YFromFirst | experiments/2014_PLOS-Comp-Bio_Wikidemics-feasibility/make_figures.py:234-236 | no series is empty, so `y` is set from the first ranked article alone |
| LagScan.YOf | experiments/2014_PLOS-Comp-Bio_Wikidemics-feasibility/make_figures.py:234-236 | `y` stays unset exactly when there is no series, and is otherwise the ground truth aligned with one of them |
| LagScan.MinLen | experiments/2014_PLOS-Comp-Bio_Wikidemics-feasibility/make_figures.py:239 | the length of the shortest column is at most every column's length |
| LagScan.MinLenUniform | experiments/2014_PLOS-Comp-Bio_Wikidemics-feasibility/make_figures.py:239 | columns of one length have that length as their shortest |
| LagScan.TransposeTwice | experiments/2014_PLOS-Comp-Bio_Wikidemics-feasibility/make_figures.py:239 | `zip(*X)` taken twice gives back columns of one common, non-zero length |
| LagScan.Transpose | experiments/2014_PLOS-Comp-Bio_Wikidemics-feasibility/make_figures.py:239 | `zip(*X)`: as many rows as the shortest column, and entry `j` of row `i` is entry `i` of column `j` |
| LagScan.DesignResponse | experiments/2014_PLOS-Comp-Bio_Wikidemics-feasibility/make_figures.py:223-236 | with ranked articles, `y` is the ground truth at the first series' dates shifted back by the offset; with none, `y` stays `None` |
| LagScan.DesignRows | experiments/2014_PLOS-Comp-Bio_Wikidemics-feasibility/make_figures.py:224-239 | there are as many rows as the shortest series has values; row `i` holds value `i` of each ranked series, in ranking order |
| LagScan.DesignAt | experiments/2014_PLOS-Comp-Bio_Wikidemics-feasibility/make_figures.py:223-239 | `y` stays unset exactly when there is no ranked pair, and every row has one value per ranked pair |
| LagScan.DesignFittable | experiments/2014_PLOS-Comp-Bio_Wikidemics-feasibility/make_figures.py:234-246 | `y` has one value per row, as `sm.OLS` needs, exactly when there is a ranked pair and no series is shorter than the first |
| LagScan.BuildStep | experiments/2014_PLOS-Comp-Bio_Wikidemics-feasibility/make_figures.py:226-236 | a pair that normalises appends its values to `X` and sets `y` while `y` is unset or empty |
| LagScan.BuildFails | experiments/2014_PLOS-Comp-Bio_Wikidemics-feasibility/make_figures.py:226-227 | a pair that fails is the offset's error |
| LagScan.BuildDone | experiments/2014_PLOS-Comp-Bio_Wikidemics-feasibility/make_figures.py:239 | after the last pair, the design is `y` and the transpose of `X` |
| LagScan.BuildDesign | experiments/2014_PLOS-Comp-Bio_Wikidemics-feasibility/make_figures.py:223-239 | the loop of one offset computes `DesignAt` |
| LagScan.ScanPrefixFails | experiments/2014_PLOS-Comp-Bio_Wikidemics-feasibility/make_figures.py:221-251 | an error at an earlier offset is the scan's error |
| LagScan.ScanStep | experiments/2014_PLOS-Comp-Bio_Wikidemics-feasibility/make_figures.py:248-251 | an offset whose design is built is added to the scan |
| LagScan.ScanFailsAt | experiments/2014_PLOS-Comp-Bio_Wikidemics-feasibility/make_figures.py:221-251 | an offset that fails makes the scan up to it fail |
| LagScan.ScanStops | experiments/2014_PLOS-Comp-Bio_Wikidemics-feasibility/make_figures.py:221-251 | an offset that fails ends the whole scan with its error |
| LagScan.RunLagScan | experiments/2014_PLOS-Comp-Bio_Wikidemics-feasibility/make_figures.py:217-251 | the `while offset <= 28` loop computes `ScanUpTo(29)` |
| LagScan.ScanUpToKeys | experiments/2014_PLOS-Comp-Bio_Wikidemics-feasibility/make_figures.py:221-251 | the scan up to `k` holds exactly the offsets from -28 to `k`-1 |
| LagScan.ScanUpTo | experiments/2014_PLOS-Comp-Bio_Wikidemics-feasibility/make_figures.py:221-251 | a scan up to `k` holds only offsets from -28 to `k`-1 |
| LagScan.ScanUpToFailure | experiments/2014_PLOS-Comp-Bio_Wikidemics-feasibility/make_figures.py:221-251 | a failed scan fails with the error of one of its offsets |
| LagScan.ScanUpToValues | experiments/2014_PLOS-Comp-Bio_Wikidemics-feasibility/make_figures.py:222-249 | each scanned offset holds the design built at that offset |
| LagScan.ScanCovers | experiments/2014_PLOS-Comp-Bio_Wikidemics-feasibility/make_figures.py:221-251 | a successful scan has exactly the 57 offsets -28..28 |
| LagScan.SortedOffsets | experiments/2014_PLOS-Comp-Bio_Wikidemics-feasibility/make_figures.py:447 | one position per scanned offset |
| LagScan.SortedOffsetsSpec | experiments/2014_PLOS-Comp-Bio_Wikidemics-feasibility/make_figures.py:447 | `sorted(lag_results)` is increasing and holds exactly the offsets -28..28 |
| LagScan.Reverse | experiments/2014_PLOS-Comp-Bio_Wikidemics-feasibility/make_figures.py:448 | `list.reverse()`: element `i` is element `n-1-i` of the input |
| LagScan.PlotSeries | experiments/2014_PLOS-Comp-Bio_Wikidemics-feasibility/make_figures.py:447-450 | one R² per offset; the value plotted at x = `range(-28, 29)[p]` is the fit of offset -x, so the reversal mirrors the lag axis |
| OrderedMaps.OrderedMap.Values | experiments/2014_PLOS-Comp-Bio_Wikidemics-feasibility/make_figures.py:230 | `.values()` lists one value per key, in key order |
| OrderedMaps.SetSpec | experiments/2014_PLOS-Comp-Bio_Wikidemics-feasibility/make_figures.py:184-193 | assigning a key keeps the earlier keys in place and appends a new key at the end; the key gets the value and no other entry changes |
| OrderedMaps.SetValid | experiments/2014_PLOS-Comp-Bio_Wikidemics-feasibility/make_figures.py:184-185 | assigning a key keeps an ordered map's keys distinct and in step with its entries |
| OrderedMaps.SetTwice | experiments/2014_PLOS-Comp-Bio_Wikidemics-feasibility/make_figures.py:164-165 | assigning a key twice leaves the key where it was, with the second value |

## Left out

- Text parsing: reading the CSV files, `dateutil.parser.parse`, `int()` and `float()` are not modelled. A row is an already parsed timestamp (a day and a second of that day) and a sequence of integer cells. A ground-truth row is a (day, value) pair. The header row is a sequence of strings.
- The day bucketing assumes calendar dates can be numbered consecutively. The `datetime` range limits (year 1 to 9999) are not modelled.
- `scipy.stats.pearsonr` is the parameter `corr`. It returns `None` where the script would get NaN.
- `statsmodels` (`add_constant`, `OLS`, `fit`, `rsquared`) is the parameter `rsquared` of `PlotSeries`. The model stops at `y` and the rows of `X`. The fitted models are not modelled. An offset with no ranked article leaves `y` as `None`, where `OLS` would fail; `LagScan.Fittable` names the designs `OLS` accepts.
- Plotting (matplotlib), `pdfcrop`, the figure layout and the command-line parser are left out. The `--aggregate-period` option is the parameter `mode`.
- The order in which the set `project_articles` is enumerated is the parameter `order`, a sequence with no pair twice (`OrderedMaps.Distinct`). The order in which Python 2 enumerates the correlations dictionary before sorting is also not modelled: the sort is applied to the correlations in enumeration order. That fixes the order of ties, which the script leaves to the dictionary.
- Normalization.NormalizeWalk requires the matched dates to be strictly increasing, which holds whenever the ground truth is sorted. With dates out of order the loop of lines 159-196 behaves otherwise, and none of this is modelled:
  - the loop test `start_date <= last_date` (line 159) compares with the last matched date, so it can end the walk early. In `after` mode, dates 0, 7, 3 give {0: the ratio of days 0-6, 7: the article's count on day 7}, with the last value never divided. Dates 5, 3 give an empty `OrderedDict`;
  - the window closes only when `current_date == next_date` (line 161), so a next date earlier than the current day is never reached. The walk then goes on day by day until a day is missing from a map and raises `KeyError`.
- Normalization.WalkWindows requires strictly increasing dates, for the same reason.
- Ranking.RankArticles requires sorted ground truth, so that every matched date sequence increases. The same holds for Ranking.Correlations and Ranking.Ranked.
- LagScan.BuildDesign requires sorted ground truth, for the same reason, as do LagScan.RunLagScan, LagScan.DesignAt and the lemmas about them.
- The lemmas about the normalised series are stated for strictly increasing dates only.
- The ratio of a window (lines 163-172) is an exact `real`. The rounding of IEEE double division, and of the float sums `pearsonr` and `OLS` compute, is not modelled.
- LagScan.DesignAt returns the design even when `sm.OLS` would raise. That happens when a later series is shorter than the first: `y` keeps the first series' length while `zip` cuts the rows to the shortest. `LagScan.DesignFittable` states exactly when the fit can run. Because the fit is not modelled, `LagScan.ScanUpTo` and `LagScan.ScanCovers` count such an offset as scanned, where the script stops.
- The per-day `OrderedDict`s of the loaded counts (lines 97 and 99) are `map<Day, int>`, so their insertion order is not kept. Nothing in the modelled code reads that order: line 149 only tests membership, and the walk of lines 159-196 goes by date.
- Cell values are unbounded integers. Python integers do not overflow, so nothing is lost.
- The computation of the R² values and everything after line 251 other than the plot order (lines 447-451) is not modelled: the incidence plots, the model predictions and the figure output.
