# Crime dashboard pipeline, modelled in Dafny

`crime_dashboard.py` is a Streamlit page over the FBI's yearly per-state crime estimates. On every
widget change it reruns a small data-shaping pipeline between loading the CSV and drawing the
charts. This project models that pipeline as pure Dafny functions over a sequence of rows and
proves what each stage promises.

- **Affiliation** (`Affiliation.dfy`): the Republican and Democratic code lists. It has two
  classifiers. The three-way one labels every row of the full table Republican, Democratic or
  Other. The two-way one labels the map rows and folds Other into Democratic. It also has the
  numeric colour flag.
- **State options** (`StateOptions.dfy`): the affiliation radio button becomes the list of
  states offered in the sidebar. "Select All States" selects every offered state.
- **Record filter** (`RecordFilter.dfy`): the year-and-state mask that builds `filtered_df` and
  the year-only mask that builds `filtered_political_df`. It also adds the affiliation columns.
- **Group-by-sum** (`GroupBy.dfy`): `groupby(keys).sum()`, written once and generic over the
  key type. A missing cell (NaN) is skipped, so a group whose cells are all missing sums to 0.
- **Ranking** (`Ranking.dfy`): `sort_values(ascending=False).head(n)`.
- **Pivot** (`Pivot.dfy`): `pivot(index='year', columns=key, values=col)`. The result is a map
  from years to maps from keys to `Option<int>`. A missing (year, key) cell is `None` (NaN).
- **Dashboard** (`Dashboard.dfy`): one run of the script. It returns either "no data" or the
  five views: the top-10 states, the map rows, the state trend and two affiliation trends.
- `Sequences.dfy` holds the generic mask (`Keep`) and `unique()` (`Dedup`). `Wrappers.dfy`
  holds `Option`. `Records.dfy` holds the row type.

Behaviours of the code the model keeps:

- The pivot is not densified. Its rows are only the years present, and missing cells stay
  missing. Nothing is zero-filled.
- The ranking has no tie-break. pandas' default sort is not stable, so the order of equal sums
  is left open.
- The state-independent trend puts rows with a null state code under Other. Those are the
  aggregate rows, such as the national total.
- The map's two-way classifier labels Arizona, New Hampshire and Ohio Democratic. The trend's
  three-way classifier labels them Other.

The code lists are used only with `in` and `isin`, so they are modelled as sets.

## Model

| member | source | states |
|---|---|---|
| `Affiliation.ListsDisjoint` | crime_dashboard.py:6-9 | no code is on both the Republican and the Democratic list |
| `Affiliation.Classify` | crime_dashboard.py:122-123 | Republican exactly for codes on the Republican list, Democratic exactly for codes on the Democratic list, Other for every other code and for a null code |
| `Affiliation.ClassifyTwoWay` | crime_dashboard.py:83-84 | never Other; Republican exactly for codes on the Republican list |
| `Affiliation.TwoWayFoldsOther` | crime_dashboard.py:83-84 | the two-way label is Republican when the three-way label is, and Democratic otherwise; the two agree wherever the three-way label is not Other |
| `Affiliation.UnlistedCode` | crime_dashboard.py:122-123 | a code on neither list is Other in the trend and Democratic on the map |
| `Affiliation.UnlistedStatesDiffer` | crime_dashboard.py:6-9 | AZ, NH and OH are such codes |
| `Affiliation.AffiliationNumeric` | crime_dashboard.py:90 | the flag is 1 iff the label is Republican and 0 otherwise |
| `Sequences.Keep` | crime_dashboard.py:70 | a boolean mask keeps every copy of each row satisfying it and no other row (as multisets), never lengthens the table, and keeps the survivors in their original relative order |
| `Sequences.KeepCongruent` | crime_dashboard.py:70 | two masks that agree on every row select the same rows |
| `Sequences.Dedup` | crime_dashboard.py:48 | `unique()` has no duplicates, holds exactly the elements of its input, and lists them in the order of their first occurrences |
| `StateOptions.StateColumn` | crime_dashboard.py:45 | `dropna()` of the code column holds exactly the codes some row carries |
| `StateOptions.SelectedStates` | crime_dashboard.py:51-54 | with "Select All States", the selection is duplicate-free and holds exactly the codes present in the data that the affiliation admits; otherwise it is the multiselect's value unchanged |
| `StateOptions.OfferedStates` | crime_dashboard.py:40-48 | the offered states are duplicate-free and hold exactly the codes present in the data that the chosen affiliation admits (all of them for "All") |
| `RecordFilter.FilterByYearAndStates` | crime_dashboard.py:70 | a row survives iff `lo <= year <= hi` and its code is non-null and selected, with every copy of it kept; survivors keep their order; the result is no longer than the input |
| `RecordFilter.AnnotateParty` | crime_dashboard.py:122-123 | every row keeps its record; its label is Republican or Democratic exactly when its code is on that list, and Other when the code is null |
| `RecordFilter.FilterByYear` | crime_dashboard.py:126 | a labelled row survives iff its year is in range, whatever its state, with every copy of it kept; order kept |
| `RecordFilter.AnnotateForMap` | crime_dashboard.py:83-90 | each map row keeps its record; its label is Republican or Democratic, Republican exactly for listed Republican codes; its flag is 0 or 1, and 1 exactly for Republican |
| `GroupBy.GroupSum` | crime_dashboard.py:76 | one output row per distinct input key (keys unique); each row's value is the sum of the column over the input rows with that key, with missing cells skipped |
| `GroupBy.AbsentGroup` | crime_dashboard.py:115 | a key no input row carries has no output row |
| `GroupBy.SumForPermutation` | crime_dashboard.py:76 | a group's sum depends only on the multiset of input rows |
| `GroupBy.GroupSumOrderIndependent` | crime_dashboard.py:132 | permuting the input rows leaves the set of output rows unchanged |
| `GroupBy.GroupTotal` | crime_dashboard.py:144 | the group sums add up to the column total of the input |
| `GroupBy.GroupCount` | crime_dashboard.py:115 | the grouped table has exactly as many rows as the input has distinct keys |
| `Ranking.Insert` | crime_dashboard.py:76 | inserting into a descending table keeps it descending and adds exactly that row |
| `Ranking.SortDesc` | crime_dashboard.py:76 | the sorted table is descending and a permutation of its input |
| `Ranking.PermutationKeysUnique` | crime_dashboard.py:76 | rearranging a table with unique keys keeps its keys unique |
| `Ranking.TopN` | crime_dashboard.py:76 | `min(n, rows)` rows of the input, descending, keys unique when the input's are, and a row of which fewer copies are kept than the input holds is no larger than any row kept |
| `Pivot.PivotRow` | crime_dashboard.py:116 | a matrix row has one cell per column key present; the cell holds `v` iff the (year, key, v) row exists |
| `Pivot.PivotTable` | crime_dashboard.py:116 | one matrix row per year present, one column per key present, and a cell holds `v` exactly when the (year, key, v) row exists |
| `GroupedPivot.PivotYears` | crime_dashboard.py:115-116 | the rows of the pivot of grouped sums are exactly the years of the groups |
| `GroupedPivot.PivotColumns` | crime_dashboard.py:115-116 | every row of the pivot of grouped sums has one column per key occurring in the groups |
| `GroupedPivot.PivotCell` | crime_dashboard.py:115-116 | a cell of the pivot of grouped sums exists when its group does, and holds the group's sum, or `None` when there is no such group |
| `Dashboard.KeyedBy` | crime_dashboard.py:76 | rows with a null key are dropped before grouping; each key's sum and the set of keys are those of the original rows |
| `Dashboard.Run` | crime_dashboard.py:70-150 | "no data" exactly when no row passes the year and state filter; otherwise the ranking, the map rows and the state trend are those of the filtered rows, the map and the ranking are non-empty, and the two affiliation trends are computed from the year range alone |
| `Dashboard.EmptyFilter` | crime_dashboard.py:73 | the filtered table is empty iff no row passes both tests |
| `Dashboard.TopStatesNonEmpty` | crime_dashboard.py:73-77 | a non-empty filtered table ranks at least one state |
| `Dashboard.TopStates` | crime_dashboard.py:76 | `min(10, distinct states)` distinct states of the filtered rows, each with its summed violent crime, descending; a state left out sums no more than any state shown |
| `Dashboard.TopTenRanks` | crime_dashboard.py:76 | the first ten rows of the descending sort of the per-state sums rank the states in that way |
| `Dashboard.StateTrend` | crime_dashboard.py:115-116 | rows are the years of the filtered rows that carry a code, each with one column per state of the filtered rows; a (year, state) cell has a value iff filtered rows of that year and state exist, and that value is their summed violent crime; every other cell is missing |
| `Dashboard.StatePivotTrends` | crime_dashboard.py:115-116 | the pivot of the per-(year, state) sums has that shape and those cells |
| `Dashboard.PartyKeys` | crime_dashboard.py:122-132 | the (year, label) groups are exactly the pairs carried by rows in the year range |
| `Dashboard.PartyTrend` | crime_dashboard.py:122-147 | rows are the years of the year range that have rows, each with one column per label those rows carry; a (year, label) cell has a value iff some row of the range has that year and label, selected or not, and that value is the rate summed over exactly those rows of the table |
| `Dashboard.PartyPivotTrends` | crime_dashboard.py:126-147 | the pivot of the per-(year, label) sums of the year range has that shape and those cells |
| `Dashboard.PartySums` | crime_dashboard.py:126-132 | a (year, label) group's sum after labelling and filtering the table equals the rate summed directly over the table's rows in the range with that year and label |
| `Dashboard.NullCodesCountAsOther` | crime_dashboard.py:122-132 | a null-code row in the year range gives its year a value under Other |
| `Dashboard.SelectAllKeepsAdmitted` | crime_dashboard.py:40-70 | with "Select All States", the filter keeps exactly the in-range rows whose non-null code the chosen affiliation admits |
| `Dashboard.TrendsIgnoreStateSelection` | crime_dashboard.py:126 | two runs that differ only in the state selection draw the same affiliation trends |

## Left out

- Downloading and parsing the CSV (crime_dashboard.py:12-13) is network I/O. The table is a parameter of `Dashboard.Run`.
- The Streamlit widgets, layout and text are UI. The slider, radio, checkboxes, multiselects and select box become parameters. The slider's bounds, taken from the minimum and maximum year (crime_dashboard.py:32-34), are not modelled.
- The crime-type multiselect (crime_dashboard.py:56-64) is left out: no later line uses `selected_crimes`.
- The charts and their styling are rendering: bar chart, line charts, choropleth, `update_layout` and the colour scale.
- Display-string formatting of crime names (`.title().replace('_', ' ')`) is cosmetic.
- The per-capita rate columns (crime_dashboard.py:87, 129, 141) are floating-point division with unguarded zero or missing population. The map rows carry no rate. The affiliation trends take the rate as a caller-supplied integer-valued function `perCapita(row, crime)`, and their sums are over `int`.
- Integer width: pandas sums in int64 or float64. The model sums unbounded integers.
- `StateOptions.OfferedStates`: states which codes are offered, not that they appear in first-appearance order. The order does not affect the filter, and the multiselect sorts its options.
- `GroupBy.GroupSum`: rows come out in first-appearance order of their keys, not sorted by key as pandas does. The pivot is a map and the ranking re-sorts by value, so no view depends on it.
- `Pivot.PivotTable`: the order of the pivot's index and columns is not modelled (they are map keys).
- `StateOptions.SelectedStates`: without "Select All States" the selection is the multiselect's value, taken as a parameter; that Streamlit only lets the user pick offered states is widget behaviour and is not modelled.
