/**
 * The views the script computes on each rerun, between loading the table and drawing the
 * charts: the top-10 states by violent crime, the map rows, the violent-crime trend per state,
 * and the two per-capita trends per affiliation.
 */
module Dashboard {
  import opened Wrappers
  import opened Sequences
  import opened Records
  import opened Affiliation
  import opened StateOptions
  import opened RecordFilter
  import opened GroupBy
  import opened Ranking
  import opened Pivot
  import opened GroupedPivot

  /** How many states the bar chart shows (`head(10)`). */
  const TopCount: nat := 10

  /** The sum of `value` over the rows whose key is `k`. */
  function RowsSum<R, K(==)>(rows: seq<R>, key: R -> Option<K>, value: R -> Option<int>, k: K): int {
    if rows == [] then 0
    else (if key(rows[0]) == Some(k) then Contribution(value(rows[0])) else 0) + RowsSum(rows[1..], key, value, k)
  }

  /** Some row carries the key `k`. */
  ghost predicate HasKey<R, K>(rows: seq<R>, key: R -> Option<K>, k: K) {
    exists r :: r in rows && key(r) == Some(k)
  }

  /**
   * `rows[[keys..., col]]` ready for `groupby`: one (key, cell) pair per row, in row order;
   * a row whose key is null is dropped, as `groupby` drops NaN keys.
   */
  function KeyedBy<R, K(==,!new)>(rows: seq<R>, key: R -> Option<K>, value: R -> Option<int>): (t: seq<(K, Option<int>)>)
    ensures |t| <= |rows|
    ensures forall k :: SumFor(t, k) == RowsSum(rows, key, value, k)
    ensures forall k :: k in KeySet(t) <==> HasKey(rows, key, k)
  {
    if rows == [] then []
    else
      var rest := KeyedBy(rows[1..], key, value);
      assert forall k :: HasKey(rows, key, k) <==> key(rows[0]) == Some(k) || HasKey(rows[1..], key, k) by {
        forall k | HasKey(rows, key, k) ensures key(rows[0]) == Some(k) || HasKey(rows[1..], key, k) {
          var r :| r in rows && key(r) == Some(k);
          var i :| 0 <= i < |rows| && rows[i] == r;
          if i > 0 { assert rows[1..][i - 1] == r; }
        }
        forall k | HasKey(rows[1..], key, k) ensures HasKey(rows, key, k) {
          var r :| r in rows[1..] && key(r) == Some(k);
          assert r in rows;
        }
        assert rows[0] in rows;
      }
      match key(rows[0])
      case None => rest
      case Some(k0) =>
        var t := [(k0, value(rows[0]))] + rest;
        assert t[0] == (k0, value(rows[0])) && t[1..] == rest;
        assert forall k :: k in KeySet(t) <==> k == k0 || k in KeySet(rest) by {
          forall k | k in KeySet(t) ensures k == k0 || k in KeySet(rest) {
            var p :| p in t && p.0 == k;
            var i :| 0 <= i < |t| && t[i] == p;
            if i > 0 { assert rest[i - 1] == p; }
          }
          forall k | k in KeySet(rest) ensures k in KeySet(t) {
            var p :| p in rest && p.0 == k;
            assert p in t;
          }
          assert t[0] in t;
        }
        t
  }

  /** The state trend and ranking key: the row's code, null on aggregate rows. */
  function StateKey(x: CrimeRecord): Option<string> {
    x.stateAbbr
  }

  /** The (year, state) key of `violent_crime_trend`; rows with a null code have none. */
  function YearStateKey(x: CrimeRecord): Option<(int, string)> {
    if x.stateAbbr.Some? then Some((x.year, x.stateAbbr.value)) else None
  }

  /** The (year, label) key of the affiliation trends; every labelled row has one. */
  function YearPartyKey(p: PartyRow): Option<(int, Party)> {
    Some((p.record.year, p.affiliation))
  }

  /** The `violent_crime` cell of a row. */
  function ViolentCrimes(x: CrimeRecord): Option<int> {
    x.Count(ViolentCrime)
  }

  /**
   * `r` ranks the states of the filtered rows as the bar chart does: `min(10, number of states)`
   * distinct states, each with its violent crime summed over its filtered rows, largest first;
   * a state left out has a sum no larger than any state shown. The order among equal sums is
   * left open.
   */
  ghost predicate RanksStates(filtered: seq<CrimeRecord>, r: seq<(string, int)>) {
    && |r| == Min(TopCount, |States(filtered)|)
    && SortedDesc(r)
    && KeysUnique(r)
    && (forall p :: p in r ==> p.0 in States(filtered) && p.1 == RowsSum(filtered, StateKey, ViolentCrimes, p.0))
    && (forall c, j ::
          (c in States(filtered) && 0 <= j < |r| && (forall p :: p in r ==> p.0 != c)) ==>
          RowsSum(filtered, StateKey, ViolentCrimes, c) <= r[j].1)
  }

  /** `top_10_states`: violent crime summed per state, sorted descending, first ten. */
  function TopStates(filtered: seq<CrimeRecord>): (r: seq<(string, int)>)
    ensures RanksStates(filtered, r)
  {
    TopTenRanks(filtered);
    TopN(GroupSum(KeyedBy(filtered, StateKey, ViolentCrimes)), TopCount)
  }

  /** The first ten groups of the descending sort rank the states. */
  lemma TopTenRanks(filtered: seq<CrimeRecord>)
    ensures RanksStates(filtered, TopN(GroupSum(KeyedBy(filtered, StateKey, ViolentCrimes)), TopCount))
  {
    var t := KeyedBy(filtered, StateKey, ViolentCrimes);
    var g := GroupSum(t);
    var r := TopN(g, TopCount);
    StatesAreKeys(filtered);
    GroupCount(t);
    TopGroups(t, TopCount);
    forall c, j | c in States(filtered) && 0 <= j < |r| && (forall p :: p in r ==> p.0 != c)
      ensures RowsSum(filtered, StateKey, ViolentCrimes, c) <= r[j].1
    {
      LeftOutGroup(t, TopCount, c, j);
    }
  }

  /**
   * `m` is the violent-crime trend of the filtered rows: a row per year of the filtered rows that
   * carry a code, each with a column per state of the filtered rows; the cell (year, state)
   * holds the violent crime summed over the filtered rows of that state and year exactly when
   * there are such rows, and is missing, not zero, otherwise.
   */
  ghost predicate TrendsStates(filtered: seq<CrimeRecord>, m: Matrix<string>) {
    && m.Keys == (set x | x in filtered && x.stateAbbr.Some? :: x.year)
    && (forall y :: y in m ==> m[y].Keys == States(filtered))
    && (forall y, c :: HasKey(filtered, YearStateKey, (y, c)) ==> y in m && c in m[y] && m[y][c].Some?)
    && (forall y, c :: y in m && c in m[y] ==> (m[y][c].Some? <==> HasKey(filtered, YearStateKey, (y, c))))
    && (forall y, c :: y in m && c in m[y] && m[y][c].Some? ==>
          m[y][c].value == RowsSum(filtered, YearStateKey, ViolentCrimes, (y, c)))
  }

  /** The pivot of `violent_crime_trend`: violent crime summed per year and state. */
  function StateTrend(filtered: seq<CrimeRecord>): (m: Matrix<string>)
    ensures TrendsStates(filtered, m)
  {
    StatePivotTrends(filtered);
    PivotTable(GroupSum(KeyedBy(filtered, YearStateKey, ViolentCrimes)))
  }

  /** The pivot of the (year, state) sums is the violent-crime trend of the filtered rows. */
  lemma StatePivotTrends(filtered: seq<CrimeRecord>)
    ensures TrendsStates(filtered, PivotTable(GroupSum(KeyedBy(filtered, YearStateKey, ViolentCrimes))))
  {
    StatePivotShape(filtered);
    var t := KeyedBy(filtered, YearStateKey, ViolentCrimes);
    var m: map<int, map<string, Option<int>>> := PivotTable(GroupSum(t));
    forall y: int, c: string
      ensures HasKey(filtered, YearStateKey, (y, c)) ==> y in m && c in m[y] && m[y][c].Some?
      ensures y in m && c in m[y] ==> (m[y][c].Some? <==> HasKey(filtered, YearStateKey, (y, c)))
      ensures y in m && c in m[y] && m[y][c].Some? ==> m[y][c].value == RowsSum(filtered, YearStateKey, ViolentCrimes, (y, c))
    {
      PivotCell(t, y, c);
    }
  }

  /** The rows of the state pivot are the years of the filtered rows with a code, its columns their states. */
  lemma StatePivotShape(filtered: seq<CrimeRecord>)
    ensures PivotTable(GroupSum(KeyedBy(filtered, YearStateKey, ViolentCrimes))).Keys
         == set x | x in filtered && x.stateAbbr.Some? :: x.year
    ensures forall y :: y in PivotTable(GroupSum(KeyedBy(filtered, YearStateKey, ViolentCrimes))) ==>
      PivotTable(GroupSum(KeyedBy(filtered, YearStateKey, ViolentCrimes)))[y].Keys == States(filtered)
  {
    var t := KeyedBy(filtered, YearStateKey, ViolentCrimes);
    PivotYears(t);
    YearsOfStateKeys(filtered);
    StatesOfStateKeys(filtered);
    forall y | y in PivotTable(GroupSum(t)) ensures PivotTable(GroupSum(t))[y].Keys == States(filtered) {
      PivotColumns(t, y);
    }
  }

  /** The per-capita rate of `crime` on a labelled row. */
  function PartyRate(perCapita: (CrimeRecord, Crime) -> Option<int>, crime: Crime): PartyRow -> Option<int> {
    (p: PartyRow) => perCapita(p.record, crime)
  }

  /** The rate of `crime` summed over the rows of the table in the year range with year `y` and label `a`. */
  function LabelledSum(df: seq<CrimeRecord>, lo: int, hi: int, perCapita: (CrimeRecord, Crime) -> Option<int>,
                       crime: Crime, y: int, a: Party): int
  {
    if df == [] then 0
    else
      (if lo <= df[0].year <= hi && df[0].year == y && Classify(df[0].stateAbbr) == a
       then Contribution(perCapita(df[0], crime)) else 0)
      + LabelledSum(df[1..], lo, hi, perCapita, crime, y, a)
  }

  /** The rows of the year range that carry a label, as (year, label) pairs. */
  ghost function LabelledPairs(df: seq<CrimeRecord>, lo: int, hi: int): set<(int, Party)> {
    set x | x in df && lo <= x.year <= hi :: (x.year, Classify(x.stateAbbr))
  }

  /**
   * `m` is an affiliation trend of the rate of `crime` over every row of the year range,
   * whatever its state: a row per year of the range that has rows, a column per label those rows
   * carry, and the cell (year, label) holds the rate summed over the rows of that year and label
   * exactly when some row of the range has them. Rows of every state count, selected or not,
   * and rows with a null code count under Other.
   */
  ghost predicate TrendsParties(df: seq<CrimeRecord>, lo: int, hi: int, perCapita: (CrimeRecord, Crime) -> Option<int>,
                                crime: Crime, m: Matrix<Party>) {
    && m.Keys == (set x | x in df && lo <= x.year <= hi :: x.year)
    && (forall y :: y in m ==> m[y].Keys == set x | x in df && lo <= x.year <= hi :: Classify(x.stateAbbr))
    && (forall y, a :: LabelledRow(df, lo, hi, y, a) <==> (y in m && a in m[y] && m[y][a].Some?))
    && (forall y, a :: y in m && a in m[y] && m[y][a].Some? ==>
          m[y][a].value == LabelledSum(df, lo, hi, perCapita, crime, y, a))
  }

  /** The pivot of `political_crime_trend` (crime = violent crime) or `specific_crime_trend`. */
  function PartyTrend(df: seq<CrimeRecord>, lo: int, hi: int, perCapita: (CrimeRecord, Crime) -> Option<int>, crime: Crime): (m: Matrix<Party>)
    ensures TrendsParties(df, lo, hi, perCapita, crime, m)
  {
    PartyPivotTrends(df, lo, hi, perCapita, crime);
    PivotTable(GroupSum(KeyedBy(FilterByYear(AnnotateParty(df), lo, hi), YearPartyKey, PartyRate(perCapita, crime))))
  }

  /** The pivot of the (year, label) sums of the year range is its affiliation trend. */
  lemma PartyPivotTrends(df: seq<CrimeRecord>, lo: int, hi: int, perCapita: (CrimeRecord, Crime) -> Option<int>, crime: Crime)
    ensures TrendsParties(df, lo, hi, perCapita, crime,
      PivotTable(GroupSum(KeyedBy(FilterByYear(AnnotateParty(df), lo, hi), YearPartyKey, PartyRate(perCapita, crime)))))
  {
    var t := KeyedBy(FilterByYear(AnnotateParty(df), lo, hi), YearPartyKey, PartyRate(perCapita, crime));
    var m: map<int, map<Party, Option<int>>> := PivotTable(GroupSum(t));
    PartyKeySet(df, lo, hi, perCapita, crime);
    PivotYears(t);
    ImagesOfPairs(df, lo, hi);
    forall y | y in m ensures m[y].Keys == set x | x in df && lo <= x.year <= hi :: Classify(x.stateAbbr) {
      PivotColumns(t, y);
    }
    forall y: int, a: Party
      ensures LabelledRow(df, lo, hi, y, a) <==> (y in m && a in m[y] && m[y][a].Some?)
      ensures y in m && a in m[y] && m[y][a].Some? ==> m[y][a].value == LabelledSum(df, lo, hi, perCapita, crime, y, a)
    {
      PivotCell(t, y, a);
      PartyKeys(df, lo, hi, perCapita, crime, y, a);
      PartySums(df, lo, hi, perCapita, crime, y, a);
    }
  }

  /** What the page shows: the no-data message, or the five views. */
  datatype Views =
    | NoData
    | Views(
        topStates: seq<(string, int)>,
        mapRows: seq<MapRow>,
        stateTrend: Matrix<string>,
        partyTrend: Matrix<Party>,
        specificTrend: Matrix<Party>)

  /**
   * One run of the script. The slider, radio, checkbox, multiselect and select box values are
   * parameters; `perCapita(x, c)` stands for the rate column `x.Count(c) / x.population`.
   * The views are computed only when some row passes the year and state filter.
   */
  function Run(df: seq<CrimeRecord>, lo: int, hi: int, choice: Choice, selectAll: bool, chosen: seq<string>,
               specific: Crime, perCapita: (CrimeRecord, Crime) -> Option<int>): (v: Views)
    ensures v.NoData? <==> forall x :: x in df ==> !(InYearRange(x, lo, hi) && InStates(x, SelectedStates(df, choice, selectAll, chosen)))
    ensures v.Views? ==> |v.mapRows| >= 1 && |v.topStates| >= 1
    ensures v.Views? ==> v.topStates == TopStates(FilterByYearAndStates(df, lo, hi, SelectedStates(df, choice, selectAll, chosen)))
    ensures v.Views? ==> v.mapRows == AnnotateForMap(FilterByYearAndStates(df, lo, hi, SelectedStates(df, choice, selectAll, chosen)))
    ensures v.Views? ==> v.stateTrend == StateTrend(FilterByYearAndStates(df, lo, hi, SelectedStates(df, choice, selectAll, chosen)))
    ensures v.Views? ==> v.partyTrend == PartyTrend(df, lo, hi, perCapita, ViolentCrime)
    ensures v.Views? ==> v.specificTrend == PartyTrend(df, lo, hi, perCapita, specific)
  {
    var selected := SelectedStates(df, choice, selectAll, chosen);
    var filtered := FilterByYearAndStates(df, lo, hi, selected);
    EmptyFilter(df, lo, hi, selected);
    if filtered == [] then NoData
    else
      TopStatesNonEmpty(filtered);
      Views(
        TopStates(filtered),
        AnnotateForMap(filtered),
        StateTrend(filtered),
        PartyTrend(df, lo, hi, perCapita, ViolentCrime),
        PartyTrend(df, lo, hi, perCapita, specific))
  }

  /** The filter result is empty exactly when no row of the table passes both tests. */
  lemma EmptyFilter(df: seq<CrimeRecord>, lo: int, hi: int, selected: seq<string>)
    ensures FilterByYearAndStates(df, lo, hi, selected) == [] <==>
      forall x :: x in df ==> !(InYearRange(x, lo, hi) && InStates(x, selected))
  {
    var filtered := FilterByYearAndStates(df, lo, hi, selected);
    if filtered != [] {
      assert filtered[0] in filtered;
    }
  }

  /** Filtered rows always carry a code, so a non-empty filter result ranks at least one state. */
  lemma TopStatesNonEmpty(filtered: seq<CrimeRecord>)
    requires filtered != []
    requires forall x :: x in filtered ==> x.stateAbbr.Some?
    ensures |TopStates(filtered)| >= 1
  {
    var t := KeyedBy(filtered, StateKey, ViolentCrimes);
    assert HasKey(filtered, StateKey, filtered[0].stateAbbr.value) by {
      assert filtered[0] in filtered;
    }
    GroupCount(t);
    assert filtered[0].stateAbbr.value in KeySet(t);
  }

  /** The codes carried by some row, as a set. */
  function States(rows: seq<CrimeRecord>): (codes: set<string>)
    ensures forall c :: c in codes <==> Present(rows, c)
  {
    set x | x in rows && x.stateAbbr.Some? :: x.stateAbbr.value
  }

  /** The keys of the per-state table are the states of the filtered rows. */
  lemma StatesAreKeys(filtered: seq<CrimeRecord>)
    ensures KeySet(KeyedBy(filtered, StateKey, ViolentCrimes)) == States(filtered)
  {
    forall c ensures HasKey(filtered, StateKey, c) <==> c in States(filtered) {
      if c in States(filtered) {
        var x :| x in filtered && x.stateAbbr == Some(c);
      }
    }
  }

  /** The years of the (year, state) groups are the years of the rows that carry a code. */
  lemma YearsOfStateKeys(filtered: seq<CrimeRecord>)
    ensures (set k: (int, string) | k in KeySet(KeyedBy(filtered, YearStateKey, ViolentCrimes)) :: k.0)
         == set x | x in filtered && x.stateAbbr.Some? :: x.year
  {
    var t := KeyedBy(filtered, YearStateKey, ViolentCrimes);
    forall x | x in filtered && x.stateAbbr.Some? ensures x.year in set k: (int, string) | k in KeySet(t) :: k.0 {
      assert HasKey(filtered, YearStateKey, (x.year, x.stateAbbr.value));
    }
    forall k: (int, string) | k in KeySet(t) ensures k.0 in set x | x in filtered && x.stateAbbr.Some? :: x.year {
      var x :| x in filtered && YearStateKey(x) == Some(k);
    }
  }

  /** Some row of the year range falls in year `y` and carries the three-way label `a`. */
  ghost predicate LabelledRow(df: seq<CrimeRecord>, lo: int, hi: int, y: int, a: Party) {
    exists x :: x in df && lo <= x.year <= hi && x.year == y && Classify(x.stateAbbr) == a
  }

  /** A labelled row of the year range yields its (year, label) group. */
  lemma PartyKeyFromRow(df: seq<CrimeRecord>, lo: int, hi: int, y: int, a: Party)
    requires LabelledRow(df, lo, hi, y, a)
    ensures HasKey(FilterByYear(AnnotateParty(df), lo, hi), YearPartyKey, (y, a))
  {
    var annotated := AnnotateParty(df);
    var x :| x in df && lo <= x.year <= hi && x.year == y && Classify(x.stateAbbr) == a;
    var i :| 0 <= i < |df| && df[i] == x;
    assert annotated[i] == PartyRow(x, a);
    assert annotated[i] in FilterByYear(annotated, lo, hi);
  }

  /** A (year, label) group comes from a labelled row of the year range. */
  lemma PartyKeyToRow(df: seq<CrimeRecord>, lo: int, hi: int, y: int, a: Party)
    requires HasKey(FilterByYear(AnnotateParty(df), lo, hi), YearPartyKey, (y, a))
    ensures LabelledRow(df, lo, hi, y, a)
  {
    var annotated := AnnotateParty(df);
    var p :| p in FilterByYear(annotated, lo, hi) && YearPartyKey(p) == Some((y, a));
    var i :| 0 <= i < |annotated| && annotated[i] == p;
    assert df[i] in df && df[i].year == y && Classify(df[i].stateAbbr) == a;
  }

  /** The (year, label) groups are exactly the pairs some row of the year range carries. */
  lemma PartyKeys(df: seq<CrimeRecord>, lo: int, hi: int, perCapita: (CrimeRecord, Crime) -> Option<int>, crime: Crime, y: int, a: Party)
    ensures (y, a) in KeySet(KeyedBy(FilterByYear(AnnotateParty(df), lo, hi), YearPartyKey, PartyRate(perCapita, crime)))
        <==> LabelledRow(df, lo, hi, y, a)
  {
    if LabelledRow(df, lo, hi, y, a) {
      PartyKeyFromRow(df, lo, hi, y, a);
    }
    if HasKey(FilterByYear(AnnotateParty(df), lo, hi), YearPartyKey, (y, a)) {
      PartyKeyToRow(df, lo, hi, y, a);
    }
  }

  /** A row with a null code inside the year range (a national total) gives its year a value under Other. */
  lemma NullCodesCountAsOther(df: seq<CrimeRecord>, lo: int, hi: int, perCapita: (CrimeRecord, Crime) -> Option<int>, crime: Crime, x: CrimeRecord)
    requires x in df && lo <= x.year <= hi && x.stateAbbr.None?
    ensures x.year in PartyTrend(df, lo, hi, perCapita, crime) && Other in PartyTrend(df, lo, hi, perCapita, crime)[x.year]
    ensures PartyTrend(df, lo, hi, perCapita, crime)[x.year][Other].Some?
  {
    assert LabelledRow(df, lo, hi, x.year, Other);
  }

  /** With "Select All States", the filter keeps the rows of the year range whose code the affiliation admits. */
  lemma SelectAllKeepsAdmitted(df: seq<CrimeRecord>, lo: int, hi: int, choice: Choice, chosen: seq<string>)
    ensures FilterByYearAndStates(df, lo, hi, SelectedStates(df, choice, true, chosen))
         == Keep(df, x => InYearRange(x, lo, hi) && x.stateAbbr.Some? && Admits(choice, x.stateAbbr.value))
  {
    var selected := SelectedStates(df, choice, true, chosen);
    forall x | x in df
      ensures (InYearRange(x, lo, hi) && InStates(x, selected))
           == (InYearRange(x, lo, hi) && x.stateAbbr.Some? && Admits(choice, x.stateAbbr.value))
    {
      if x.stateAbbr.Some? {
        assert Present(df, x.stateAbbr.value);
      }
    }
    KeepCongruent(df, x => InYearRange(x, lo, hi) && InStates(x, selected),
                      x => InYearRange(x, lo, hi) && x.stateAbbr.Some? && Admits(choice, x.stateAbbr.value));
  }

  /** The affiliation trends use the year range only: the state selection never changes them. */
  lemma TrendsIgnoreStateSelection(df: seq<CrimeRecord>, lo: int, hi: int, specific: Crime,
                                   perCapita: (CrimeRecord, Crime) -> Option<int>,
                                   choice1: Choice, selectAll1: bool, chosen1: seq<string>,
                                   choice2: Choice, selectAll2: bool, chosen2: seq<string>)
    requires Run(df, lo, hi, choice1, selectAll1, chosen1, specific, perCapita).Views?
    requires Run(df, lo, hi, choice2, selectAll2, chosen2, specific, perCapita).Views?
    ensures Run(df, lo, hi, choice1, selectAll1, chosen1, specific, perCapita).partyTrend
         == Run(df, lo, hi, choice2, selectAll2, chosen2, specific, perCapita).partyTrend
    ensures Run(df, lo, hi, choice1, selectAll1, chosen1, specific, perCapita).specificTrend
         == Run(df, lo, hi, choice2, selectAll2, chosen2, specific, perCapita).specificTrend
  {
  }

  /** The states of the (year, state) groups are the states of the filtered rows. */
  lemma StatesOfStateKeys(filtered: seq<CrimeRecord>)
    ensures (set k: (int, string) | k in KeySet(KeyedBy(filtered, YearStateKey, ViolentCrimes)) :: k.1) == States(filtered)
  {
    var t := KeyedBy(filtered, YearStateKey, ViolentCrimes);
    forall c | c in States(filtered) ensures c in set k: (int, string) | k in KeySet(t) :: k.1 {
      var x :| x in filtered && x.stateAbbr == Some(c);
      assert HasKey(filtered, YearStateKey, (x.year, c));
    }
    forall k: (int, string) | k in KeySet(t) ensures k.1 in States(filtered) {
      var x :| x in filtered && YearStateKey(x) == Some(k);
    }
  }

  /** The (year, label) groups of an affiliation trend are the pairs the rows of the year range carry. */
  lemma PartyKeySet(df: seq<CrimeRecord>, lo: int, hi: int, perCapita: (CrimeRecord, Crime) -> Option<int>, crime: Crime)
    ensures KeySet(KeyedBy(FilterByYear(AnnotateParty(df), lo, hi), YearPartyKey, PartyRate(perCapita, crime)))
         == LabelledPairs(df, lo, hi)
  {
    var t := KeyedBy(FilterByYear(AnnotateParty(df), lo, hi), YearPartyKey, PartyRate(perCapita, crime));
    forall k: (int, Party) ensures k in KeySet(t) <==> k in LabelledPairs(df, lo, hi) {
      PartyKeys(df, lo, hi, perCapita, crime, k.0, k.1);
      if LabelledRow(df, lo, hi, k.0, k.1) {
        var x :| x in df && lo <= x.year <= hi && x.year == k.0 && Classify(x.stateAbbr) == k.1;
        assert (x.year, Classify(x.stateAbbr)) == k;
      }
    }
  }

  /** The years and the labels of the labelled pairs. */
  lemma ImagesOfPairs(df: seq<CrimeRecord>, lo: int, hi: int)
    ensures (set k | k in LabelledPairs(df, lo, hi) :: k.0) == set x | x in df && lo <= x.year <= hi :: x.year
    ensures (set k | k in LabelledPairs(df, lo, hi) :: k.1) == set x | x in df && lo <= x.year <= hi :: Classify(x.stateAbbr)
  {
    forall x | x in df && lo <= x.year <= hi
      ensures x.year in set k | k in LabelledPairs(df, lo, hi) :: k.0
      ensures Classify(x.stateAbbr) in set k | k in LabelledPairs(df, lo, hi) :: k.1
    {
      assert (x.year, Classify(x.stateAbbr)) in LabelledPairs(df, lo, hi);
    }
  }

  /** Labelling the table row by row. */
  lemma AnnotateCons(df: seq<CrimeRecord>)
    requires df != []
    ensures AnnotateParty(df) == [PartyRow(df[0], Classify(df[0].stateAbbr))] + AnnotateParty(df[1..])
  {
  }

  /** The year filter looks at one row at a time. */
  lemma FilterCons(r: PartyRow, rest: seq<PartyRow>, lo: int, hi: int)
    ensures FilterByYear([r] + rest, lo, hi)
         == if lo <= r.record.year <= hi then [r] + FilterByYear(rest, lo, hi) else FilterByYear(rest, lo, hi)
  {
    assert ([r] + rest)[0] == r && ([r] + rest)[1..] == rest;
  }

  /** Summing over a leading row adds that row's contribution. */
  lemma RowsSumCons<R, K>(r: R, rest: seq<R>, key: R -> Option<K>, value: R -> Option<int>, k: K)
    ensures RowsSum([r] + rest, key, value, k)
         == (if key(r) == Some(k) then Contribution(value(r)) else 0) + RowsSum(rest, key, value, k)
  {
    assert ([r] + rest)[0] == r && ([r] + rest)[1..] == rest;
  }

  /** The (year, label) key of a labelled row inside the year range; rows outside it have none. */
  function RangeKey(lo: int, hi: int): PartyRow -> Option<(int, Party)> {
    (p: PartyRow) => if lo <= p.record.year <= hi then YearPartyKey(p) else None
  }

  /** Filtering by year before summing is summing under the range-restricted key. */
  lemma {:induction false} FilterSum(rows: seq<PartyRow>, lo: int, hi: int, rate: PartyRow -> Option<int>, k: (int, Party))
    ensures RowsSum(FilterByYear(rows, lo, hi), YearPartyKey, rate, k) == RowsSum(rows, RangeKey(lo, hi), rate, k)
  {
    if rows != [] {
      var r := rows[0];
      assert rows == [r] + rows[1..];
      FilterCons(r, rows[1..], lo, hi);
      FilterSum(rows[1..], lo, hi, rate, k);
      RowsSumCons(r, rows[1..], RangeKey(lo, hi), rate, k);
      if lo <= r.record.year <= hi {
        RowsSumCons(r, FilterByYear(rows[1..], lo, hi), YearPartyKey, rate, k);
      }
    }
  }

  /** Summing the labelled table under the range-restricted key is the labelled sum over the table. */
  lemma {:induction false} AnnotatedSum(df: seq<CrimeRecord>, lo: int, hi: int, perCapita: (CrimeRecord, Crime) -> Option<int>,
                                        crime: Crime, y: int, a: Party)
    ensures RowsSum(AnnotateParty(df), RangeKey(lo, hi), PartyRate(perCapita, crime), (y, a))
         == LabelledSum(df, lo, hi, perCapita, crime, y, a)
  {
    if df != [] {
      var r := PartyRow(df[0], Classify(df[0].stateAbbr));
      AnnotateCons(df);
      AnnotatedSum(df[1..], lo, hi, perCapita, crime, y, a);
      RowsSumCons(r, AnnotateParty(df[1..]), RangeKey(lo, hi), PartyRate(perCapita, crime), (y, a));
      assert PartyRate(perCapita, crime)(r) == perCapita(df[0], crime);
    }
  }

  /** Each affiliation-trend group sums the rate over exactly the labelled rows of its year in the range. */
  lemma PartySums(df: seq<CrimeRecord>, lo: int, hi: int, perCapita: (CrimeRecord, Crime) -> Option<int>,
                  crime: Crime, y: int, a: Party)
    ensures RowsSum(FilterByYear(AnnotateParty(df), lo, hi), YearPartyKey, PartyRate(perCapita, crime), (y, a))
         == LabelledSum(df, lo, hi, perCapita, crime, y, a)
  {
    FilterSum(AnnotateParty(df), lo, hi, PartyRate(perCapita, crime), (y, a));
    AnnotatedSum(df, lo, hi, perCapita, crime, y, a);
  }
}
