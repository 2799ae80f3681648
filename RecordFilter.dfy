/**
 * The row filters and the columns the dashboard adds to its tables: the three-way affiliation
 * of every row of the full table, and the two-way affiliation and its numeric flag on the rows
 * shown on the map.
 */
module RecordFilter {
  import opened Wrappers
  import opened Sequences
  import opened Records
  import opened Affiliation

  /** `lo <= year <= hi`, both ends included as the slider's tuple is. */
  predicate InYearRange(x: CrimeRecord, lo: int, hi: int) {
    lo <= x.year <= hi
  }

  /** `state_abbr.isin(selected)`: a null code is never in the selection. */
  predicate InStates(x: CrimeRecord, selected: seq<string>) {
    x.stateAbbr.Some? && x.stateAbbr.value in selected
  }

  /**
   * `filtered_df`: the rows inside the year range whose code is selected, in table order.
   * A row with a null code never survives.
   */
  function FilterByYearAndStates(df: seq<CrimeRecord>, lo: int, hi: int, selected: seq<string>): (rows: seq<CrimeRecord>)
    ensures |rows| <= |df|
    ensures forall x :: x in rows <==> x in df && lo <= x.year <= hi && x.stateAbbr.Some? && x.stateAbbr.value in selected
    ensures SubsequenceOf(rows, df)
    ensures forall x :: multiset(rows)[x] ==
                        (if lo <= x.year <= hi && x.stateAbbr.Some? && x.stateAbbr.value in selected then multiset(df)[x] else 0)
  {
    Keep(df, x => InYearRange(x, lo, hi) && InStates(x, selected))
  }

  /** A row of the full table with its `political_affiliation` column. */
  datatype PartyRow = PartyRow(record: CrimeRecord, affiliation: Party)

  /** `df['political_affiliation'] = ...`: every row labelled by the three-way classifier. */
  function AnnotateParty(df: seq<CrimeRecord>): (rows: seq<PartyRow>)
    ensures |rows| == |df|
    ensures forall i :: 0 <= i < |df| ==> rows[i].record == df[i]
    ensures forall i :: 0 <= i < |df| ==>
      (rows[i].affiliation == Republican <==> df[i].stateAbbr.Some? && df[i].stateAbbr.value in RepublicanCodes)
    ensures forall i :: 0 <= i < |df| ==>
      (rows[i].affiliation == Democratic <==> df[i].stateAbbr.Some? && df[i].stateAbbr.value in DemocraticCodes)
    ensures forall i :: 0 <= i < |df| && df[i].stateAbbr.None? ==> rows[i].affiliation == Other
  {
    seq(|df|, i requires 0 <= i < |df| => PartyRow(df[i], Classify(df[i].stateAbbr)))
  }

  /** `filtered_political_df`: the labelled rows inside the year range, whatever their state. */
  function FilterByYear(rows: seq<PartyRow>, lo: int, hi: int): (kept: seq<PartyRow>)
    ensures |kept| <= |rows|
    ensures forall p :: p in kept <==> p in rows && lo <= p.record.year <= hi
    ensures SubsequenceOf(kept, rows)
    ensures forall p :: multiset(kept)[p] == if lo <= p.record.year <= hi then multiset(rows)[p] else 0
  {
    Keep(rows, (p: PartyRow) => InYearRange(p.record, lo, hi))
  }

  /** A row of `filtered_df` as the choropleth receives it. */
  datatype MapRow = MapRow(record: CrimeRecord, affiliation: Party, affiliationNumeric: int)

  /**
   * The `political_affiliation` and `affiliation_numeric` columns of `filtered_df`: Republican
   * and 1 exactly for codes on the Republican list, Democratic and 0 for every other row.
   */
  function AnnotateForMap(rows: seq<CrimeRecord>): (out: seq<MapRow>)
    ensures |out| == |rows|
    ensures forall i :: 0 <= i < |rows| ==> out[i].record == rows[i]
    ensures forall i :: 0 <= i < |rows| ==>
      (out[i].affiliation == Republican <==> rows[i].stateAbbr.Some? && rows[i].stateAbbr.value in RepublicanCodes)
    ensures forall i :: 0 <= i < |rows| ==> out[i].affiliation in {Republican, Democratic}
    ensures forall i :: 0 <= i < |rows| ==> out[i].affiliationNumeric in {0, 1}
    ensures forall i :: 0 <= i < |rows| ==> (out[i].affiliationNumeric == 1 <==> out[i].affiliation == Republican)
  {
    seq(|rows|, i requires 0 <= i < |rows| =>
      var p := ClassifyTwoWay(rows[i].stateAbbr);
      MapRow(rows[i], p, AffiliationNumeric(p)))
  }
}
