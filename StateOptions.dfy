/**
 * The states offered in the sidebar: the affiliation radio narrows the codes present in the
 * data, and "Select All States" selects every offered state.
 */
module StateOptions {
  import opened Wrappers
  import opened Sequences
  import opened Records
  import opened Affiliation

  /** The radio button "Select Political Affiliation". */
  datatype Choice = AllStates | RepublicanStates | DemocraticStates

  /** Some row of the table carries the code `c`. */
  ghost predicate Present(df: seq<CrimeRecord>, c: string) {
    exists x :: x in df && x.stateAbbr == Some(c)
  }

  /** Whether the chosen affiliation admits the code `c`. */
  predicate Admits(choice: Choice, c: string) {
    match choice
    case AllStates => true
    case RepublicanStates => c in RepublicanCodes
    case DemocraticStates => c in DemocraticCodes
  }

  /** `df['state_abbr'].dropna()`: the non-null codes, in row order. */
  function StateColumn(df: seq<CrimeRecord>): (codes: seq<string>)
    ensures forall c :: c in codes <==> Present(df, c)
  {
    if df == [] then []
    else
      var rest := StateColumn(df[1..]);
      assert forall c :: Present(df, c) <==> df[0].stateAbbr == Some(c) || Present(df[1..], c) by {
        forall c ensures Present(df, c) ==> df[0].stateAbbr == Some(c) || Present(df[1..], c) {
          if Present(df, c) {
            var x :| x in df && x.stateAbbr == Some(c);
            if x != df[0] {
              var i :| 0 <= i < |df| && df[i] == x;
              assert df[1..][i - 1] == x;
            }
          }
        }
        forall c ensures Present(df[1..], c) ==> Present(df, c) {
          if Present(df[1..], c) {
            var x :| x in df[1..] && x.stateAbbr == Some(c);
            assert x in df;
          }
        }
        forall c ensures df[0].stateAbbr == Some(c) ==> Present(df, c) {
          assert df[0] in df;
        }
      }
      if df[0].stateAbbr.Some? then [df[0].stateAbbr.value] + rest else rest
  }

  /** `filtered_states`: the chosen party's code list, or every code in the data for "All". */
  function ChoiceStates(df: seq<CrimeRecord>, choice: Choice): set<string> {
    match choice
    case AllStates => set c | c in StateColumn(df)
    case RepublicanStates => RepublicanCodes
    case DemocraticStates => DemocraticCodes
  }

  /**
   * `df[df['state_abbr'].isin(filtered_states)]['state_abbr'].dropna().unique()`: every code
   * that occurs in the data and that the chosen affiliation admits, each exactly once.
   */
  function OfferedStates(df: seq<CrimeRecord>, choice: Choice): (states: seq<string>)
    ensures NoDuplicates(states)
    ensures forall c :: c in states <==> Present(df, c) && Admits(choice, c)
  {
    var admitted := ChoiceStates(df, choice);
    Dedup(Keep(StateColumn(df), c => c in admitted))
  }

  /**
   * `selected_state`: with "Select All States" ticked, every offered state, each once;
   * otherwise the multiselect's value as the user left it.
   */
  function SelectedStates(df: seq<CrimeRecord>, choice: Choice, selectAll: bool, chosen: seq<string>): (selected: seq<string>)
    ensures selectAll ==> NoDuplicates(selected)
    ensures selectAll ==> forall c :: c in selected <==> Present(df, c) && Admits(choice, c)
    ensures !selectAll ==> selected == chosen
  {
    if selectAll then OfferedStates(df, choice) else chosen
  }
}
