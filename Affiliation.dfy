/** The static state-code lists and the classifiers built on them. */
module Affiliation {
  import opened Wrappers

  datatype Party = Republican | Democratic | Other

  /** `political_affiliation['Republican']`. */
  const RepublicanCodes: set<string> :=
    {"AL", "AK", "AR", "FL", "GA", "ID", "IN", "IA", "KS", "KY", "LA", "MO", "MS", "MT", "NE", "ND",
     "OK", "SC", "SD", "TN", "TX", "UT", "WV", "WY"}

  /** `political_affiliation['Democratic']`. */
  const DemocraticCodes: set<string> :=
    {"CA", "CO", "CT", "DE", "HI", "IL", "ME", "MD", "MA", "MI", "MN", "NV", "NJ", "NM", "NY", "NC",
     "OR", "PA", "RI", "VA", "VT", "WA", "WI"}

  /** No code is on both lists, so the three-way label of a code is unambiguous. */
  lemma ListsDisjoint()
    ensures RepublicanCodes !! DemocraticCodes
  {
  }

  /**
   * The three-way label given to every row of the full table: Republican, else Democratic,
   * else Other. A null code is on neither list, so aggregate rows are Other.
   */
  function Classify(code: Option<string>): (p: Party)
    ensures p == Republican <==> code.Some? && code.value in RepublicanCodes
    ensures p == Democratic <==> code.Some? && code.value in DemocraticCodes
    ensures p == Other <==> code.None? || (code.value !in RepublicanCodes && code.value !in DemocraticCodes)
  {
    ListsDisjoint();
    if code.Some? && code.value in RepublicanCodes then Republican
    else if code.Some? && code.value in DemocraticCodes then Democratic
    else Other
  }

  /**
   * The two-way label given to the filtered rows for the map: Republican when the code is on
   * the Republican list and Democratic for everything else.
   */
  function ClassifyTwoWay(code: Option<string>): (p: Party)
    ensures p != Other
    ensures p == Republican <==> code.Some? && code.value in RepublicanCodes
  {
    if code.Some? && code.value in RepublicanCodes then Republican else Democratic
  }

  /** The two classifiers agree except that the two-way one folds Other into Democratic. */
  lemma TwoWayFoldsOther(code: Option<string>)
    ensures ClassifyTwoWay(code) == (if Classify(code) == Republican then Republican else Democratic)
    ensures Classify(code) != Other ==> ClassifyTwoWay(code) == Classify(code)
  {
  }

  /** A code on neither list is Other in the trend and Democratic on the map. */
  lemma UnlistedCode(c: string)
    requires c !in RepublicanCodes && c !in DemocraticCodes
    ensures Classify(Some(c)) == Other && ClassifyTwoWay(Some(c)) == Democratic
  {
  }

  /** Arizona, New Hampshire and Ohio are such codes. */
  lemma UnlistedStatesDiffer()
    ensures Classify(Some("AZ")) == Other && ClassifyTwoWay(Some("AZ")) == Democratic
    ensures Classify(Some("NH")) == Other && ClassifyTwoWay(Some("NH")) == Democratic
    ensures Classify(Some("OH")) == Other && ClassifyTwoWay(Some("OH")) == Democratic
  {
    UnlistedCode("AZ");
    UnlistedCode("NH");
    UnlistedCode("OH");
  }

  /** `affiliation_numeric`: the colour flag, 1 for Republican and 0 otherwise. */
  function AffiliationNumeric(p: Party): (n: int)
    ensures n == 1 <==> p == Republican
    ensures n == 0 <==> p != Republican
  {
    if p == Republican then 1 else 0
  }
}
