/**
 * `grouped.pivot(index='year', columns=key, values=col)`: a (year, key, value) table reshaped
 * into a year-by-key matrix. Rows are the years that occur, columns the keys that occur, and a
 * cell with no matching (year, key) row is NaN (None): nothing is zero-filled or densified.
 */
module Pivot {
  import opened Wrappers
  import opened GroupBy

  type Matrix<C> = map<int, map<C, Option<int>>>

  /** The years that occur in the table. */
  function Years<C(==,!new)>(t: seq<((int, C), int)>): set<int> {
    set p | p in t :: p.0.0
  }

  /** The column keys that occur in the table. */
  function Columns<C(==,!new)>(t: seq<((int, C), int)>): set<C> {
    set p | p in t :: p.0.1
  }

  /** The value of the first row with key `k`, if any. */
  function Lookup<K(==), V>(t: seq<(K, V)>, k: K): (r: Option<V>)
    ensures r.Some? ==> (k, r.value) in t
    ensures r.None? ==> forall i :: 0 <= i < |t| ==> t[i].0 != k
  {
    if t == [] then None
    else if t[0].0 == k then Some(t[0].1)
    else
      var r := Lookup(t[1..], k);
      assert r.None? ==> forall i :: 1 <= i < |t| ==> t[i] == t[1..][i - 1];
      r
  }

  /** With unique keys, two rows with the same key are the same row. */
  lemma UniqueKeyValue<K, V>(t: seq<(K, V)>, k: K, v: V, w: V)
    requires KeysUnique(t) && (k, v) in t && (k, w) in t
    ensures v == w
  {
    var i :| 0 <= i < |t| && t[i] == (k, v);
    var j :| 0 <= j < |t| && t[j] == (k, w);
    if i < j {
      assert t[i].0 == t[j].0;
    } else if j < i {
      assert t[j].0 == t[i].0;
    }
  }

  /** The cell for (year, key): the value of that row when the table holds one, else None. */
  lemma CellValue<C>(t: seq<((int, C), int)>, y: int, c: C)
    requires KeysUnique(t)
    ensures forall v :: Lookup(t, (y, c)) == Some(v) <==> ((y, c), v) in t
  {
    var cell := Lookup(t, (y, c));
    forall v | ((y, c), v) in t ensures cell == Some(v) {
      var i :| 0 <= i < |t| && t[i] == ((y, c), v);
      UniqueKeyValue(t, (y, c), v, cell.value);
    }
  }

  /** One row of the matrix: a cell for every column key of the table. */
  function PivotRow<C(==,!new)>(t: seq<((int, C), int)>, y: int): (row: map<C, Option<int>>)
    requires KeysUnique(t)
    ensures row.Keys == Columns(t)
    ensures forall c, v :: c in row ==> (row[c] == Some(v) <==> ((y, c), v) in t)
  {
    var row := map c | c in Columns(t) :: Lookup(t, (y, c));
    forall c | c in row ensures forall v :: row[c] == Some(v) <==> ((y, c), v) in t {
      CellValue(t, y, c);
    }
    row
  }

  /**
   * The pivot of a table with unique (year, key) pairs (pandas refuses duplicates): one row per
   * year present, one column per key present, and a cell holds `v` exactly when the row
   * ((year, key), v) is in the table; every other cell is None.
   */
  function PivotTable<C(==,!new)>(t: seq<((int, C), int)>): (m: Matrix<C>)
    requires KeysUnique(t)
    ensures m.Keys == Years(t)
    ensures forall y :: y in m ==> m[y].Keys == Columns(t)
    ensures forall y, c, v :: y in m && c in m[y] ==> (m[y][c] == Some(v) <==> ((y, c), v) in t)
  {
    map y | y in Years(t) :: PivotRow(t, y)
  }
}

/** The pivots the dashboard draws are all taken of a freshly grouped table. */
module GroupedPivot {
  import opened Wrappers
  import opened GroupBy
  import opened Pivot

  /** The rows of the pivot of grouped sums are the years of the groups. */
  lemma PivotYears<C(!new)>(rows: seq<((int, C), Option<int>)>)
    ensures PivotTable(GroupSum(rows)).Keys == set k | k in KeySet(rows) :: k.0
  {
    var g := GroupSum(rows);
    forall y | y in Years(g) ensures y in set k | k in KeySet(rows) :: k.0 {
      var p :| p in g && p.0.0 == y;
      assert p.0 in TableKeys(g);
    }
    forall k | k in KeySet(rows) ensures k.0 in Years(g) {
      assert (k, SumFor(rows, k)) in g;
    }
  }

  /** Every row of the pivot of grouped sums has a column per key of the groups. */
  lemma PivotColumns<C(!new)>(rows: seq<((int, C), Option<int>)>, y: int)
    requires y in PivotTable(GroupSum(rows))
    ensures PivotTable(GroupSum(rows))[y].Keys == set k | k in KeySet(rows) :: k.1
  {
    var g := GroupSum(rows);
    forall c | c in Columns(g) ensures c in set k | k in KeySet(rows) :: k.1 {
      var p :| p in g && p.0.1 == c;
      assert p.0 in TableKeys(g);
    }
    forall k | k in KeySet(rows) ensures k.1 in Columns(g) {
      assert (k, SumFor(rows, k)) in g;
    }
  }

  /**
   * The cell (year, key) of the pivot of grouped sums exists when that group does, and holds
   * the group's sum when the group exists and None otherwise.
   */
  lemma PivotCell<C(!new)>(rows: seq<((int, C), Option<int>)>, y: int, c: C)
    ensures (y, c) in KeySet(rows) ==> y in PivotTable(GroupSum(rows)) && c in PivotTable(GroupSum(rows))[y]
    ensures y in PivotTable(GroupSum(rows)) && c in PivotTable(GroupSum(rows))[y] ==>
      PivotTable(GroupSum(rows))[y][c] == (if (y, c) in KeySet(rows) then Some(SumFor(rows, (y, c))) else None)
  {
    var g := GroupSum(rows);
    if (y, c) in KeySet(rows) {
      assert ((y, c), SumFor(rows, (y, c))) in g;
    } else {
      AbsentGroup(rows, (y, c));
    }
  }
}
