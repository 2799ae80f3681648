/**
 * `df[[keys..., col]].groupby(keys).sum()`, generic over the key type (a state code, a
 * (year, state) pair, a (year, affiliation) pair). Rows are already reduced to (key, cell)
 * pairs; a missing cell is skipped by the sum, so a group whose cells are all missing sums to 0.
 */
module GroupBy {
  import opened Wrappers
  import opened Sequences

  /** What one cell adds to a pandas sum: its value, or nothing when it is NaN. */
  function Contribution(v: Option<int>): int {
    v.GetOr(0)
  }

  /** The sum of the column over the rows whose key is `k`. */
  function SumFor<K(==)>(rows: seq<(K, Option<int>)>, k: K): int {
    if rows == [] then 0
    else (if rows[0].0 == k then Contribution(rows[0].1) else 0) + SumFor(rows[1..], k)
  }

  /** The sum of the whole column. */
  function Total<K>(rows: seq<(K, Option<int>)>): int {
    if rows == [] then 0 else Contribution(rows[0].1) + Total(rows[1..])
  }

  /** The keys that occur in the input. */
  function KeySet<K(!new)>(rows: seq<(K, Option<int>)>): set<K> {
    set r | r in rows :: r.0
  }

  /** The keys of an output table. */
  function TableKeys<K(!new), V(==,!new)>(t: seq<(K, V)>): set<K> {
    set p | p in t :: p.0
  }

  /** No two rows of a table share a key. */
  predicate KeysUnique<K(==), V>(t: seq<(K, V)>) {
    forall i, j :: 0 <= i < j < |t| ==> t[i].0 != t[j].0
  }

  /** The sum of the value column of a grouped table. */
  function SumValues<K>(t: seq<(K, int)>): int {
    if t == [] then 0 else t[0].1 + SumValues(t[1..])
  }

  /** The key column of the rows, in row order. */
  function KeyColumn<K>(rows: seq<(K, Option<int>)>): (ks: seq<K>)
    ensures |ks| == |rows| && forall i :: 0 <= i < |rows| ==> ks[i] == rows[i].0
  {
    seq(|rows|, i requires 0 <= i < |rows| => rows[i].0)
  }

  /** One output row per key of `ks`, in that order. */
  function Tabulate<K(==)>(ks: seq<K>, rows: seq<(K, Option<int>)>): (t: seq<(K, int)>)
    ensures |t| == |ks|
    ensures forall i :: 0 <= i < |ks| ==> t[i] == (ks[i], SumFor(rows, ks[i]))
  {
    if ks == [] then [] else [(ks[0], SumFor(rows, ks[0]))] + Tabulate(ks[1..], rows)
  }

  /**
   * The grouped table: exactly one row per distinct key of the input, holding the sum of the
   * column over the rows with that key.
   */
  function GroupSum<K(==,!new)>(rows: seq<(K, Option<int>)>): (g: seq<(K, int)>)
    ensures KeysUnique(g)
    ensures TableKeys(g) == KeySet(rows)
    ensures forall p :: p in g ==> p.1 == SumFor(rows, p.0)
    ensures forall k :: k in KeySet(rows) ==> (k, SumFor(rows, k)) in g
  {
    var ks := Dedup(KeyColumn(rows));
    KeyColumnKeys(rows);
    TabulateKeys(ks, rows);
    Tabulate(ks, rows)
  }

  /** The key column holds exactly the keys of the rows. */
  lemma KeyColumnKeys<K(!new)>(rows: seq<(K, Option<int>)>)
    ensures forall k :: k in KeyColumn(rows) <==> k in KeySet(rows)
  {
    forall k | k in KeySet(rows) ensures k in KeyColumn(rows) {
      var r :| r in rows && r.0 == k;
      var i :| 0 <= i < |rows| && rows[i] == r;
      assert KeyColumn(rows)[i] == k;
    }
    forall k | k in KeyColumn(rows) ensures k in KeySet(rows) {
      var i :| 0 <= i < |KeyColumn(rows)| && KeyColumn(rows)[i] == k;
      assert rows[i] in rows;
    }
  }

  /** Tabulating the distinct keys of the rows gives one row per key, holding its sum. */
  lemma TabulateKeys<K(!new)>(ks: seq<K>, rows: seq<(K, Option<int>)>)
    requires NoDuplicates(ks)
    requires forall k :: k in ks <==> k in KeySet(rows)
    ensures KeysUnique(Tabulate(ks, rows))
    ensures TableKeys(Tabulate(ks, rows)) == KeySet(rows)
    ensures forall p :: p in Tabulate(ks, rows) ==> p.1 == SumFor(rows, p.0)
    ensures forall k :: k in KeySet(rows) ==> (k, SumFor(rows, k)) in Tabulate(ks, rows)
  {
    var g := Tabulate(ks, rows);
    forall k | k in ks ensures (k, SumFor(rows, k)) in g {
      var i :| 0 <= i < |ks| && ks[i] == k;
      assert g[i] == (k, SumFor(rows, k));
    }
    forall k | k in TableKeys(g) ensures k in ks {
      var p :| p in g && p.0 == k;
      var i :| 0 <= i < |g| && g[i] == p;
    }
  }

  /** A key that no input row carries has no row in the grouped table. */
  lemma AbsentGroup<K(!new)>(rows: seq<(K, Option<int>)>, k: K)
    requires k !in KeySet(rows)
    ensures forall v :: (k, v) !in GroupSum(rows)
  {
  }

  /** Taking out the row at position `i` takes its contribution out of its group's sum. */
  lemma {:induction false} SumForRemove<K>(s: seq<(K, Option<int>)>, i: nat, k: K)
    requires i < |s|
    ensures SumFor(s, k) == (if s[i].0 == k then Contribution(s[i].1) else 0) + SumFor(s[..i] + s[i + 1..], k)
  {
    if i == 0 {
      assert s[..i] + s[i + 1..] == s[1..];
    } else {
      var rest := s[..i] + s[i + 1..];
      assert rest[0] == s[0] && rest[1..] == s[1..][..i - 1] + s[1..][i..];
      SumForRemove(s[1..], i - 1, k);
    }
  }

  /** Taking out the row at position `i` takes one copy of it out of the multiset of rows. */
  lemma MultisetRemove<T>(s: seq<T>, i: nat)
    requires i < |s|
    ensures multiset(s[..i] + s[i + 1..]) == multiset(s) - multiset{s[i]}
  {
    assert s == s[..i] + [s[i]] + s[i + 1..];
    assert multiset(s) == multiset(s[..i]) + multiset{s[i]} + multiset(s[i + 1..]);
  }

  /** Taking the first row out of one and a copy of it out of the other leaves equal multisets. */
  lemma MatchFirstRow<T>(rows: seq<T>, rows': seq<T>, i: nat)
    requires rows != [] && i < |rows'| && rows'[i] == rows[0]
    requires multiset(rows) == multiset(rows')
    ensures multiset(rows[1..]) == multiset(rows'[..i] + rows'[i + 1..])
  {
    assert rows == [rows[0]] + rows[1..];
    assert multiset(rows[1..]) == multiset(rows) - multiset{rows[0]};
    MultisetRemove(rows', i);
  }

  /** A group's sum depends only on the multiset of rows, not on their order. */
  lemma {:induction false} SumForPermutation<K>(rows: seq<(K, Option<int>)>, rows': seq<(K, Option<int>)>, k: K)
    requires multiset(rows) == multiset(rows')
    ensures SumFor(rows, k) == SumFor(rows', k)
    decreases |rows|
  {
    if rows == [] {
      assert |rows'| == |multiset(rows')| == 0;
    } else {
      var x := rows[0];
      assert x in multiset(rows');
      var i :| 0 <= i < |rows'| && rows'[i] == x;
      var rest' := rows'[..i] + rows'[i + 1..];
      MatchFirstRow(rows, rows', i);
      SumForPermutation(rows[1..], rest', k);
      SumForRemove(rows', i, k);
    }
  }

  /** Permuting the input rows never changes the grouped table, up to the order of its rows. */
  lemma GroupSumOrderIndependent<K(!new)>(rows: seq<(K, Option<int>)>, rows': seq<(K, Option<int>)>)
    requires multiset(rows) == multiset(rows')
    ensures forall p :: p in GroupSum(rows) <==> p in GroupSum(rows')
  {
    assert KeySet(rows) == KeySet(rows') by {
      forall r ensures r in rows <==> r in rows' {
        assert r in rows <==> r in multiset(rows);
        assert r in rows' <==> r in multiset(rows');
      }
    }
    forall k ensures SumFor(rows, k) == SumFor(rows', k) {
      SumForPermutation(rows, rows', k);
    }
  }

  /** Moving the first row out: it adds to the one key of `ks` it matches. */
  lemma {:induction false} PeelRow<K>(ks: seq<K>, r: (K, Option<int>), rest: seq<(K, Option<int>)>)
    requires NoDuplicates(ks)
    ensures SumValues(Tabulate(ks, [r] + rest))
         == SumValues(Tabulate(ks, rest)) + (if r.0 in ks then Contribution(r.1) else 0)
  {
    if ks != [] {
      var rows := [r] + rest;
      assert rows[0] == r && rows[1..] == rest;
      assert Tabulate(ks, rows)[1..] == Tabulate(ks[1..], rows);
      assert Tabulate(ks, rest)[1..] == Tabulate(ks[1..], rest);
      PeelRow(ks[1..], r, rest);
      assert r.0 in ks <==> r.0 == ks[0] || r.0 in ks[1..];
      assert ks[0] !in ks[1..];
    }
  }

  /** Summing the groups over a duplicate-free list of keys that covers every row gives the column total. */
  lemma {:induction false} TotalOverKeys<K>(ks: seq<K>, rows: seq<(K, Option<int>)>)
    requires NoDuplicates(ks)
    requires forall r :: r in rows ==> r.0 in ks
    ensures SumValues(Tabulate(ks, rows)) == Total(rows)
  {
    if rows == [] {
      ZeroTable(ks);
    } else {
      assert rows == [rows[0]] + rows[1..];
      TotalOverKeys(ks, rows[1..]);
      PeelRow(ks, rows[0], rows[1..]);
    }
  }

  /** Over no rows every key sums to 0, so the whole table does. */
  lemma {:induction false} ZeroTable<K>(ks: seq<K>)
    ensures SumValues(Tabulate(ks, [])) == 0
  {
    if ks != [] {
      assert Tabulate(ks, [])[1..] == Tabulate(ks[1..], []);
      ZeroTable(ks[1..]);
    }
  }

  /** The group sums add up to the column total, whatever the row order. */
  lemma GroupTotal<K(!new)>(rows: seq<(K, Option<int>)>)
    ensures SumValues(GroupSum(rows)) == Total(rows)
  {
    var ks := Dedup(KeyColumn(rows));
    forall r | r in rows ensures r.0 in ks {
      var i :| 0 <= i < |rows| && rows[i] == r;
      assert KeyColumn(rows)[i] == r.0;
    }
    TotalOverKeys(ks, rows);
  }

  /** A table with unique keys has as many rows as it has keys. */
  lemma {:induction false} UniqueKeysCount<K(!new), V(!new)>(t: seq<(K, V)>)
    requires KeysUnique(t)
    ensures |TableKeys(t)| == |t|
  {
    if t != [] {
      var tail := t[1..];
      assert KeysUnique(tail) by {
        forall i, j | 0 <= i < j < |tail| ensures tail[i].0 != tail[j].0 {
          assert tail[i] == t[i + 1] && tail[j] == t[j + 1];
        }
      }
      UniqueKeysCount(tail);
      var rest := TableKeys(tail);
      assert t[0].0 !in rest by {
        forall p | p in tail ensures p.0 != t[0].0 {
          var j :| 0 <= j < |tail| && tail[j] == p;
          assert t[j + 1] == p;
        }
      }
      assert TableKeys(t) == rest + {t[0].0} by {
        forall p | p in t ensures p == t[0] || p in tail {
          var j :| 0 <= j < |t| && t[j] == p;
          if j > 0 { assert tail[j - 1] == p; }
        }
        forall p | p in tail ensures p in t {
          var j :| 0 <= j < |tail| && tail[j] == p;
          assert t[j + 1] == p;
        }
      }
    }
  }

  /** The grouped table has exactly one row per distinct key. */
  lemma GroupCount<K(!new)>(rows: seq<(K, Option<int>)>)
    ensures |GroupSum(rows)| == |KeySet(rows)|
  {
    UniqueKeysCount(GroupSum(rows));
  }
}
