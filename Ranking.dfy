/**
 * `.sort_values(by=col, ascending=False).head(n)` on a grouped table. pandas' default sort is
 * not stable, so the order among equal values is left open.
 */
module Ranking {
  import opened GroupBy
  import opened Wrappers

  /** Values never increase along the table. */
  predicate SortedDesc<K>(s: seq<(K, int)>) {
    forall i, j :: 0 <= i < j < |s| ==> s[i].1 >= s[j].1
  }

  /** The smaller of two integers. */
  function Min(a: int, b: int): int {
    if a < b then a else b
  }

  /** A row at least as large as every row of a descending table can go in front of it. */
  lemma ConsSorted<K>(a: (K, int), s: seq<(K, int)>)
    requires SortedDesc(s)
    requires forall i :: 0 <= i < |s| ==> s[i].1 <= a.1
    ensures SortedDesc([a] + s)
  {
    var r := [a] + s;
    forall i, j | 0 <= i < j < |r| ensures r[i].1 >= r[j].1 {
      assert r[j] == s[j - 1];
      if i > 0 { assert r[i] == s[i - 1]; }
    }
  }

  /** Every row of a rearrangement of `x` and the tail of `s` is bounded by the head of `s`. */
  lemma BelowHead<K>(x: (K, int), s: seq<(K, int)>, r: seq<(K, int)>)
    requires SortedDesc(s) && s != [] && x.1 < s[0].1
    requires multiset(r) == multiset(s[1..]) + multiset{x}
    ensures forall i :: 0 <= i < |r| ==> r[i].1 <= s[0].1
  {
    forall i | 0 <= i < |r| ensures r[i].1 <= s[0].1 {
      assert r[i] in multiset(r);
      if r[i] != x {
        assert r[i] in multiset(s[1..]);
        var j :| 0 <= j < |s[1..]| && s[1..][j] == r[i];
        assert s[j + 1] == r[i];
      }
    }
  }

  /** Places `x` in a descending table. */
  function Insert<K>(x: (K, int), s: seq<(K, int)>): (r: seq<(K, int)>)
    requires SortedDesc(s)
    ensures SortedDesc(r)
    ensures multiset(r) == multiset(s) + multiset{x}
  {
    if s == [] || s[0].1 <= x.1 then
      ConsSorted(x, s);
      [x] + s
    else
      var r' := Insert(x, s[1..]);
      assert s == [s[0]] + s[1..];
      BelowHead(x, s, r');
      ConsSorted(s[0], r');
      [s[0]] + r'
  }

  /** The grouped table rearranged in non-increasing order of its value column. */
  function SortDesc<K>(s: seq<(K, int)>): (r: seq<(K, int)>)
    ensures SortedDesc(r)
    ensures multiset(r) == multiset(s)
  {
    if s == [] then []
    else
      assert s == [s[0]] + s[1..];
      Insert(s[0], SortDesc(s[1..]))
  }

  /** In a table with unique keys every row occurs at most once. */
  lemma {:induction false} UniqueKeysAtMostOnce<K, V>(t: seq<(K, V)>, x: (K, V))
    requires KeysUnique(t)
    ensures multiset(t)[x] <= 1
  {
    if t != [] {
      var tail := t[1..];
      assert t == [t[0]] + tail;
      assert KeysUnique(tail) by {
        forall i, j | 0 <= i < j < |tail| ensures tail[i].0 != tail[j].0 {
          assert tail[i] == t[i + 1] && tail[j] == t[j + 1];
        }
      }
      UniqueKeysAtMostOnce(tail, x);
      if t[0] == x {
        assert x !in tail by {
          forall j | 0 <= j < |tail| ensures tail[j] != x {
            assert tail[j] == t[j + 1];
          }
        }
      }
    }
  }

  /** A row at two positions occurs at least twice. */
  lemma Twice<T>(s: seq<T>, i: nat, j: nat)
    requires i < j < |s| && s[i] == s[j]
    ensures multiset(s)[s[i]] >= 2
  {
    assert s == s[..j] + s[j..];
    assert s[..j][i] == s[i];
    assert s[j..][0] == s[i];
    assert multiset(s) == multiset(s[..j]) + multiset(s[j..]);
  }

  /** Rearranging a table with unique keys keeps its keys unique. */
  lemma PermutationKeysUnique<K, V>(a: seq<(K, V)>, b: seq<(K, V)>)
    requires multiset(a) == multiset(b)
    requires KeysUnique(a)
    ensures KeysUnique(b)
  {
    forall i, j | 0 <= i < j < |b| ensures b[i].0 != b[j].0 {
      if b[i].0 == b[j].0 {
        assert b[i] in multiset(a) && b[j] in multiset(a);
        var i' :| 0 <= i' < |a| && a[i'] == b[i];
        var j' :| 0 <= j' < |a| && a[j'] == b[j];
        if i' == j' {
          Twice(b, i, j);
          UniqueKeysAtMostOnce(a, b[i]);
          assert false;
        } else if i' < j' {
          assert false;
        } else {
          assert false;
        }
      }
    }
  }

  /** A prefix of a descending table is descending, part of the table, and keeps keys unique. */
  lemma PrefixFacts<K>(s: seq<(K, int)>, m: nat)
    requires SortedDesc(s) && m <= |s|
    ensures SortedDesc(s[..m])
    ensures multiset(s[..m]) <= multiset(s)
    ensures KeysUnique(s) ==> KeysUnique(s[..m])
  {
    assert s == s[..m] + s[m..];
    assert multiset(s) == multiset(s[..m]) + multiset(s[m..]);
  }

  /**
   * Whatever a prefix of a descending rearrangement of `g` leaves out, counting every copy of a
   * repeated row, is no larger than what it keeps.
   */
  lemma PrefixIsTop<K>(g: seq<(K, int)>, sorted: seq<(K, int)>, m: nat)
    requires multiset(sorted) == multiset(g) && SortedDesc(sorted) && m <= |sorted|
    ensures forall i, j :: 0 <= i < |g| && 0 <= j < m && multiset(sorted[..m])[g[i]] < multiset(g)[g[i]] ==>
      g[i].1 <= sorted[..m][j].1
  {
    assert sorted == sorted[..m] + sorted[m..];
    assert multiset(sorted) == multiset(sorted[..m]) + multiset(sorted[m..]);
    forall i, j | 0 <= i < |g| && 0 <= j < m && multiset(sorted[..m])[g[i]] < multiset(g)[g[i]]
      ensures g[i].1 <= sorted[..m][j].1
    {
      assert g[i] in multiset(sorted[m..]);
      var k :| 0 <= k < |sorted[m..]| && sorted[m..][k] == g[i];
      assert sorted[m + k] == g[i];
    }
  }

  /**
   * The `n` rows with the largest values, largest first: `min(n, |g|)` rows of `g`, no key
   * twice when `g` has none twice, and no row left out has a larger value than a row kept; a
   * row of `g` is left out when fewer of its copies are kept than `g` holds.
   */
  function TopN<K(==)>(g: seq<(K, int)>, n: nat): (r: seq<(K, int)>)
    ensures |r| == Min(n, |g|)
    ensures SortedDesc(r)
    ensures multiset(r) <= multiset(g)
    ensures KeysUnique(g) ==> KeysUnique(r)
    ensures forall i, j :: 0 <= i < |g| && 0 <= j < |r| && multiset(r)[g[i]] < multiset(g)[g[i]] ==> g[i].1 <= r[j].1
  {
    var sorted := SortDesc(g);
    var m := Min(n, |g|);
    assert |sorted| == |multiset(sorted)| == |multiset(g)| == |g|;
    PrefixFacts(sorted, m);
    PrefixIsTop(g, sorted, m);
    assert KeysUnique(g) ==> KeysUnique(sorted) by {
      if KeysUnique(g) {
        PermutationKeysUnique(g, sorted);
      }
    }
    sorted[..m]
  }

  /** The rows the ranking keeps from a grouped table are groups, each with its sum. */
  lemma TopGroups<K(!new)>(t: seq<(K, Option<int>)>, n: nat)
    ensures forall p :: p in TopN(GroupSum(t), n) ==> p.0 in KeySet(t) && p.1 == SumFor(t, p.0)
  {
    var g := GroupSum(t);
    var r := TopN(g, n);
    forall p | p in r ensures p in g {
      assert p in multiset(r);
    }
  }

  /** A group the ranking leaves out sums no more than any group it keeps. */
  lemma LeftOutGroup<K(!new)>(t: seq<(K, Option<int>)>, n: nat, k: K, j: nat)
    requires k in KeySet(t) && j < |TopN(GroupSum(t), n)|
    requires forall p :: p in TopN(GroupSum(t), n) ==> p.0 != k
    ensures SumFor(t, k) <= TopN(GroupSum(t), n)[j].1
  {
    var g := GroupSum(t);
    assert (k, SumFor(t, k)) in g;
    var i :| 0 <= i < |g| && g[i] == (k, SumFor(t, k));
    assert g[i] !in TopN(g, n) && g[i] in multiset(g);
  }
}
