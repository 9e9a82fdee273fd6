/** `groupby(...).sum()` followed by `idxmax()` or `nlargest(10)`: the "top" figures of the
    dashboard (top product by units, top city and state by revenue). */
module Aggregates {
  import opened Seqs
  import opened Sales

  /** The sum of a numeric column over the rows (`.sum()`). */
  function SumOf(rows: seq<Sale>, value: Sale -> real): (total: real)
    ensures |rows| == 0 ==> total == 0.0
  {
    if |rows| == 0 then 0.0 else value(rows[0]) + SumOf(rows[1..], value)
  }

  /** Sums add up over a split of the rows. */
  lemma {:induction false} SumOfConcat(a: seq<Sale>, b: seq<Sale>, value: Sale -> real)
    ensures SumOf(a + b, value) == SumOf(a, value) + SumOf(b, value)
  {
    if |a| > 0 {
      assert (a + b)[1..] == a[1..] + b;
      SumOfConcat(a[1..], b, value);
    } else {
      assert a + b == b;
    }
  }

  /** A column that is positive on every row. */
  predicate PositiveOn(rows: seq<Sale>, value: Sale -> real)
  {
    forall i :: 0 <= i < |rows| ==> value(rows[i]) > 0.0
  }

  /** A positive column sums to a positive total exactly when there is a row. */
  lemma {:induction false} SumOfPositive(rows: seq<Sale>, value: Sale -> real)
    requires PositiveOn(rows, value)
    ensures SumOf(rows, value) >= 0.0
    ensures SumOf(rows, value) > 0.0 <==> |rows| > 0
  {
    if |rows| > 0 {
      assert PositiveOn(rows[1..], value) by {
        assert forall i :: 1 <= i < |rows| ==> rows[i] == rows[1..][i - 1];
      }
      SumOfPositive(rows[1..], value);
    }
  }

  /** Over a positive column, a subsequence of the rows never has a larger sum. */
  lemma {:induction false} SumOfSubsequence(a: seq<Sale>, b: seq<Sale>, value: Sale -> real)
    requires IsSubsequence(a, b) && PositiveOn(b, value)
    ensures SumOf(a, value) <= SumOf(b, value)
    decreases |b|
  {
    if |a| > 0 {
      assert PositiveOn(b[1..], value) by {
        assert forall i :: 1 <= i < |b| ==> b[i] == b[1..][i - 1];
      }
      if a[0] == b[0] && IsSubsequence(a[1..], b[1..]) {
        SumOfSubsequence(a[1..], b[1..], value);
      } else {
        SumOfSubsequence(a, b[1..], value);
      }
    } else {
      SumOfPositive(b, value);
    }
  }

  /** The mask `df[column] == k`. */
  function KeyIs<K(==)>(key: Sale -> K, k: K): Sale -> bool
  {
    s => key(s) == k
  }

  /** The group of key `k` and its sum. */
  function GroupTotal<K(==)>(rows: seq<Sale>, key: Sale -> K, value: Sale -> real, k: K): real
  {
    SumOf(Select(rows, KeyIs(key, k)), value)
  }

  /** The distinct keys of the rows, in order of first appearance. */
  function Keys<K(==)>(rows: seq<Sale>, key: Sale -> K): (ks: seq<K>)
    ensures forall i :: 0 <= i < |rows| ==> key(rows[i]) in ks
    ensures forall j :: 0 <= j < |ks| ==> exists i :: 0 <= i < |rows| && key(rows[i]) == ks[j]
    ensures forall i, j :: 0 <= i < j < |ks| ==> ks[i] != ks[j]
    ensures |rows| > 0 ==> |ks| > 0
  {
    if |rows| == 0 then []
    else
      var init := rows[..|rows| - 1];
      var ks := Keys(init, key);
      var k := key(rows[|rows| - 1]);
      assert forall i :: 0 <= i < |init| ==> init[i] == rows[i];
      if k in ks then ks else ks + [k]
  }

  /** The grouped series: one `(key, sum)` pair per distinct key. Its keys are pairwise
      different and are exactly the keys occurring in the rows, and each is paired with the sum
      of its own group. */
  function Series<K(==)>(rows: seq<Sale>, key: Sale -> K, value: Sale -> real): (g: seq<(K, real)>)
    ensures |g| == |Keys(rows, key)|
    ensures forall j :: 0 <= j < |g| ==> g[j].0 == Keys(rows, key)[j]
    ensures forall j :: 0 <= j < |g| ==> g[j].1 == GroupTotal(rows, key, value, g[j].0)
  {
    var ks := Keys(rows, key);
    seq(|ks|, j requires 0 <= j < |ks| => (ks[j], GroupTotal(rows, key, value, ks[j])))
  }

  /** The series has one entry per group: its keys are pairwise different, every row's key is
      among them, and no other key is. */
  lemma SeriesKeys<K>(rows: seq<Sale>, key: Sale -> K, value: Sale -> real)
    ensures var g := Series(rows, key, value);
            && (forall i, j :: 0 <= i < j < |g| ==> g[i].0 != g[j].0)
            && (forall i :: 0 <= i < |rows| ==> exists j :: 0 <= j < |g| && g[j].0 == key(rows[i]))
            && (forall j :: 0 <= j < |g| ==> exists i :: 0 <= i < |rows| && key(rows[i]) == g[j].0)
  {
    var g, ks := Series(rows, key, value), Keys(rows, key);
    forall i | 0 <= i < |rows|
      ensures exists j :: 0 <= j < |g| && g[j].0 == key(rows[i])
    {
      var j :| 0 <= j < |ks| && ks[j] == key(rows[i]);
      assert g[j].0 == key(rows[i]);
    }
  }

  /** Position of the first largest sum of a non-empty series (`Series.idxmax`). */
  function ArgMax<K>(g: seq<(K, real)>): (m: nat)
    requires |g| > 0
    ensures m < |g|
    ensures forall j :: 0 <= j < |g| ==> g[j].1 <= g[m].1
    ensures forall j :: 0 <= j < m ==> g[j].1 < g[m].1
  {
    if |g| == 1 then 0
    else
      var m := ArgMax(g[..|g| - 1]);
      assert forall j :: 0 <= j < |g| - 1 ==> g[..|g| - 1][j] == g[j];
      if g[|g| - 1].1 > g[m].1 then |g| - 1 else m
  }

  /** Lines 181-183: the key whose group sum is largest. `idxmax` raises on an empty series. */
  function IdxMax<K(==)>(rows: seq<Sale>, key: Sale -> K, value: Sale -> real): (k: K)
    requires |rows| > 0
    ensures exists i :: 0 <= i < |rows| && key(rows[i]) == k
    ensures forall i :: 0 <= i < |rows| ==>
      GroupTotal(rows, key, value, key(rows[i])) <= GroupTotal(rows, key, value, k)
  {
    var m := ArgMax(Series(rows, key, value));
    SeriesMaximum(rows, key, value, m);
    Keys(rows, key)[m]
  }

  lemma SeriesMaximum<K>(rows: seq<Sale>, key: Sale -> K, value: Sale -> real, m: nat)
    requires |rows| > 0 && m < |Keys(rows, key)|
    requires forall j :: 0 <= j < |Series(rows, key, value)| ==>
      Series(rows, key, value)[j].1 <= Series(rows, key, value)[m].1
    ensures exists i :: 0 <= i < |rows| && key(rows[i]) == Keys(rows, key)[m]
    ensures forall i :: 0 <= i < |rows| ==>
      GroupTotal(rows, key, value, key(rows[i])) <= GroupTotal(rows, key, value, Keys(rows, key)[m])
  {
    var ks, g := Keys(rows, key), Series(rows, key, value);
    forall i | 0 <= i < |rows|
      ensures GroupTotal(rows, key, value, key(rows[i])) <= GroupTotal(rows, key, value, ks[m])
    {
      var j :| 0 <= j < |ks| && ks[j] == key(rows[i]);
      assert g[j].1 <= g[m].1;
    }
  }

  /** Whether the values never increase along the sequence. */
  predicate NonIncreasing<K>(r: seq<(K, real)>)
  {
    forall i :: 0 <= i < |r| - 1 ==> r[i].1 >= r[i + 1].1
  }

  /** Nothing left out of `r` is larger than the last entry kept. */
  ghost predicate LeftOutNoLarger<K>(g: seq<(K, real)>, r: seq<(K, real)>)
  {
    |r| > 0 ==> forall x :: x in multiset(g) - multiset(r) ==> x.1 <= r[|r| - 1].1
  }

  /** `Series.nlargest(n)`: the `n` largest entries, largest first, earlier entries first among
      equal sums. */
  function NLargest<K>(g: seq<(K, real)>, n: nat): (r: seq<(K, real)>)
    ensures |r| == if n < |g| then n else |g|
    ensures NonIncreasing(r)
    ensures multiset(r) <= multiset(g)
    ensures LeftOutNoLarger(g, r)
    decreases n
  {
    if n == 0 || |g| == 0 then []
    else
      var m := ArgMax(g);
      var rest := g[..m] + g[m + 1..];
      var r := [g[m]] + NLargest(rest, n - 1);
      NLargestStep(g, m, rest, NLargest(rest, n - 1));
      r
  }

  lemma NLargestStep<K>(g: seq<(K, real)>, m: nat, rest: seq<(K, real)>, tail: seq<(K, real)>)
    requires m < |g|
    requires forall j :: 0 <= j < |g| ==> g[j].1 <= g[m].1
    requires rest == g[..m] + g[m + 1..]
    requires NonIncreasing(tail)
    requires multiset(tail) <= multiset(rest)
    requires LeftOutNoLarger(rest, tail)
    ensures NonIncreasing([g[m]] + tail)
    ensures multiset([g[m]] + tail) <= multiset(g)
    ensures LeftOutNoLarger(g, [g[m]] + tail)
  {
    RestBelow(g, m, rest);
    HeadIsLargest(g[m], rest, tail);
    LeftOutOfStep(g, g[m], rest, tail);
  }

  /** Putting the maximum in front of entries drawn from the rest keeps the order. */
  lemma HeadIsLargest<K>(top: (K, real), rest: seq<(K, real)>, tail: seq<(K, real)>)
    requires forall x :: x in multiset(rest) ==> x.1 <= top.1
    requires NonIncreasing(tail) && multiset(tail) <= multiset(rest)
    ensures NonIncreasing([top] + tail)
  {
    if |tail| > 0 {
      assert tail[0] in multiset(tail);
    }
    var r := [top] + tail;
    forall i | 0 <= i < |r| - 1
      ensures r[i].1 >= r[i + 1].1
    {
      if i > 0 {
        assert r[i] == tail[i - 1] && r[i + 1] == tail[i];
      }
    }
  }

  /** What the step leaves out is what the recursive call left out of the rest. */
  lemma LeftOutOfStep<K>(g: seq<(K, real)>, top: (K, real), rest: seq<(K, real)>, tail: seq<(K, real)>)
    requires multiset(g) == multiset(rest) + multiset{top}
    requires forall x :: x in multiset(rest) ==> x.1 <= top.1
    requires multiset(tail) <= multiset(rest)
    requires LeftOutNoLarger(rest, tail)
    ensures multiset([top] + tail) <= multiset(g)
    ensures LeftOutNoLarger(g, [top] + tail)
  {
    assert multiset([top] + tail) == multiset{top} + multiset(tail);
    assert multiset(g) - multiset([top] + tail) == multiset(rest) - multiset(tail);
    if |tail| > 0 {
      assert ([top] + tail)[|tail|] == tail[|tail| - 1];
    }
  }

  /** Removing the maximum leaves entries no larger than it, and nothing else is lost. */
  lemma RestBelow<K>(g: seq<(K, real)>, m: nat, rest: seq<(K, real)>)
    requires m < |g|
    requires forall j :: 0 <= j < |g| ==> g[j].1 <= g[m].1
    requires rest == g[..m] + g[m + 1..]
    ensures multiset(g) == multiset(rest) + multiset{g[m]}
    ensures forall x :: x in multiset(rest) ==> x.1 <= g[m].1
  {
    assert g == g[..m] + [g[m]] + g[m + 1..];
    forall x | x in multiset(rest)
      ensures x.1 <= g[m].1
    {
      assert x in rest;
      var j :| 0 <= j < |rest| && rest[j] == x;
      if j < m {
        assert x == g[j];
      } else {
        assert x == g[j + 1];
      }
    }
  }

  /** Lines 701 and 712: the ten groups with the largest sums. */
  function Top10<K(==)>(rows: seq<Sale>, key: Sale -> K, value: Sale -> real): (r: seq<(K, real)>)
    ensures |r| <= 10
    ensures |r| == if 10 < |Keys(rows, key)| then 10 else |Keys(rows, key)|
    ensures NonIncreasing(r)
    ensures forall i :: 0 <= i < |r| ==> r[i].1 == GroupTotal(rows, key, value, r[i].0)
    ensures LeftOutNoLarger(Series(rows, key, value), r)
    ensures multiset(r) <= multiset(Series(rows, key, value))
  {
    var g := Series(rows, key, value);
    var r := NLargest(g, 10);
    SeriesEntries(rows, key, value, r);
    assert |g| == |Keys(rows, key)|;
    r
  }

  /** Entries drawn from the series pair each key with its own group sum. */
  lemma SeriesEntries<K>(rows: seq<Sale>, key: Sale -> K, value: Sale -> real, r: seq<(K, real)>)
    requires multiset(r) <= multiset(Series(rows, key, value))
    ensures forall i :: 0 <= i < |r| ==> r[i].1 == GroupTotal(rows, key, value, r[i].0)
  {
    var g := Series(rows, key, value);
    forall i | 0 <= i < |r|
      ensures r[i].1 == GroupTotal(rows, key, value, r[i].0)
    {
      assert r[i] in multiset(r);
      assert r[i] in g;
    }
  }

  /** The group sums of the keys `ks`, added up. */
  function SumOverKeys<K(==)>(ks: seq<K>, rows: seq<Sale>, key: Sale -> K, value: Sale -> real): real
  {
    if |ks| == 0 then 0.0 else GroupTotal(rows, key, value, ks[0]) + SumOverKeys(ks[1..], rows, key, value)
  }

  /** Every row lies in exactly one group, so the group sums add up to the column's total:
      the grouped series that `idxmax` and `nlargest` rank is a partition of the data. */
  lemma {:induction false} GroupsPartitionTotal<K>(rows: seq<Sale>, key: Sale -> K, value: Sale -> real)
    ensures SumOverKeys(Keys(rows, key), rows, key, value) == SumOf(rows, value)
    decreases |rows|
  {
    if |rows| > 0 {
      var init, x := rows[..|rows| - 1], rows[|rows| - 1];
      assert rows == init + [x];
      var ks := Keys(init, key);
      GroupsPartitionTotal(init, key, value);
      SumOfConcat(init, [x], value);
      assert SumOf([x], value) == value(x);
      SumOverKeysAppendRow(ks, init, x, key, value);
      if key(x) !in ks {
        SumOverKeysAppendKey(ks, rows, key(x), key, value);
        GroupTotalAppendRow(init, x, key, value, key(x));
        AbsentKeyTotal(init, key, value, key(x));
      }
    }
  }

  /** Adding a row adds its value to its own group only. */
  lemma GroupTotalAppendRow<K>(rows: seq<Sale>, x: Sale, key: Sale -> K, value: Sale -> real, k: K)
    ensures GroupTotal(rows + [x], key, value, k)
      == GroupTotal(rows, key, value, k) + (if key(x) == k then value(x) else 0.0)
  {
    SelectConcat(rows, [x], KeyIs(key, k));
    SumOfConcat(Select(rows, KeyIs(key, k)), Select([x], KeyIs(key, k)), value);
    if key(x) == k {
      assert Select([x], KeyIs(key, k)) == [x];
    } else {
      assert Select([x], KeyIs(key, k)) == [];
    }
  }

  /** A key no row carries has an empty group. */
  lemma AbsentKeyTotal<K>(rows: seq<Sale>, key: Sale -> K, value: Sale -> real, k: K)
    requires k !in Keys(rows, key)
    ensures GroupTotal(rows, key, value, k) == 0.0
  {
    SelectNone(rows, KeyIs(key, k));
  }

  /** Over distinct keys, adding a row adds its value once if its key is among them. */
  lemma {:induction false} SumOverKeysAppendRow<K>(ks: seq<K>, rows: seq<Sale>, x: Sale, key: Sale -> K, value: Sale -> real)
    requires forall i, j :: 0 <= i < j < |ks| ==> ks[i] != ks[j]
    ensures SumOverKeys(ks, rows + [x], key, value)
      == SumOverKeys(ks, rows, key, value) + (if key(x) in ks then value(x) else 0.0)
  {
    if |ks| > 0 {
      assert forall i, j :: 0 <= i < j < |ks| - 1 ==> ks[1..][i] == ks[i + 1] && ks[1..][j] == ks[j + 1];
      SumOverKeysAppendRow(ks[1..], rows, x, key, value);
      GroupTotalAppendRow(rows, x, key, value, ks[0]);
      assert key(x) in ks <==> key(x) == ks[0] || key(x) in ks[1..];
      assert key(x) == ks[0] ==> key(x) !in ks[1..];
    }
  }

  /** Adding a key at the end adds its group sum. */
  lemma {:induction false} SumOverKeysAppendKey<K>(ks: seq<K>, rows: seq<Sale>, k: K, key: Sale -> K, value: Sale -> real)
    ensures SumOverKeys(ks + [k], rows, key, value)
      == SumOverKeys(ks, rows, key, value) + GroupTotal(rows, key, value, k)
  {
    if |ks| > 0 {
      assert (ks + [k])[1..] == ks[1..] + [k];
      SumOverKeysAppendKey(ks[1..], rows, k, key, value);
    } else {
      assert (ks + [k])[1..] == [];
    }
  }
}
