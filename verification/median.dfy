/** `np.median` as the grain service uses it: the median of each column of a
    non-empty matrix of per-tile predictions (`np.median(preds, axis=0)` in
    grain/src/inference.py). For an even count numpy averages the two middle
    values of the sorted column. */
module Median {
  import Sorting

  predicate RealLe(a: real, b: real) {
    a <= b
  }

  lemma RealLeTotalOrder()
    ensures Sorting.TotalOrder(RealLe)
  {
  }

  /** The median of a non-empty column of reals. It lies between the
      column's smallest and largest value, and a single value is its own
      median. */
  function Median(col: seq<real>): (m: real)
    requires |col| > 0
    ensures exists i :: 0 <= i < |col| && col[i] <= m
    ensures exists j :: 0 <= j < |col| && m <= col[j]
    ensures |col| == 1 ==> m == col[0]
  {
    RealLeTotalOrder();
    var s := Sorting.Sort(col, RealLe);
    MiddleBounds(col, s);
    Middle(s)
  }

  /** The middle value of a sorted sequence, or the mean of the two middle
      values when the length is even. */
  function Middle(s: seq<real>): real
    requires |s| > 0
  {
    var n := |s|;
    if n % 2 == 1 then s[n / 2] else (s[n / 2 - 1] + s[n / 2]) / 2.0
  }

  lemma MiddleBounds(col: seq<real>, s: seq<real>)
    requires |col| > 0
    requires Sorting.Sorted(s, RealLe) && multiset(s) == multiset(col)
    ensures exists i :: 0 <= i < |col| && col[i] <= Middle(s)
    ensures exists j :: 0 <= j < |col| && Middle(s) <= col[j]
    ensures |col| == 1 ==> Middle(s) == col[0]
  {
    assert |s| == |multiset(s)| == |col|;
    var n := |s|;
    var lo, hi := (n - 1) / 2, n / 2;
    assert s[lo] in multiset(col) && s[hi] in multiset(col);
    if lo < hi {
      assert RealLe(s[lo], s[hi]);
    }
    var i :| 0 <= i < |col| && col[i] == s[lo];
    var j :| 0 <= j < |col| && col[j] == s[hi];
    assert col[i] <= Middle(s) <= col[j];
    if n == 1 {
      assert s[0] in multiset(col);
      assert col == [col[0]];
    }
  }

  /** The median does not depend on the order of the column. */
  lemma MedianOrderIndependent(a: seq<real>, b: seq<real>)
    requires |a| > 0
    requires multiset(a) == multiset(b)
    ensures |b| == |a|
    ensures Median(a) == Median(b)
  {
    RealLeTotalOrder();
    assert |b| == |multiset(b)| == |multiset(a)| == |a|;
    Sorting.SortPermutationInvariant(a, b, RealLe);
    assert Median(a) == Middle(Sorting.Sort(a, RealLe));
    assert Median(b) == Middle(Sorting.Sort(b, RealLe));
  }

  /** Every row has exactly `width` entries. */
  predicate Rectangular(rows: seq<seq<real>>, width: nat) {
    forall i :: 0 <= i < |rows| ==> |rows[i]| == width
  }

  /** Column `k` of `rows`, top to bottom. */
  function Column(rows: seq<seq<real>>, k: nat): (c: seq<real>)
    requires forall i :: 0 <= i < |rows| ==> k < |rows[i]|
    ensures |c| == |rows|
    ensures forall i :: 0 <= i < |rows| ==> c[i] == rows[i][k]
  {
    if |rows| == 0 then [] else [rows[0][k]] + Column(rows[1..], k)
  }

  /** `np.median(rows, axis=0)`: entry `k` is the median of column `k`, so it
      lies between that column's extremes, and one row comes back unchanged. */
  function ColumnMedians(rows: seq<seq<real>>, width: nat): (r: seq<real>)
    requires |rows| > 0
    requires Rectangular(rows, width)
    ensures |r| == width
    ensures forall k :: 0 <= k < width ==>
      (exists i :: 0 <= i < |rows| && rows[i][k] <= r[k])
      && (exists j :: 0 <= j < |rows| && r[k] <= rows[j][k])
    ensures |rows| == 1 ==> r == rows[0]
  {
    var r := seq(width, k requires 0 <= k < width => Median(Column(rows, k)));
    assert forall k :: 0 <= k < width ==>
      (exists i :: 0 <= i < |rows| && rows[i][k] <= r[k])
      && (exists j :: 0 <= j < |rows| && r[k] <= rows[j][k]) by {
      forall k | 0 <= k < width
        ensures exists i :: 0 <= i < |rows| && rows[i][k] <= r[k]
        ensures exists j :: 0 <= j < |rows| && r[k] <= rows[j][k]
      {
        ColumnMedianBounds(rows, k);
      }
    }
    assert |rows| == 1 ==> r == rows[0] by {
      if |rows| == 1 {
        forall k | 0 <= k < width
          ensures r[k] == rows[0][k]
        {
          assert |Column(rows, k)| == 1;
        }
      }
    }
    r
  }

  lemma ColumnMedianBounds(rows: seq<seq<real>>, k: nat)
    requires |rows| > 0
    requires forall i :: 0 <= i < |rows| ==> k < |rows[i]|
    ensures exists i :: 0 <= i < |rows| && rows[i][k] <= Median(Column(rows, k))
    ensures exists j :: 0 <= j < |rows| && Median(Column(rows, k)) <= rows[j][k]
  {
    var c := Column(rows, k);
    var m := Median(c);
    var i :| 0 <= i < |c| && c[i] <= m;
    var j :| 0 <= j < |c| && m <= c[j];
    assert rows[i][k] <= m && m <= rows[j][k];
  }

  /** Rearranging the rows rearranges each column the same way. */
  lemma ColumnPermutation(a: seq<seq<real>>, b: seq<seq<real>>, k: nat)
    requires forall i :: 0 <= i < |a| ==> k < |a[i]|
    requires forall i :: 0 <= i < |b| ==> k < |b[i]|
    requires multiset(a) == multiset(b)
    ensures multiset(Column(a, k)) == multiset(Column(b, k))
  {
    var f := (r: seq<real>) => if k < |r| then r[k] else 0.0;
    ColumnIsMap(a, k, f);
    ColumnIsMap(b, k, f);
    Sorting.MapPermutation(a, b, f);
  }

  lemma {:induction false} ColumnIsMap(rows: seq<seq<real>>, k: nat, f: seq<real> -> real)
    requires forall i :: 0 <= i < |rows| ==> k < |rows[i]|
    requires forall r: seq<real> :: k < |r| ==> f(r) == r[k]
    ensures Column(rows, k) == Sorting.MapSeq(rows, f)
    decreases |rows|
  {
    if |rows| > 0 {
      ColumnIsMap(rows[1..], k, f);
    }
  }

  /** The aggregate does not depend on the order of the tiles: any
      rearrangement of the rows gives the same column medians. */
  lemma AggregateOrderIndependent(a: seq<seq<real>>, b: seq<seq<real>>, width: nat)
    requires |a| > 0 && Rectangular(a, width)
    requires multiset(a) == multiset(b)
    ensures |b| > 0 && Rectangular(b, width)
    ensures ColumnMedians(a, width) == ColumnMedians(b, width)
  {
    assert |b| == |multiset(b)| == |multiset(a)| == |a|;
    assert forall i :: 0 <= i < |b| ==> b[i] in multiset(a);
    assert Rectangular(b, width);
    forall k | 0 <= k < width
      ensures Median(Column(a, k)) == Median(Column(b, k))
    {
      ColumnPermutation(a, b, k);
      MedianOrderIndependent(Column(a, k), Column(b, k));
    }
  }
}
