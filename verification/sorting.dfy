/** Sorting by a total order given as a function value: insertion sort, its
    contract, and the fact that a sorted permutation is unique; and the
    facts about rearranging a sequence that go with it. Used for
    `np.median` (order statistics of reals) and Python's `sorted` on strings. */
module Sorting {

  /** `le` is a total order: total (hence reflexive), antisymmetric, transitive. */
  ghost predicate TotalOrder<T(!new)>(le: (T, T) -> bool) {
    && (forall x, y :: le(x, y) || le(y, x))
    && (forall x, y :: le(x, y) && le(y, x) ==> x == y)
    && (forall x, y, z :: le(x, y) && le(y, z) ==> le(x, z))
  }

  predicate Sorted<T>(s: seq<T>, le: (T, T) -> bool) {
    forall i, j :: 0 <= i < j < |s| ==> le(s[i], s[j])
  }

  predicate Distinct<T(==)>(s: seq<T>) {
    forall i, j :: 0 <= i < j < |s| ==> s[i] != s[j]
  }

  /** Inserts `x` before the first element it is `le` to. */
  function Insert<T(!new)>(x: T, s: seq<T>, le: (T, T) -> bool): (r: seq<T>)
    requires TotalOrder(le)
    requires Sorted(s, le)
    ensures Sorted(r, le)
    ensures multiset(r) == multiset(s) + multiset{x}
    ensures |r| == |s| + 1
  {
    if |s| == 0 then [x]
    else if le(x, s[0]) then
      assert forall k :: 0 < k < |s| ==> le(s[0], s[k]);
      [x] + s
    else
      var tail := Insert(x, s[1..], le);
      assert s == [s[0]] + s[1..];
      InsertHead(x, s, le, tail);
      [s[0]] + tail
  }

  /** The step case of `Insert`: `s[0]` may stay in front of the insertion into the rest. */
  lemma InsertHead<T(!new)>(x: T, s: seq<T>, le: (T, T) -> bool, tail: seq<T>)
    requires TotalOrder(le)
    requires Sorted(s, le) && |s| > 0 && !le(x, s[0])
    requires Sorted(tail, le) && multiset(tail) == multiset(s[1..]) + multiset{x}
    ensures Sorted([s[0]] + tail, le)
  {
    forall k | 0 <= k < |tail|
      ensures le(s[0], tail[k])
    {
      assert tail[k] in multiset(tail);
      if tail[k] != x {
        assert tail[k] in multiset(s[1..]);
        var j :| 0 <= j < |s[1..]| && s[1..][j] == tail[k];
        assert s[j + 1] == tail[k];
      }
    }
  }

  function Sort<T(!new)>(s: seq<T>, le: (T, T) -> bool): (r: seq<T>)
    requires TotalOrder(le)
    ensures Sorted(r, le)
    ensures multiset(r) == multiset(s)
    ensures |r| == |s|
  {
    if |s| == 0 then []
    else
      assert s == [s[0]] + s[1..];
      Insert(s[0], Sort(s[1..], le), le)
  }

  /** The first element of a sorted non-empty sequence is below every element. */
  lemma {:induction false} SortedHeadIsLeast<T(!new)>(s: seq<T>, le: (T, T) -> bool, y: T)
    requires TotalOrder(le)
    requires Sorted(s, le)
    requires y in multiset(s)
    ensures le(s[0], y)
  {
    var k :| 0 <= k < |s| && s[k] == y;
    if k > 0 {
      assert le(s[0], s[k]);
    }
  }

  /** Two sorted sequences with the same elements are equal: sorting
      determines its output from the multiset of its input alone. */
  lemma {:induction false} SortedUnique<T(!new)>(a: seq<T>, b: seq<T>, le: (T, T) -> bool)
    requires TotalOrder(le)
    requires Sorted(a, le) && Sorted(b, le)
    requires multiset(a) == multiset(b)
    ensures a == b
    decreases |a|
  {
    if |a| == 0 {
      assert |b| == |multiset(b)| == 0;
    } else {
      assert |b| == |multiset(b)| == |multiset(a)| == |a|;
      SortedHeadsEqual(a, b, le);
      TailMultiset(a);
      TailMultiset(b);
      SortedUnique(a[1..], b[1..], le);
      assert a == [a[0]] + a[1..] && b == [b[0]] + b[1..];
    }
  }

  /** Two non-empty sorted sequences with the same elements start alike. */
  lemma SortedHeadsEqual<T(!new)>(a: seq<T>, b: seq<T>, le: (T, T) -> bool)
    requires TotalOrder(le)
    requires Sorted(a, le) && Sorted(b, le)
    requires multiset(a) == multiset(b) && |a| > 0 && |b| > 0
    ensures a[0] == b[0]
  {
    assert a[0] in multiset(a) && b[0] in multiset(b);
    SortedHeadIsLeast(a, le, b[0]);
    SortedHeadIsLeast(b, le, a[0]);
  }

  /** Dropping the head removes one copy of it from the multiset. */
  lemma TailMultiset<T>(s: seq<T>)
    requires |s| > 0
    ensures multiset(s[1..]) == multiset(s) - multiset{s[0]}
  {
    assert s == [s[0]] + s[1..];
  }

  /** Sorting depends only on the multiset of its input. */
  lemma SortPermutationInvariant<T(!new)>(a: seq<T>, b: seq<T>, le: (T, T) -> bool)
    requires TotalOrder(le)
    requires multiset(a) == multiset(b)
    ensures Sort(a, le) == Sort(b, le)
  {
    SortedUnique(Sort(a, le), Sort(b, le), le);
  }

  lemma {:induction false} InsertDistinct<T(!new)>(x: T, s: seq<T>, le: (T, T) -> bool)
    requires TotalOrder(le)
    requires Sorted(s, le)
    requires Distinct(s) && x !in s
    ensures Distinct(Insert(x, s, le))
  {
    if |s| > 0 && !le(x, s[0]) {
      InsertDistinct(x, s[1..], le);
      var tail := Insert(x, s[1..], le);
      assert s[0] !in multiset(s[1..]) + multiset{x};
      assert s[0] !in tail;
    }
  }

  /** Sorting a sequence without repetitions yields one without repetitions. */
  lemma {:induction false} SortDistinct<T(!new)>(s: seq<T>, le: (T, T) -> bool)
    requires TotalOrder(le)
    requires Distinct(s)
    ensures Distinct(Sort(s, le))
  {
    if |s| > 0 {
      SortDistinct(s[1..], le);
      assert s[0] !in multiset(s[1..]);
      assert s[0] !in Sort(s[1..], le);
      InsertDistinct(s[0], Sort(s[1..], le), le);
    }
  }

  /** `f` applied to every element of `s`, in order. */
  function MapSeq<T, U>(s: seq<T>, f: T -> U): (r: seq<U>)
    ensures |r| == |s|
    ensures forall i :: 0 <= i < |s| ==> r[i] == f(s[i])
  {
    if |s| == 0 then [] else [f(s[0])] + MapSeq(s[1..], f)
  }

  lemma {:induction false} MapConcat<T, U>(a: seq<T>, b: seq<T>, f: T -> U)
    ensures MapSeq(a + b, f) == MapSeq(a, f) + MapSeq(b, f)
    decreases |a|
  {
    if |a| > 0 {
      assert (a + b)[1..] == a[1..] + b;
      MapConcat(a[1..], b, f);
    } else {
      assert a + b == b;
    }
  }

  /** Mapping commutes with rearrangement: the multiset of images depends
      only on the multiset of arguments. */
  lemma {:induction false} MapPermutation<T, U>(a: seq<T>, b: seq<T>, f: T -> U)
    requires multiset(a) == multiset(b)
    ensures multiset(MapSeq(a, f)) == multiset(MapSeq(b, f))
    decreases |a|
  {
    if |a| == 0 {
      assert |b| == |multiset(b)| == 0;
    } else {
      var p := MatchFirst(a, b);
      var left, right := b[..p], b[p + 1..];
      MapPermutation(a[1..], left + right, f);
      MapRemoveAt(b, p, f);
      assert MapSeq(a, f) == [f(a[0])] + MapSeq(a[1..], f);
    }
  }

  /** Where the first element of `a` sits in its rearrangement `b`. */
  lemma MatchFirst<T>(a: seq<T>, b: seq<T>) returns (p: int)
    requires multiset(a) == multiset(b) && |a| > 0
    ensures 0 <= p < |b| && b[p] == a[0]
    ensures multiset(a[1..]) == multiset(b[..p] + b[p + 1..])
  {
    assert a[0] in multiset(b);
    p :| 0 <= p < |b| && b[p] == a[0];
    RemoveAt(b, p);
    assert a == [a[0]] + a[1..];
    assert multiset(a) == multiset{a[0]} + multiset(a[1..]);
  }

  lemma MapRemoveAt<T, U>(b: seq<T>, p: int, f: T -> U)
    requires 0 <= p < |b|
    ensures multiset(MapSeq(b, f)) == multiset(MapSeq(b[..p] + b[p + 1..], f)) + multiset{f(b[p])}
  {
    var ml, mr := MapSeq(b[..p], f), MapSeq(b[p + 1..], f);
    MapAround(b, p, f);
    MapConcat(b[..p], b[p + 1..], f);
    MultisetAround(ml, f(b[p]), mr);
  }

  /** Mapping a sequence maps the parts before, at and after a position. */
  lemma MapAround<T, U>(b: seq<T>, p: int, f: T -> U)
    requires 0 <= p < |b|
    ensures MapSeq(b, f) == MapSeq(b[..p], f) + [f(b[p])] + MapSeq(b[p + 1..], f)
  {
    var r := MapSeq(b[..p], f) + [f(b[p])] + MapSeq(b[p + 1..], f);
    assert |r| == |b|;
    forall i | 0 <= i < |b|
      ensures MapSeq(b, f)[i] == r[i]
    {
      if i < p {
        assert r[i] == MapSeq(b[..p], f)[i];
      } else if i > p {
        assert r[i] == MapSeq(b[p + 1..], f)[i - p - 1];
      }
    }
  }

  lemma MultisetAround<U>(l: seq<U>, x: U, r: seq<U>)
    ensures multiset(l + [x] + r) == multiset(l + r) + multiset{x}
  {
  }

  /** Removing the element at `p` removes one copy of it from the multiset. */
  lemma RemoveAt<T>(s: seq<T>, p: int)
    requires 0 <= p < |s|
    ensures multiset(s[..p] + s[p + 1..]) == multiset(s) - multiset{s[p]}
  {
    assert s == s[..p] + [s[p]] + s[p + 1..];
  }
}
