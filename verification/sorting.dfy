/** A pure model of `Array.prototype.sort` with a comparator. The source
    sorts in place; here sorting returns a new sequence. The comparator is
    given as a "less or equal" relation that must be a total preorder, which
    is what a numeric difference `a.k - b.k` or `localeCompare` induces. */
module Sorting {
  import opened Seqs


  ghost predicate TotalPreorder<T(!new)>(le: (T, T) -> bool) {
    && (forall a, b :: le(a, b) || le(b, a))
    && (forall a, b, c :: le(a, b) && le(b, c) ==> le(a, c))
  }

  predicate SortedBy<T>(xs: seq<T>, le: (T, T) -> bool) {
    forall i, j :: 0 <= i < j < |xs| ==> le(xs[i], xs[j])
  }

  /** Sum of `f` over a sequence. */
  function SumBy<T>(xs: seq<T>, f: T -> int): int {
    if |xs| == 0 then 0 else f(xs[0]) + SumBy(xs[1..], f)
  }

  /** Summing a sequence extended at the end adds the new element's value. */
  lemma {:induction false} SumByAppend<T>(xs: seq<T>, x: T, f: T -> int)
    ensures SumBy(xs + [x], f) == SumBy(xs, f) + f(x)
  {
    if |xs| > 0 {
      assert (xs + [x])[1..] == xs[1..] + [x];
      SumByAppend(xs[1..], x, f);
    }
  }

  /** Inserts `x` before the first element it is less than or equal to. */
  function Insert<T>(x: T, ys: seq<T>, le: (T, T) -> bool): (r: seq<T>)
    ensures multiset(r) == multiset(ys) + multiset{x}
    ensures |r| == |ys| + 1
  {
    if |ys| == 0 then [x]
    else if le(x, ys[0]) then [x] + ys
    else
      assert ys == [ys[0]] + ys[1..];
      [ys[0]] + Insert(x, ys[1..], le)
  }

  /** Everything in `Insert(x, ys, le)` is `x` or comes from `ys`. */
  lemma {:induction false} InsertMembers<T>(x: T, ys: seq<T>, le: (T, T) -> bool)
    ensures forall z :: z in Insert(x, ys, le) ==> z == x || z in ys
  {
    if |ys| > 0 && !le(x, ys[0]) {
      InsertMembers(x, ys[1..], le);
    }
  }

  /** An element below everything in a sorted sequence can go in front. */
  lemma PrependSorted<T>(y: T, t: seq<T>, le: (T, T) -> bool)
    requires SortedBy(t, le)
    requires forall z :: z in t ==> le(y, z)
    ensures SortedBy([y] + t, le)
  {
    var r := [y] + t;
    forall i, j | 0 <= i < j < |r| ensures le(r[i], r[j]) {
      if i == 0 {
        assert r[j] in t;
      } else {
        assert r[i] == t[i - 1] && r[j] == t[j - 1];
      }
    }
  }

  lemma {:induction false} InsertKeepsSorted<T(!new)>(x: T, ys: seq<T>, le: (T, T) -> bool)
    requires TotalPreorder(le)
    requires SortedBy(ys, le)
    ensures SortedBy(Insert(x, ys, le), le)
  {
    if |ys| == 0 {
    } else if le(x, ys[0]) {
      forall z | z in ys ensures le(x, z) {
        var j :| 0 <= j < |ys| && ys[j] == z;
        if j > 0 { assert le(ys[0], ys[j]); }
      }
      PrependSorted(x, ys, le);
    } else {
      var y := ys[0];
      var t := Insert(x, ys[1..], le);
      InsertKeepsSorted(x, ys[1..], le);
      InsertMembers(x, ys[1..], le);
      assert le(y, x);
      forall z | z in t ensures le(y, z) {
        if z != x {
          var j :| 1 <= j < |ys| && ys[j] == z;
        }
      }
      PrependSorted(y, t, le);
    }
  }

  /** Insertion sort: ordered by `le` and a permutation of the input. */
  function SortBy<T(!new)>(xs: seq<T>, le: (T, T) -> bool): (r: seq<T>)
    requires TotalPreorder(le)
    ensures SortedBy(r, le)
    ensures multiset(r) == multiset(xs)
    ensures |r| == |xs|
  {
    if |xs| == 0 then []
    else
      assert xs == [xs[0]] + xs[1..];
      var t := SortBy(xs[1..], le);
      InsertKeepsSorted(xs[0], t, le);
      Insert(xs[0], t, le)
  }

  lemma {:induction false} InsertAddsToSum<T>(x: T, ys: seq<T>, le: (T, T) -> bool, f: T -> int)
    ensures SumBy(Insert(x, ys, le), f) == f(x) + SumBy(ys, f)
  {
    if |ys| > 0 && !le(x, ys[0]) {
      InsertAddsToSum(x, ys[1..], le, f);
    }
  }

  /** Sorting moves values around but never changes their sum. */
  lemma {:induction false} SortPreservesSum<T(!new)>(xs: seq<T>, le: (T, T) -> bool, f: T -> int)
    requires TotalPreorder(le)
    ensures SumBy(SortBy(xs, le), f) == SumBy(xs, f)
  {
    if |xs| > 0 {
      SortPreservesSum(xs[1..], le, f);
      InsertAddsToSum(xs[0], SortBy(xs[1..], le), le, f);
    }
  }

  /** The comparator `(a, b) => k(a) - k(b)` read as "less or equal". */
  function ByKey<T>(k: T -> int): (T, T) -> bool {
    (a: T, b: T) => k(a) <= k(b)
  }

  /** `xs.sort((a, b) => k(a) - k(b))`: ascending by the key, same elements. */
  function SortByKey<T(!new)>(xs: seq<T>, k: T -> int): (r: seq<T>)
    ensures forall i, j :: 0 <= i < j < |r| ==> k(r[i]) <= k(r[j])
    ensures multiset(r) == multiset(xs)
    ensures |r| == |xs|
  {
    assert TotalPreorder(ByKey(k));
    var r := SortBy(xs, ByKey(k));
    assert forall i, j :: 0 <= i < j < |r| ==> ByKey(k)(r[i], r[j]);
    r
  }

  /** Keeping only some elements of a sorted sequence leaves it sorted. */
  lemma {:induction false} FilterKeepsSorted<T(!new)>(xs: seq<T>, p: T -> bool, le: (T, T) -> bool)
    requires SortedBy(xs, le)
    ensures SortedBy(Filter(xs, p), le)
  {
    if |xs| > 0 {
      var t := Filter(xs[1..], p);
      FilterKeepsSorted(xs[1..], p, le);
      if p(xs[0]) {
        var r := [xs[0]] + t;
        assert Filter(xs, p) == r;
        forall i, j | 0 <= i < j < |r| ensures le(r[i], r[j]) {
          if i == 0 {
            assert r[j] in xs[1..];
          } else {
            assert r[i] == t[i - 1] && r[j] == t[j - 1];
          }
        }
      }
    }
  }
}
