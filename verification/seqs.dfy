/** Sequence helpers standing for the JavaScript array methods the source
    calls: `filter`, `find`, `findIndex`, `includes` and `[...new Set(xs)]`. */
module Seqs {
  import opened Wrappers

  /** No element occurs twice. */
  predicate NoDup<T(==)>(xs: seq<T>) {
    forall i, j :: 0 <= i < j < |xs| ==> xs[i] != xs[j]
  }

  /** `xs.filter(p)`: keeps exactly the elements satisfying `p`, never adds any. */
  function Filter<T(!new)>(xs: seq<T>, p: T -> bool): (r: seq<T>)
    ensures forall x :: x in r <==> x in xs && p(x)
    ensures multiset(r) <= multiset(xs)
    ensures |r| <= |xs|
  {
    if |xs| == 0 then []
    else
      assert xs == [xs[0]] + xs[1..];
      (if p(xs[0]) then [xs[0]] else []) + Filter(xs[1..], p)
  }

  /** A filter keeps every occurrence of an element it accepts and none of
      one it rejects. */
  lemma {:induction false} FilterCounts<T(!new)>(xs: seq<T>, p: T -> bool)
    ensures forall x :: multiset(Filter(xs, p))[x] == if p(x) then multiset(xs)[x] else 0
  {
    if |xs| > 0 {
      FilterCounts(xs[1..], p);
      assert xs == [xs[0]] + xs[1..];
      assert Filter(xs, p) == (if p(xs[0]) then [xs[0]] else []) + Filter(xs[1..], p);
    }
  }

  /** `xs.findIndex(x => x == y)` for an `y` that occurs: the first position. */
  function IndexOf<T(==)>(xs: seq<T>, y: T): (i: nat)
    requires y in xs
    ensures i < |xs| && xs[i] == y
    ensures y !in xs[..i]
  {
    if xs[0] == y then 0 else 1 + IndexOf(xs[1..], y)
  }

  /** `xs.find(p)`: the first element satisfying `p`, or nothing. */
  function FindFirst<T>(xs: seq<T>, p: T -> bool): (r: Option<T>)
    ensures r.None? <==> forall i :: 0 <= i < |xs| ==> !p(xs[i])
    ensures r.Some? ==> exists i :: 0 <= i < |xs| && xs[i] == r.value && p(xs[i])
                                   && forall j :: 0 <= j < i ==> !p(xs[j])
  {
    if |xs| == 0 then None
    else if p(xs[0]) then Some(xs[0])
    else
      var r := FindFirst(xs[1..], p);
      assert forall i :: 1 <= i < |xs| ==> xs[i] == xs[1..][i - 1];
      r
  }

  /** `[...new Set(xs)]`: each distinct element once, in order of first occurrence. */
  function Distinct<T(==,!new)>(xs: seq<T>): (r: seq<T>)
    ensures NoDup(r)
    ensures forall x :: x in r <==> x in xs
  {
    if |xs| == 0 then []
    else
      var d := Distinct(xs[..|xs| - 1]);
      assert xs == xs[..|xs| - 1] + [xs[|xs| - 1]];
      if xs[|xs| - 1] in d then d else d + [xs[|xs| - 1]]
  }

  /** Appending leaves the first position of an element already present unchanged. */
  lemma IndexOfExtension<T>(xs: seq<T>, x: T, y: T)
    requires y in xs
    ensures y in xs + [x] && IndexOf(xs + [x], y) == IndexOf(xs, y)
  {
    if xs[0] != y {
      assert (xs + [x])[1..] == xs[1..] + [x];
      IndexOfExtension(xs[1..], x, y);
    }
  }

  /** The distinct elements are listed in order of their first occurrence. */
  lemma {:induction false} DistinctKeepsFirstOccurrenceOrder<T(!new)>(xs: seq<T>)
    ensures forall i, j :: 0 <= i < j < |Distinct(xs)| ==>
              Distinct(xs)[i] in xs && Distinct(xs)[j] in xs &&
              IndexOf(xs, Distinct(xs)[i]) < IndexOf(xs, Distinct(xs)[j])
  {
    if |xs| > 0 {
      var p := xs[..|xs| - 1];
      var x := xs[|xs| - 1];
      assert xs == p + [x];
      DistinctKeepsFirstOccurrenceOrder(p);
      var d := Distinct(p);
      var r := Distinct(xs);
      forall y | y in d
        ensures y in p && IndexOf(xs, y) == IndexOf(p, y) && IndexOf(p, y) < |p|
      {
        IndexOfExtension(p, x, y);
      }
      if x !in d {
        assert r == d + [x];
        assert IndexOf(xs, x) == |p|;
        forall i, j | 0 <= i < j < |r|
          ensures r[i] in xs && r[j] in xs && IndexOf(xs, r[i]) < IndexOf(xs, r[j])
        {
          assert r[i] == d[i] && r[i] in d;
          if j < |d| { assert r[j] == d[j] && r[j] in d; }
        }
      } else {
        assert r == d;
        forall i, j | 0 <= i < j < |r|
          ensures r[i] in xs && r[j] in xs && IndexOf(xs, r[i]) < IndexOf(xs, r[j])
        {
          assert r[i] in d && r[j] in d;
        }
      }
    } else {
      assert Distinct(xs) == [];
    }
  }

  /** React's rendering of an array of arrays: the inner arrays concatenated. */
  function Flatten<T(!new)>(groups: seq<seq<T>>): (r: seq<T>)
    ensures forall x :: x in r <==> exists g :: 0 <= g < |groups| && x in groups[g]
  {
    if |groups| == 0 then []
    else
      var rest := Flatten(groups[1..]);
      assert forall g :: 1 <= g < |groups| ==> groups[g] == groups[1..][g - 1];
      groups[0] + rest
  }
}
