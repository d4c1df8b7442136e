/** The items-sold pie chart: quantities grouped by item name, smallest
    slice first. */
module ItemSalesShare {
  import opened Wrappers
  import opened Seqs
  import opened Sorting
  import opened SalesModel

  /** One pie slice: an item name and the quantity sold under it. */
  datatype Slice = Slice(name: string, value: int)

  function SliceValue(s: Slice): int {
    s.value
  }

  function SliceNames(acc: seq<Slice>): (r: seq<string>)
    ensures |r| == |acc| && forall i :: 0 <= i < |acc| ==> r[i] == acc[i].name
  {
    seq(|acc|, i requires 0 <= i < |acc| => acc[i].name)
  }

  /** `acc[name]` of the grouping object: the value under the first entry
      with that name, 0 when there is none (the `|| 0` default). */
  function ValueOf(acc: seq<Slice>, name: string): int {
    if |acc| == 0 then 0
    else if acc[0].name == name then acc[0].value
    else ValueOf(acc[1..], name)
  }

  /** `acc[name] = q + (acc[name] || 0)`: adds to an existing key in place,
      or appends a new key at the end (object keys keep insertion order). */
  function Bump(acc: seq<Slice>, name: string, q: int): seq<Slice> {
    if |acc| == 0 then [Slice(name, q)]
    else if acc[0].name == name then [Slice(name, q + acc[0].value)] + acc[1..]
    else [acc[0]] + Bump(acc[1..], name, q)
  }

  /** `data.items.reduce(...)` over the items from first to last: the keys
      are the distinct item names in order of first sale. */
  function Group(items: seq<ItemSale>): (r: seq<Slice>)
    ensures SliceNames(r) == Distinct(ItemNames(items))
  {
    if |items| == 0 then []
    else
      var init := items[..|items| - 1];
      var last := items[|items| - 1];
      var acc := Group(init);
      BumpNames(acc, last.itemName, last.quantitySold);
      assert ItemNames(items)[..|items| - 1] == ItemNames(init);
      Bump(acc, last.itemName, last.quantitySold)
  }

  /** Reference definition: total quantity sold under one name. */
  function QuantityOf(items: seq<ItemSale>, name: string): int {
    if |items| == 0 then 0
    else
      var last := items[|items| - 1];
      QuantityOf(items[..|items| - 1], name) + (if last.itemName == name then last.quantitySold else 0)
  }

  lemma SliceNamesCons(x: Slice, t: seq<Slice>)
    ensures SliceNames([x] + t) == [x.name] + SliceNames(t)
  {
  }

  lemma {:induction false} BumpNames(acc: seq<Slice>, name: string, q: int)
    ensures name in SliceNames(acc) ==> SliceNames(Bump(acc, name, q)) == SliceNames(acc)
    ensures name !in SliceNames(acc) ==> SliceNames(Bump(acc, name, q)) == SliceNames(acc) + [name]
  {
    if |acc| == 0 {
      assert SliceNames([Slice(name, q)]) == [name];
    } else {
      var h := acc[0];
      var tail := acc[1..];
      assert acc == [h] + tail;
      SliceNamesCons(h, tail);
      if h.name == name {
        assert Bump(acc, name, q) == [Slice(name, q + h.value)] + tail;
        SliceNamesCons(Slice(name, q + h.value), tail);
        assert SliceNames(Bump(acc, name, q)) == SliceNames(acc);
      } else {
        var rest := Bump(tail, name, q);
        assert Bump(acc, name, q) == [h] + rest;
        BumpNames(tail, name, q);
        SliceNamesCons(h, rest);
        var t := SliceNames(tail);
        assert SliceNames(acc) == [h.name] + t;
        assert name in SliceNames(acc) <==> name in t;
        if name in t {
          assert SliceNames(rest) == t;
          assert SliceNames(Bump(acc, name, q)) == SliceNames(acc);
        } else {
          assert SliceNames(rest) == t + [name];
          assert [h.name] + (t + [name]) == ([h.name] + t) + [name];
        }
      }
    }
  }

  lemma {:induction false} BumpValueOf(acc: seq<Slice>, name: string, q: int, n: string)
    ensures ValueOf(Bump(acc, name, q), n) == ValueOf(acc, n) + (if n == name then q else 0)
  {
    if |acc| > 0 && acc[0].name != name {
      BumpValueOf(acc[1..], name, q, n);
    }
  }

  lemma {:induction false} BumpSum(acc: seq<Slice>, name: string, q: int)
    ensures SumBy(Bump(acc, name, q), SliceValue) == SumBy(acc, SliceValue) + q
  {
    if |acc| > 0 && acc[0].name != name {
      BumpSum(acc[1..], name, q);
    }
  }

  /** Each key holds the total quantity sold under that name. */
  lemma {:induction false} GroupValues(items: seq<ItemSale>, n: string)
    ensures ValueOf(Group(items), n) == QuantityOf(items, n)
  {
    if |items| > 0 {
      var init := items[..|items| - 1];
      var last := items[|items| - 1];
      GroupValues(init, n);
      BumpValueOf(Group(init), last.itemName, last.quantitySold, n);
    }
  }

  /** Grouping neither loses nor invents quantity. */
  lemma {:induction false} GroupTotal(items: seq<ItemSale>)
    ensures SumBy(Group(items), SliceValue) == SumBy(items, Quantity)
  {
    if |items| > 0 {
      var init := items[..|items| - 1];
      var last := items[|items| - 1];
      GroupTotal(init);
      BumpSum(Group(init), last.itemName, last.quantitySold);
      assert items == init + [last];
      SumByAppend(init, last, Quantity);
    }
  }

  /** With distinct names, an entry's own value is what a lookup of its name returns. */
  lemma {:induction false} ValueOfDistinctEntry(acc: seq<Slice>, i: int)
    requires NoDup(SliceNames(acc)) && 0 <= i < |acc|
    ensures ValueOf(acc, acc[i].name) == acc[i].value
  {
    if i > 0 {
      assert SliceNames(acc)[0] != SliceNames(acc)[i];
      assert SliceNames(acc[1..]) == SliceNames(acc)[1..];
      ValueOfDistinctEntry(acc[1..], i - 1);
    }
  }

  /** The pie chart: nothing without data; otherwise the grouped slices in
      ascending order of quantity. */
  function ChartData(data: Option<ItemsSales>): (r: Option<seq<Slice>>)
    ensures r.None? <==> data.None?
    ensures r.Some? ==> forall i, j :: 0 <= i < j < |r.value| ==> r.value[i].value <= r.value[j].value
    ensures r.Some? ==> multiset(r.value) == multiset(Group(data.value.items))
  {
    if data.None? then None else Some(SortByKey(Group(data.value.items), SliceValue))
  }

  /** Every slice is one sold item name carrying that name's total quantity,
      every sold name has a slice, there is one slice per distinct name, and
      the slices add up to all quantity sold. */
  lemma ChartDataMeaning(data: ItemsSales)
    ensures var r := ChartData(Some(data)).value;
            && (forall s :: s in r ==> s.name in ItemNames(data.items) && s.value == QuantityOf(data.items, s.name))
            && (forall n :: n in ItemNames(data.items) ==> exists s :: s in r && s.name == n)
            && |r| == |Distinct(ItemNames(data.items))|
            && SumBy(r, SliceValue) == SumBy(data.items, Quantity)
  {
    var g := Group(data.items);
    var r := ChartData(Some(data)).value;
    assert forall s :: s in r <==> s in g by {
      forall s ensures s in r <==> s in g {
        assert s in r <==> s in multiset(r);
        assert s in g <==> s in multiset(g);
      }
    }
    forall s | s in r ensures s.name in ItemNames(data.items) && s.value == QuantityOf(data.items, s.name) {
      var i :| 0 <= i < |g| && g[i] == s;
      assert SliceNames(g)[i] == s.name;
      ValueOfDistinctEntry(g, i);
      GroupValues(data.items, s.name);
    }
    forall n | n in ItemNames(data.items) ensures exists s :: s in r && s.name == n {
      var i :| 0 <= i < |SliceNames(g)| && SliceNames(g)[i] == n;
      assert g[i] in r;
    }
    assert |r| == |multiset(r)| == |multiset(g)| == |g|;
    SortPreservesSum(g, ByKey(SliceValue), SliceValue);
    GroupTotal(data.items);
  }
}
