/** The items-sold table: one row per distinct item name under one column
    per header date. Each header's sales of the item render as a list of
    cells, and React concatenates these lists into the row. */
module ItemSales {
  import opened Wrappers
  import opened Seqs
  import opened SalesModel

  /** A rendered row: the item name cell followed by the sale cells in
      render order. */
  datatype ItemSalesRow = ItemSalesRow(itemName: string, cells: seq<ItemSale>)

  /** `[...new Set(items.map(i => i.itemName))]`. */
  function RowNames(items: seq<ItemSale>): (r: seq<string>)
    ensures NoDup(r)
    ensures forall n :: n in r <==> exists i :: 0 <= i < |items| && items[i].itemName == n
  {
    var names := ItemNames(items);
    assert forall n :: n in names <==> exists i :: 0 <= i < |items| && items[i].itemName == n by {
      forall n ensures n in names <==> exists i :: 0 <= i < |items| && items[i].itemName == n {
        if n in names {
          var i :| 0 <= i < |names| && names[i] == n;
        }
      }
    }
    Distinct(names)
  }

  /** Rows come in the order of each item's first sale. */
  lemma RowsInFirstSaleOrder(items: seq<ItemSale>)
    ensures forall i, j :: 0 <= i < j < |RowNames(items)| ==>
              && RowNames(items)[i] in ItemNames(items) && RowNames(items)[j] in ItemNames(items)
              && IndexOf(ItemNames(items), RowNames(items)[i]) < IndexOf(ItemNames(items), RowNames(items)[j])
  {
    assert RowNames(items) == Distinct(ItemNames(items));
    DistinctKeepsFirstOccurrenceOrder(ItemNames(items));
  }

  /** `data.items.filter(item => item.itemName === itemName)`. */
  function ItemData(items: seq<ItemSale>, name: string): (r: seq<ItemSale>)
    ensures forall x :: x in r <==> x in items && x.itemName == name
  {
    Filter(items, (x: ItemSale) => x.itemName == name)
  }

  /** The sales each header callback returns: the item's sales on that
      header's date. */
  function CellsFor(itemData: seq<ItemSale>, headers: seq<SalesHeader>): (r: seq<seq<ItemSale>>)
    ensures |r| == |headers|
    ensures forall h :: 0 <= h < |headers| ==>
              forall x :: x in r[h] <==> x in itemData && x.date == headers[h].date
  {
    seq(|headers|, h requires 0 <= h < |headers| => Filter(itemData, (x: ItemSale) => x.date == headers[h].date))
  }

  function HeaderDates(headers: seq<SalesHeader>): (r: seq<string>)
    ensures |r| == |headers| && forall h :: 0 <= h < |headers| ==> r[h] == headers[h].date
  {
    seq(|headers|, h requires 0 <= h < |headers| => headers[h].date)
  }

  /** One row's cells as written: the item's sales on each header date in
      turn, concatenated, so a date without a sale leaves no cell. */
  function RowCells(items: seq<ItemSale>, name: string, headers: seq<SalesHeader>): (r: seq<ItemSale>)
    ensures forall x :: x in r <==> x in items && x.itemName == name && x.date in HeaderDates(headers)
  {
    var groups := CellsFor(ItemData(items, name), headers);
    assert forall x :: x in items && x.itemName == name && x.date in HeaderDates(headers) ==> x in Flatten(groups) by {
      forall x | x in items && x.itemName == name && x.date in HeaderDates(headers) ensures x in Flatten(groups) {
        var h :| 0 <= h < |headers| && HeaderDates(headers)[h] == x.date;
        assert x in groups[h];
      }
    }
    Flatten(groups)
  }

  /** The table as written: nothing without data; otherwise one row per
      distinct item name, in first-sale order, holding that item's cells. */
  function SalesTable(data: Option<ItemsSales>): (r: Option<seq<ItemSalesRow>>)
    ensures r.None? <==> data.None?
    ensures r.Some? ==>
              && |r.value| == |RowNames(data.value.items)|
              && forall k :: 0 <= k < |r.value| ==>
                   && r.value[k].itemName == RowNames(data.value.items)[k]
                   && r.value[k].cells == RowCells(data.value.items, r.value[k].itemName, data.value.headers)
  {
    if data.None? then None
    else
      var d := data.value;
      var names := RowNames(d.items);
      Some(seq(|names|, k requires 0 <= k < |names| => ItemSalesRow(names[k], RowCells(d.items, names[k], d.headers))))
  }

  /** Every sale on a header date is rendered in its item's row. */
  lemma SaleAppearsInItsRow(data: ItemsSales, x: ItemSale, h: int)
    requires x in data.items && 0 <= h < |data.headers| && data.headers[h].date == x.date
    ensures var rows := SalesTable(Some(data)).value;
            exists k :: 0 <= k < |rows| && rows[k].itemName == x.itemName && x in rows[k].cells
  {
    var names := RowNames(data.items);
    var i :| 0 <= i < |data.items| && data.items[i] == x;
    assert x.itemName in names;
    var k :| 0 <= k < |names| && names[k] == x.itemName;
    var rows := SalesTable(Some(data)).value;
    assert HeaderDates(data.headers)[h] == x.date;
    assert rows[k].itemName == x.itemName;
  }

  /** The cells line up with the columns: one cell per header, each a sale
      on that header's date. */
  predicate Aligned(cells: seq<ItemSale>, dates: seq<string>) {
    |cells| == |dates| && forall h :: 0 <= h < |cells| ==> cells[h].date == dates[h]
  }

  /** Every sale in the h-th group is dated `dates[h]`. */
  predicate GroupsDated(groups: seq<seq<ItemSale>>, dates: seq<string>) {
    |groups| == |dates| && forall h, x :: 0 <= h < |groups| && x in groups[h] ==> x.date == dates[h]
  }

  /** With distinct column dates, the concatenated cells line up with the
      columns exactly when every column has exactly one sale. */
  lemma {:induction false} FlattenAlignedIff(groups: seq<seq<ItemSale>>, dates: seq<string>)
    requires GroupsDated(groups, dates) && NoDup(dates)
    ensures Aligned(Flatten(groups), dates) <==> forall h :: 0 <= h < |groups| ==> |groups[h]| == 1
  {
    if |groups| > 0 {
      var rest := groups[1..];
      GroupsDatedTail(groups, dates);
      FlattenAlignedIff(rest, dates[1..]);
      assert Flatten(groups) == groups[0] + Flatten(rest);
      LaterCellsLaterDates(rest, dates[1..]);
      if Aligned(Flatten(groups), dates) {
        HeadSingleton(groups[0], Flatten(rest), dates);
        forall h | 0 <= h < |groups| ensures |groups[h]| == 1 {
          if h > 0 { assert groups[h] == rest[h - 1]; }
        }
      }
      if forall h :: 0 <= h < |groups| ==> |groups[h]| == 1 {
        forall h | 0 <= h < |rest| ensures |rest[h]| == 1 {
          assert rest[h] == groups[h + 1];
        }
        assert groups[0][0] in groups[0];
        ConsAligned(groups[0], Flatten(rest), dates);
      }
    }
  }

  /** Dropping the first column keeps groups dated and dates distinct. */
  lemma GroupsDatedTail(groups: seq<seq<ItemSale>>, dates: seq<string>)
    requires GroupsDated(groups, dates) && NoDup(dates) && |groups| > 0
    ensures GroupsDated(groups[1..], dates[1..]) && NoDup(dates[1..])
  {
    var rest, later := groups[1..], dates[1..];
    forall h, x: ItemSale | 0 <= h < |rest| && x in rest[h] ensures x.date == later[h] {
      assert rest[h] == groups[h + 1];
    }
    forall i, j | 0 <= i < j < |later| ensures later[i] != later[j] {
      assert later[i] == dates[i + 1] && later[j] == dates[j + 1];
    }
  }

  /** Every cell of dated groups carries one of their dates. */
  lemma LaterCellsLaterDates(groups: seq<seq<ItemSale>>, dates: seq<string>)
    requires GroupsDated(groups, dates)
    ensures forall x :: x in Flatten(groups) ==> x.date in dates
  {
    forall x | x in Flatten(groups) ensures x.date in dates {
      var j :| 0 <= j < |groups| && x in groups[j];
      assert x.date == dates[j];
    }
  }

  /** Aligned cells whose first group is dated with the first column and
      whose other cells carry later dates: the first group is one sale. */
  lemma HeadSingleton(g0: seq<ItemSale>, f: seq<ItemSale>, dates: seq<string>)
    requires |dates| > 0 && NoDup(dates) && Aligned(g0 + f, dates)
    requires forall x :: x in g0 ==> x.date == dates[0]
    requires forall x :: x in f ==> x.date in dates[1..]
    ensures |g0| == 1 && Aligned(f, dates[1..])
  {
    var cells := g0 + f;
    assert dates[0] !in dates[1..] by {
      forall j | 0 <= j < |dates[1..]| ensures dates[1..][j] != dates[0] {
        assert dates[1..][j] == dates[j + 1];
      }
    }
    assert |g0| >= 1 by {
      assert cells[0].date == dates[0];
    }
    // The second column's date differs from the first, so a second sale in
    // the first group, dated with the first column, cannot fill it.
    assert |dates| > 1 ==> dates[1] != dates[0];
    assert forall i :: 0 <= i < |g0| ==> dates[i] == dates[0] by {
      forall i | 0 <= i < |g0| ensures dates[i] == dates[0] {
        assert cells[i] == g0[i] && g0[i] in g0;
      }
    }
    assert |g0| <= 1;
    forall h | 0 <= h < |f| ensures f[h].date == dates[1..][h] {
      assert f[h] == cells[h + 1];
    }
  }

  /** One sale on the first date ahead of aligned later cells is aligned. */
  lemma ConsAligned(g0: seq<ItemSale>, f: seq<ItemSale>, dates: seq<string>)
    requires |dates| > 0 && |g0| == 1 && g0[0].date == dates[0] && Aligned(f, dates[1..])
    ensures Aligned(g0 + f, dates)
  {
    var cells := g0 + f;
    forall h | 0 <= h < |cells| ensures cells[h].date == dates[h] {
      if h > 0 { assert cells[h] == f[h - 1]; }
    }
  }

  /** As written, a row's cells sit under the right columns exactly when the
      item has exactly one sale on every header date (header dates being
      distinct). */
  lemma RowAlignedIffOneSalePerDate(data: ItemsSales, k: int)
    requires NoDup(HeaderDates(data.headers))
    requires 0 <= k < |SalesTable(Some(data)).value|
    ensures var row := SalesTable(Some(data)).value[k];
            var groups := CellsFor(ItemData(data.items, row.itemName), data.headers);
            (Aligned(row.cells, HeaderDates(data.headers)) <==>
               forall h :: 0 <= h < |data.headers| ==> |groups[h]| == 1)
  {
    var row := SalesTable(Some(data)).value[k];
    var groups := CellsFor(ItemData(data.items, row.itemName), data.headers);
    assert row.cells == Flatten(groups);
    FlattenAlignedIff(groups, HeaderDates(data.headers));
  }

  /** As written, an item not sold on the first date has its second date's
      sale drawn under the first date's column. */
  lemma MissingDateShiftsCells()
    ensures var tea := ItemSale("Tea", 2, 20, "2 Jan");
            var data := ItemsSales([tea], [SalesHeader("Mon", "1 Jan"), SalesHeader("Tue", "2 Jan")]);
            var rows := SalesTable(Some(data)).value;
            && |rows| == 1
            && rows[0].cells == [tea]
            && rows[0].cells[0].date != data.headers[0].date
  {
    var tea := ItemSale("Tea", 2, 20, "2 Jan");
    var headers := [SalesHeader("Mon", "1 Jan"), SalesHeader("Tue", "2 Jan")];
    OneSaleOneRow(tea);
    TeaCells(tea, headers);
  }

  /** A single sale makes a single row, named after it. */
  lemma OneSaleOneRow(x: ItemSale)
    ensures RowNames([x]) == [x.itemName]
  {
    assert ItemNames([x]) == [x.itemName];
    assert [x.itemName][..0] == [];
    assert Distinct([x.itemName]) == [x.itemName];
  }

  /** The one sale, of the second date, makes up the row's cells. */
  lemma TeaCells(tea: ItemSale, headers: seq<SalesHeader>)
    requires tea == ItemSale("Tea", 2, 20, "2 Jan")
    requires headers == [SalesHeader("Mon", "1 Jan"), SalesHeader("Tue", "2 Jan")]
    ensures RowCells([tea], "Tea", headers) == [tea]
  {
    var itemData := ItemData([tea], "Tea");
    assert itemData == [tea] by { OneSaleFilter(tea, (x: ItemSale) => x.itemName == "Tea"); }
    var groups := CellsFor(itemData, headers);
    assert groups[0] == [] by { OneSaleFilter(tea, (x: ItemSale) => x.date == headers[0].date); }
    assert groups[1] == [tea] by { OneSaleFilter(tea, (x: ItemSale) => x.date == headers[1].date); }
    assert groups[1..] == [[tea]];
    assert Flatten([[tea]]) == [tea] + Flatten([[tea]][1..]);
  }

  lemma OneSaleFilter(x: ItemSale, p: ItemSale -> bool)
    ensures Filter([x], p) == if p(x) then [x] else []
  {
    assert [x][1..] == [];
  }

  /** A row with one cell per column: the item's sale on that column's
      date, or an empty cell when there is none. */
  datatype AlignedRow = AlignedRow(itemName: string, cells: seq<Option<ItemSale>>)

  /** The cells of one row, one per header. */
  function AlignedCells(itemData: seq<ItemSale>, headers: seq<SalesHeader>): (r: seq<Option<ItemSale>>)
    ensures |r| == |headers|
    ensures forall h :: 0 <= h < |headers| ==>
              && (r[h].None? <==> forall x :: x in itemData ==> x.date != headers[h].date)
              && (r[h].Some? ==> r[h].value in itemData && r[h].value.date == headers[h].date)
  {
    seq(|headers|, h requires 0 <= h < |headers| => FindFirst(itemData, (x: ItemSale) => x.date == headers[h].date))
  }

  /** The table with its cells aligned to the columns. */
  function SalesTableAligned(data: Option<ItemsSales>): (r: Option<seq<AlignedRow>>)
    ensures r.None? <==> data.None?
    ensures r.Some? ==>
              && |r.value| == |RowNames(data.value.items)|
              && forall k :: 0 <= k < |r.value| ==>
                   && r.value[k].itemName == RowNames(data.value.items)[k]
                   && |r.value[k].cells| == |data.value.headers|
                   && forall h :: 0 <= h < |data.value.headers| ==>
                        && (r.value[k].cells[h].None? <==>
                              forall x :: x in data.value.items && x.itemName == r.value[k].itemName
                                          ==> x.date != data.value.headers[h].date)
                        && (r.value[k].cells[h].Some? ==>
                              && r.value[k].cells[h].value in data.value.items
                              && r.value[k].cells[h].value.itemName == r.value[k].itemName
                              && r.value[k].cells[h].value.date == data.value.headers[h].date)
  {
    if data.None? then None
    else
      var d := data.value;
      var names := RowNames(d.items);
      Some(seq(|names|, k requires 0 <= k < |names| =>
        AlignedRow(names[k], AlignedCells(ItemData(d.items, names[k]), d.headers))))
  }

  /** In the aligned table the column of every sale's date holds a sale of
      that item on that date. */
  lemma SaleFillsItsColumn(data: ItemsSales, x: ItemSale, h: int)
    requires x in data.items && 0 <= h < |data.headers| && data.headers[h].date == x.date
    ensures var rows := SalesTableAligned(Some(data)).value;
            exists k :: 0 <= k < |rows| && rows[k].itemName == x.itemName && rows[k].cells[h].Some?
                        && rows[k].cells[h].value.itemName == x.itemName && rows[k].cells[h].value.date == x.date
  {
    var names := RowNames(data.items);
    var i :| 0 <= i < |data.items| && data.items[i] == x;
    assert x.itemName in names;
    var k :| 0 <= k < |names| && names[k] == x.itemName;
    var rows := SalesTableAligned(Some(data)).value;
    assert rows[k].itemName == x.itemName;
  }

  /** Where every column has exactly one sale, the table as written and the
      aligned table show the same sale in every column. */
  lemma AlignedAgreesWithOneSalePerDate(data: ItemsSales, k: int)
    requires 0 <= k < |SalesTable(Some(data)).value|
    requires var groups := CellsFor(ItemData(data.items, SalesTable(Some(data)).value[k].itemName), data.headers);
             forall h :: 0 <= h < |data.headers| ==> |groups[h]| == 1
    ensures var written := SalesTable(Some(data)).value[k];
            var aligned := SalesTableAligned(Some(data)).value[k];
            && |written.cells| == |aligned.cells|
            && forall h :: 0 <= h < |written.cells| ==> aligned.cells[h] == Some(written.cells[h])
  {
    var written := SalesTable(Some(data)).value[k];
    var itemData := ItemData(data.items, written.itemName);
    assert SalesTableAligned(Some(data)).value[k].cells == AlignedCells(itemData, data.headers);
    assert written.cells == Flatten(CellsFor(itemData, data.headers));
    CellsAgree(itemData, data.headers);
  }

  /** One row's cells: as written against aligned, one sale per column. */
  lemma CellsAgree(itemData: seq<ItemSale>, headers: seq<SalesHeader>)
    requires var groups := CellsFor(itemData, headers);
             forall h :: 0 <= h < |headers| ==> |groups[h]| == 1
    ensures var written := Flatten(CellsFor(itemData, headers));
            var aligned := AlignedCells(itemData, headers);
            && |written| == |aligned|
            && forall h :: 0 <= h < |written| ==> aligned[h] == Some(written[h])
  {
    var groups := CellsFor(itemData, headers);
    var written := Flatten(groups);
    var aligned := AlignedCells(itemData, headers);
    FlattenSingletons(groups);
    forall h | 0 <= h < |written| ensures aligned[h] == Some(written[h]) {
      CellAgrees(itemData, headers, h);
    }
  }

  /** A column with exactly one sale: the aligned cell holds that sale. */
  lemma CellAgrees(itemData: seq<ItemSale>, headers: seq<SalesHeader>, h: int)
    requires 0 <= h < |headers| && |CellsFor(itemData, headers)[h]| == 1
    ensures AlignedCells(itemData, headers)[h] == Some(CellsFor(itemData, headers)[h][0])
  {
    var group := CellsFor(itemData, headers)[h];
    var cell := AlignedCells(itemData, headers)[h];
    assert group == [group[0]] && group[0] in group;
    assert group[0] in itemData && group[0].date == headers[h].date;
    assert cell.Some?;
    assert cell.value in group;
  }

  /** Concatenating one-element groups lists their elements in order. */
  lemma {:induction false} FlattenSingletons(groups: seq<seq<ItemSale>>)
    requires forall h :: 0 <= h < |groups| ==> |groups[h]| == 1
    ensures |Flatten(groups)| == |groups|
    ensures forall h :: 0 <= h < |groups| ==> Flatten(groups)[h] == groups[h][0]
  {
    if |groups| > 0 {
      var rest := groups[1..];
      assert forall h :: 0 <= h < |rest| ==> rest[h] == groups[h + 1];
      FlattenSingletons(rest);
      assert groups[0] == [groups[0][0]];
      assert Flatten(groups) == [groups[0][0]] + Flatten(rest);
    }
  }
}
