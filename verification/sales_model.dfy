/** Sales records the dashboard receives. `IItemsSalesResponse` is not part of
    this model's sources; its shape is the one the dashboard components read. */
module SalesModel {
  /** One item's sales on one date. */
  datatype ItemSale = ItemSale(itemName: string, quantitySold: int, price: int, date: string)

  /** A column of the items table. */
  datatype SalesHeader = SalesHeader(day: string, date: string)

  datatype ItemsSales = ItemsSales(items: seq<ItemSale>, headers: seq<SalesHeader>)

  /** `ISalesData`: one day's takings by payment mode. */
  datatype SalesData = SalesData(total: int, cash: int, upi: int, debitCard: int, creditCard: int)

  /** `ISalesResponse`: `salesByDate` keyed by the day's label, in key order. */
  datatype SalesResponse = SalesResponse(salesByDate: seq<(string, SalesData)>, lastPeriodTotalSales: int)

  function ItemNames(items: seq<ItemSale>): (r: seq<string>)
    ensures |r| == |items| && forall i :: 0 <= i < |items| ==> r[i] == items[i].itemName
  {
    seq(|items|, i requires 0 <= i < |items| => items[i].itemName)
  }

  function Quantity(s: ItemSale): int {
    s.quantitySold
  }
}
