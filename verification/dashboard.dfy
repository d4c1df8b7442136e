/** The dashboard page: the week selector, the sales series and the summary
    cards. The clock is a parameter: the two week ranges and yesterday's
    label are computed from the current date by the caller. */
module Dashboard {
  import opened Wrappers
  import opened Seqs
  import opened Sorting
  import opened SalesModel

  const CurrentWeek := "current_week"
  const PreviousWeek := "previous_week"

  datatype DateRange = DateRange(startDate: string, endDate: string)

  /** `createRange`: the ISO week containing today, or the one before it;
      any other selector value gives no range. */
  function CreateRange(range: string, thisWeek: DateRange, lastWeek: DateRange): (r: Option<DateRange>)
    ensures r.Some? <==> range in {CurrentWeek, PreviousWeek}
    ensures range == CurrentWeek ==> r == Some(thisWeek)
    ensures range == PreviousWeek ==> r == Some(lastWeek)
  {
    if range == CurrentWeek then Some(thisWeek)
    else if range == PreviousWeek then Some(lastWeek)
    else None
  }

  /** `filterText.get(range)`: the selector's caption. */
  function FilterText(range: string): (r: Option<string>)
    ensures r.Some? <==> CreateRange(range, DateRange("", ""), DateRange("", "")).Some?
  {
    if range == CurrentWeek then Some("This Week")
    else if range == PreviousWeek then Some("Last Week")
    else None
  }

  /** The effect: both sales requests go out for the range exactly when the
      route has a shop id and the selector names a known week. */
  function SalesFetch(shopId: string, range: string, thisWeek: DateRange, lastWeek: DateRange): (r: Option<(string, DateRange)>)
    ensures r.Some? <==> shopId != "" && range in {CurrentWeek, PreviousWeek}
    ensures r.Some? ==> r.value.0 == shopId && Some(r.value.1) == CreateRange(range, thisWeek, lastWeek)
  {
    var dateRange := CreateRange(range, thisWeek, lastWeek);
    if shopId != "" && dateRange.Some? then Some((shopId, dateRange.value)) else None
  }

  /** `ISalesSeriesData`: a day's takings with the day's label as `name`. */
  datatype SeriesPoint = SeriesPoint(name: string, total: int, cash: int, upi: int, debitCard: int, creditCard: int)

  /** `Object.keys(salesByDate).map(key => ({...salesByDate[key], name: key}))`. */
  function SalesSeries(salesByDate: seq<(string, SalesData)>): (r: seq<SeriesPoint>)
    ensures |r| == |salesByDate|
    ensures forall i :: 0 <= i < |r| ==> EntryOf(r[i]) == salesByDate[i]
  {
    seq(|salesByDate|, i requires 0 <= i < |salesByDate| =>
      var d := salesByDate[i].1;
      SeriesPoint(salesByDate[i].0, d.total, d.cash, d.upi, d.debitCard, d.creditCard))
  }

  /** Reading a point back as a keyed entry. */
  function EntryOf(p: SeriesPoint): (string, SalesData) {
    (p.name, SalesData(p.total, p.cash, p.upi, p.debitCard, p.creditCard))
  }

  /** The series loses nothing: reading its points back gives the response's
      entries, keys and figures, in the same order. */
  lemma SeriesRoundTrip(salesByDate: seq<(string, SalesData)>)
    ensures var s := SalesSeries(salesByDate);
            seq(|s|, i requires 0 <= i < |s| => EntryOf(s[i])) == salesByDate
  {
  }

  function PointTotal(p: SeriesPoint): int { p.total }
  function PointCash(p: SeriesPoint): int { p.cash }
  function PointUpi(p: SeriesPoint): int { p.upi }

  datatype Totals = Totals(total: int, cash: int, upi: int)

  /** The three summary cards: `reduce((acc, curr) => acc + curr.x, 0)` for
      total, cash and UPI. */
  function SalesTotals(series: seq<SeriesPoint>): (r: Totals)
    ensures |series| == 0 ==> r == Totals(0, 0, 0)
  {
    Totals(SumBy(series, PointTotal), SumBy(series, PointCash), SumBy(series, PointUpi))
  }

  /** Adding one more day adds exactly that day's figures to each card. */
  lemma TotalsAddDay(series: seq<SeriesPoint>, p: SeriesPoint)
    ensures SalesTotals(series + [p]) ==
              Totals(SalesTotals(series).total + p.total, SalesTotals(series).cash + p.cash,
                     SalesTotals(series).upi + p.upi)
  {
    SumByAppend(series, p, PointTotal);
    SumByAppend(series, p, PointCash);
    SumByAppend(series, p, PointUpi);
  }

  /** `salesByDate.find(sale => sale.name === yesterday)`. */
  function LastDaySale(series: seq<SeriesPoint>, yesterday: string): (r: Option<SeriesPoint>)
    ensures r.None? <==> forall i :: 0 <= i < |series| ==> series[i].name != yesterday
    ensures r.Some? ==> exists i :: 0 <= i < |series| && series[i] == r.value && r.value.name == yesterday
                                   && forall j :: 0 <= j < i ==> series[j].name != yesterday
  {
    FindFirst(series, (p: SeriesPoint) => p.name == yesterday)
  }

  /** The "Last Day's Sale" card: `lastDaySale?.total || 0`. */
  function LastDayCard(series: seq<SeriesPoint>, yesterday: string): (r: int)
    ensures (forall i :: 0 <= i < |series| ==> series[i].name != yesterday) ==> r == 0
    ensures (exists i :: 0 <= i < |series| && series[i].name == yesterday) ==>
              exists i :: 0 <= i < |series| && series[i].name == yesterday && r == series[i].total
  {
    var s := LastDaySale(series, yesterday);
    if s.Some? then s.value.total else 0
  }

  predicate KeysUnique(salesByDate: seq<(string, SalesData)>) {
    forall i, j :: 0 <= i < j < |salesByDate| ==> salesByDate[i].0 != salesByDate[j].0
  }

  /** The card shows the response's total for yesterday's key. */
  lemma LastDayCardShowsYesterday(salesByDate: seq<(string, SalesData)>, k: int)
    requires KeysUnique(salesByDate) && 0 <= k < |salesByDate|
    ensures LastDayCard(SalesSeries(salesByDate), salesByDate[k].0) == salesByDate[k].1.total
  {
    var s := SalesSeries(salesByDate);
    var y := salesByDate[k].0;
    var found := LastDaySale(s, y);
    assert s[k].name == y;
    var i :| 0 <= i < |s| && s[i] == found.value && s[i].name == y;
  }
}
