/** Page-based listing shared by the orders and users pages: the page comes
    from the `page` query parameter, 20 rows are fetched per page, and the
    fetch helpers replace a falsy skip by 0 and a falsy take by 20. */
module Pagination {
  import opened Wrappers
  import opened Text

  const ItemsPerPage: int := 20

  /** `parseInt(searchParams.get('page') || '0')`. */
  function PageFromQuery(param: Option<string>): (page: Parsed)
    ensures param.None? || param.value == "" ==> page == Num(0)
    ensures forall n: int :: param == Some(IntToString(n)) ==> page == Num(n)
  {
    if param.Some? && param.value != "" then
      (forall n: int | param.value == IntToString(n) ensures ParseNumber(param.value) == Num(n) {
         ParseIntToString(n);
       }
       ParseNumber(param.value))
    else
      assert ParseNumber("0") == Num(0) by { ParseIntToString(0); }
      ParseNumber("0")
  }

  /** `itemsPerPage * page`, NaN when the page is. */
  function PageSkip(page: Parsed): (r: Parsed)
    ensures r.NaN? <==> page.NaN?
    ensures page.Num? ==> r.value == ItemsPerPage * page.value
  {
    match page
    case Num(p) => Num(ItemsPerPage * p)
    case NaN => NaN
  }

  /** `args.skip || 0`. */
  function SkipOrZero(skip: Parsed): int {
    if skip.Falsy() then 0 else skip.value
  }

  /** `args.take || itemsPerPage`. */
  function TakeOrDefault(take: Parsed): int {
    if take.Falsy() then ItemsPerPage else take.value
  }

  datatype Window = Window(skip: int, take: int)

  /** The skip/take pair a page produces on the wire. */
  function PageWindow(page: Parsed): (w: Window)
    ensures w.take == ItemsPerPage
    ensures page.Num? ==> w.skip == ItemsPerPage * page.value
    ensures page.NaN? ==> w.skip == 0
  {
    Window(SkipOrZero(PageSkip(page)), TakeOrDefault(Num(ItemsPerPage)))
  }

  /** Consecutive pages tile the list: each page starts where the one
      before it ends. */
  lemma PagesTile(p: int)
    ensures PageWindow(Num(p + 1)).skip == PageWindow(Num(p)).skip + PageWindow(Num(p)).take
  {
  }

  /** Pages neither overlap nor leave gaps: row `k` lies in the window of
      page `p` exactly when `p` is `k / 20`. */
  lemma RowInExactlyOnePage(k: nat, p: nat)
    ensures PageWindow(Num(p)).skip <= k < PageWindow(Num(p)).skip + PageWindow(Num(p)).take <==> p == k / ItemsPerPage
  {
    var w := PageWindow(Num(p));
    assert w.skip == ItemsPerPage * p && w.take == ItemsPerPage;
    if p == k / ItemsPerPage {
      assert ItemsPerPage * p <= k < ItemsPerPage * p + ItemsPerPage;
    }
    if ItemsPerPage * p <= k < ItemsPerPage * p + ItemsPerPage {
      assert k / ItemsPerPage == p;
    }
  }

  /** A page query that is not a number falls back to the first page. */
  lemma MalformedPageGivesFirstWindow(s: string)
    requires ParseNumber(s).NaN?
    ensures PageWindow(PageFromQuery(Some(s))) == Window(0, ItemsPerPage)
  {
  }

  /** The paginator is shown only above a non-empty list. */
  predicate ShowPaginator<T>(rows: seq<T>) {
    |rows| > 0
  }
}
