/** The orders page request: closed orders of the logged-in employee, one
    page at a time. */
module Orders {
  import opened Wrappers
  import opened Text
  import opened Pagination

  datatype OrdersQuery = OrdersQuery(
    shopId: string,
    orderStatusId: Option<int>,
    isClosed: bool,
    employeeId: Option<string>,
    skip: int,
    take: int)

  /** The effect on the route and login state: a request only under a shop. */
  function OrdersFetch(shopId: string, pageParam: Option<string>, loggedInUserId: Option<string>): (r: Option<OrdersQuery>)
    ensures r.None? <==> shopId == ""
    ensures r.Some? ==> && r.value.shopId == shopId
                        && r.value.isClosed
                        && r.value.employeeId == loggedInUserId
                        && r.value.orderStatusId.None?
                        && r.value.take == ItemsPerPage
    ensures r.Some? && PageFromQuery(pageParam).Num? ==>
              r.value.skip == ItemsPerPage * PageFromQuery(pageParam).value
    ensures r.Some? && PageFromQuery(pageParam).NaN? ==> r.value.skip == 0
  {
    if shopId == "" then None
    else
      var w := PageWindow(PageFromQuery(pageParam));
      Some(OrdersQuery(shopId, None, true, loggedInUserId, w.skip, w.take))
  }

  /** Without a page parameter the first twenty orders are requested. */
  lemma NoPageParamMeansFirstPage(shopId: string, loggedInUserId: Option<string>)
    requires shopId != ""
    ensures OrdersFetch(shopId, None, loggedInUserId).value.skip == 0
  {
  }
}
