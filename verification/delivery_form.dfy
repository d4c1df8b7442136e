/** The delivery settings form: delivery switch, service radius slider and
    the distance/amount charge table. */
module DeliveryForm {
  import opened Wrappers

  datatype ChargeRow = ChargeRow(distance: int, amount: int)

  /** The form values; the slider keeps its value as a one-element array. */
  datatype DeliveryFormValues = DeliveryFormValues(enabled: bool, serviceRadius: seq<int>, deliveryCharges: seq<ChargeRow>)

  const DefaultDeliveryForm := DeliveryFormValues(false, [0], [ChargeRow(0, 0)])

  /** `IDeliveryConfig`. */
  datatype DeliveryConfig = DeliveryConfig(enabled: bool, serviceRadius: int, deliveryCharges: seq<ChargeRow>)

  /** `IShopConfigResponse`; sections of `config` other than `delivery` are
      kept opaque under their keys. */
  datatype ShopConfig = ShopConfig(id: string, shopId: string, delivery: DeliveryConfig, otherSections: map<string, string>)

  /** The delivery section as submitted: `serviceRadius[0]` is undefined
      when the slider array is empty. */
  datatype DeliveryRequest = DeliveryRequest(enabled: bool, serviceRadius: Option<int>, deliveryCharges: seq<ChargeRow>)

  /** `IShopConfigRequest`. */
  datatype ShopConfigRequest = ShopConfigRequest(id: Option<string>, shopId: string, delivery: DeliveryRequest, otherSections: map<string, string>)

  datatype DeliveryPage = DeliveryPage(form: DeliveryFormValues, config: Option<ShopConfig>)

  /** `getShopSettings`: the loaded delivery section goes into the form and
      the whole response is kept. */
  function LoadConfig(page: DeliveryPage, res: ShopConfig): (r: DeliveryPage)
    ensures r.config == Some(res)
    ensures r.form.enabled == res.delivery.enabled && r.form.serviceRadius == [res.delivery.serviceRadius]
    ensures r.form.deliveryCharges == res.delivery.deliveryCharges
  {
    DeliveryPage(DeliveryFormValues(res.delivery.enabled, [res.delivery.serviceRadius], res.delivery.deliveryCharges), Some(res))
  }

  /** Submitting: nothing without a route shop id; otherwise the loaded
      config's id, its shop id or else the route's, its other sections
      untouched, and the form's delivery values with the slider unwrapped. */
  function DeliverySubmit(page: DeliveryPage, routeShopId: string): (r: Option<ShopConfigRequest>)
    ensures r.None? <==> routeShopId == ""
    ensures r.Some? ==> r.value.id == (if page.config.Some? then Some(page.config.value.id) else None)
    ensures r.Some? ==> r.value.shopId != ""
    ensures r.Some? && page.config.Some? && page.config.value.shopId != "" ==> r.value.shopId == page.config.value.shopId
    ensures r.Some? && (page.config.None? || page.config.value.shopId == "") ==> r.value.shopId == routeShopId
    ensures r.Some? ==> (r.value.shopId == routeShopId <==> page.config.None? || page.config.value.shopId == "" || page.config.value.shopId == routeShopId)
    ensures r.Some? && page.config.Some? ==> r.value.otherSections == page.config.value.otherSections
    ensures r.Some? ==> && r.value.delivery.enabled == page.form.enabled
                        && r.value.delivery.deliveryCharges == page.form.deliveryCharges
                        && (r.value.delivery.serviceRadius.Some? <==> |page.form.serviceRadius| > 0)
                        && (|page.form.serviceRadius| > 0 ==> r.value.delivery.serviceRadius == Some(page.form.serviceRadius[0]))
  {
    if routeShopId == "" then None
    else
      var f := page.form;
      var radius := if |f.serviceRadius| > 0 then Some(f.serviceRadius[0]) else None;
      var c := page.config;
      Some(ShopConfigRequest(
        if c.Some? then Some(c.value.id) else None,
        if c.Some? && c.value.shopId != "" then c.value.shopId else routeShopId,
        DeliveryRequest(f.enabled, radius, f.deliveryCharges),
        if c.Some? then c.value.otherSections else map[]))
  }

  /** Loading a config and saving it unchanged sends it back as it was. */
  lemma LoadThenSubmitRoundTrip(page: DeliveryPage, res: ShopConfig, routeShopId: string)
    requires routeShopId != "" && res.shopId != ""
    ensures DeliverySubmit(LoadConfig(page, res), routeShopId) ==
              Some(ShopConfigRequest(Some(res.id), res.shopId,
                                     DeliveryRequest(res.delivery.enabled, Some(res.delivery.serviceRadius), res.delivery.deliveryCharges),
                                     res.otherSections))
  {
  }

  /** "Add new row": a zero charge row at the end. */
  function AddChargeRow(rows: seq<ChargeRow>): (r: seq<ChargeRow>)
    ensures |r| == |rows| + 1 && r[..|rows|] == rows && r[|rows|] == ChargeRow(0, 0)
  {
    rows + [ChargeRow(0, 0)]
  }

  /** The remove button of a row; the first row's button is disabled. */
  function RemoveChargeRow(rows: seq<ChargeRow>, index: nat): (r: seq<ChargeRow>)
    requires index < |rows|
    ensures index == 0 ==> r == rows
    ensures index > 0 ==> |r| == |rows| - 1 && r[..index] == rows[..index] && r[index..] == rows[index + 1..]
  {
    if index == 0 then rows else rows[..index] + rows[index + 1..]
  }

  /** The first charge row survives every removal. */
  lemma FirstRowNeverRemoved(rows: seq<ChargeRow>, index: nat)
    requires index < |rows|
    ensures |RemoveChargeRow(rows, index)| >= 1 && RemoveChargeRow(rows, index)[0] == rows[0]
  {
  }

  /** Removing a freshly added row restores the table. */
  lemma AddThenRemoveRestores(rows: seq<ChargeRow>)
    requires |rows| > 0
    ensures RemoveChargeRow(AddChargeRow(rows), |rows|) == rows
  {
  }
}
