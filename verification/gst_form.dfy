/** The "GST and Charges" settings form. Percentages are typed as text and
    read back with `parseFloat`, modelled on whole numbers. */
module GstForm {
  import opened Wrappers
  import opened Text
  import opened ShopModel

  datatype GstFormValues = GstFormValues(
    gstinNo: string,
    cgstPercentage: string,
    sgstPercentage: string,
    serviceChargePercentage: string)

  const EmptyGstForm := GstFormValues("", "", "", "")

  /** `value?.toString() || ''`. */
  function PercentText(p: Option<int>): (r: string)
    ensures r == "" <==> p.None?
    ensures p.Some? ==> ParseNumber(r) == Num(p.value)
  {
    if p.Some? then ParseIntToString(p.value); IntToString(p.value) else ""
  }

  /** The form's initial values: empty without a loaded shop, otherwise the
      stored GSTIN and percentages. */
  function GstDefaults(shop: Option<Shop>): (r: GstFormValues)
    ensures shop.None? ==> r == EmptyGstForm
    ensures shop.Some? ==> r.gstinNo == shop.value.gstinNo.GetOr("")
    ensures shop.Some? ==> && r.cgstPercentage == PercentText(shop.value.cgstPercentage)
                           && r.sgstPercentage == PercentText(shop.value.sgstPercentage)
                           && r.serviceChargePercentage == PercentText(shop.value.serviceChargePercentage)
    ensures shop.Some? ==> && (r.cgstPercentage == "" <==> shop.value.cgstPercentage.None?)
                           && (r.sgstPercentage == "" <==> shop.value.sgstPercentage.None?)
                           && (r.serviceChargePercentage == "" <==> shop.value.serviceChargePercentage.None?)
  {
    if shop.None? then EmptyGstForm
    else
      var s := shop.value;
      GstFormValues(s.gstinNo.GetOr(""), PercentText(s.cgstPercentage),
                    PercentText(s.sgstPercentage), PercentText(s.serviceChargePercentage))
  }

  /** `IUpdateShopRequest` as this form fills it; an absent percentage is
      left out of the request. */
  datatype GstUpdate = GstUpdate(
    id: string,
    shopTypeId: int,
    isActive: bool,
    gstinNo: string,
    cgstPercentage: Option<Parsed>,
    sgstPercentage: Option<Parsed>,
    serviceChargePercentage: Option<Parsed>)

  /** `if (text) payload.x = parseFloat(text)`. */
  function PercentField(text: string): (r: Option<Parsed>)
    ensures r.Some? <==> text != ""
    ensures text != "" ==> r == Some(ParseNumber(text))
  {
    if text != "" then Some(ParseNumber(text)) else None
  }

  /** Submitting: nothing without a loaded shop; otherwise the GSTIN as
      typed, the shop's id, type and active flag, and each percentage that
      is not empty. */
  function GstSubmit(v: GstFormValues, shop: Option<Shop>): (r: Option<GstUpdate>)
    ensures r.None? <==> shop.None?
    ensures r.Some? ==> && r.value.id == shop.value.id && r.value.shopTypeId == shop.value.shopTypeId
                        && r.value.isActive == shop.value.isActive && r.value.gstinNo == v.gstinNo
    ensures r.Some? ==> && r.value.cgstPercentage == PercentField(v.cgstPercentage)
                        && r.value.sgstPercentage == PercentField(v.sgstPercentage)
                        && r.value.serviceChargePercentage == PercentField(v.serviceChargePercentage)
    ensures r.Some? ==> (r.value.cgstPercentage.Some? <==> v.cgstPercentage != "")
                        && (r.value.sgstPercentage.Some? <==> v.sgstPercentage != "")
                        && (r.value.serviceChargePercentage.Some? <==> v.serviceChargePercentage != "")
  {
    if shop.None? then None
    else
      var s := shop.value;
      Some(GstUpdate(s.id, s.shopTypeId, s.isActive, v.gstinNo, PercentField(v.cgstPercentage),
                     PercentField(v.sgstPercentage), PercentField(v.serviceChargePercentage)))
  }

  function AsParsed(p: Option<int>): Option<Parsed> {
    if p.Some? then Some(Num(p.value)) else None
  }

  /** Submitting the form untouched writes back exactly what is stored:
      the GSTIN (empty when there was none) and every stored percentage,
      with absent ones left out. */
  lemma UntouchedGstFormRoundTrip(shop: Shop)
    ensures GstSubmit(GstDefaults(Some(shop)), Some(shop)) ==
              Some(GstUpdate(shop.id, shop.shopTypeId, shop.isActive, shop.gstinNo.GetOr(""),
                             AsParsed(shop.cgstPercentage), AsParsed(shop.sgstPercentage),
                             AsParsed(shop.serviceChargePercentage)))
  {
  }

  /** A stored zero percentage is shown as "0" and sent back as 0, not dropped. */
  lemma ZeroPercentKept(shop: Shop)
    requires shop.cgstPercentage == Some(0)
    ensures GstSubmit(GstDefaults(Some(shop)), Some(shop)).value.cgstPercentage == Some(Num(0))
  {
  }
}
