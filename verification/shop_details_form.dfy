/** The "Shop Details" settings form. Phone-number validation is a library
    call and enters as the parameter `isMobilePhone`. */
module ShopDetailsForm {
  import opened Wrappers
  import opened ShopModel
  import opened Text

  datatype ShopDetailsValues = ShopDetailsValues(
    shopName: string,
    registrationNo: string,
    contactNo: string,
    address: string,
    city: string,
    state: string,
    pincode: string,
    latitude: string,
    longitude: string)

  const EmptyShopDetails := ShopDetailsValues("", "", "", "", "", "", "", "", "")

  /** The form schema: a shop name of 2 to 25 UTF-16 code units, a mobile
      contact number and a pincode of exactly 6 code units. */
  predicate ShopDetailsValid(v: ShopDetailsValues, isMobilePhone: string -> bool) {
    2 <= JsLength(v.shopName) <= 25 && isMobilePhone(v.contactNo) && JsLength(v.pincode) == 6
  }

  /** The form's values for a stored shop when every field is prefilled. */
  function StoredValues(s: Shop): ShopDetailsValues {
    ShopDetailsValues(s.shopName, s.registrationNo, s.contactNo, s.address, s.city, s.state,
                      s.pincode, s.latitude, s.longitude)
  }

  /** The initial values as written: the stored shop's fields, except that
      `registrationNo` keeps its empty default. */
  function ShopDetailsDefaultsAsWritten(shop: Option<Shop>): (r: ShopDetailsValues)
    ensures shop.None? ==> r == EmptyShopDetails
    ensures shop.Some? ==> r == StoredValues(shop.value).(registrationNo := "")
  {
    if shop.None? then EmptyShopDetails
    else
      var s := shop.value;
      ShopDetailsValues(s.shopName, "", s.contactNo, s.address, s.city, s.state, s.pincode,
                        s.latitude, s.longitude)
  }

  /** The initial values with the registration number prefilled as well. */
  function ShopDetailsDefaults(shop: Option<Shop>): (r: ShopDetailsValues)
    ensures shop.None? ==> r == EmptyShopDetails
    ensures shop.Some? ==> r.registrationNo == shop.value.registrationNo
  {
    if shop.None? then EmptyShopDetails else StoredValues(shop.value)
  }

  /** `IUpdateShopRequest` as this form fills it. */
  datatype ShopDetailsUpdate = ShopDetailsUpdate(id: string, shopTypeId: int, isActive: bool, values: ShopDetailsValues)

  /** Submitting: nothing when the schema rejects the values or no shop is
      loaded; otherwise every form field together with the shop's id, type
      and active flag. */
  function ShopDetailsSubmit(v: ShopDetailsValues, shop: Option<Shop>, isMobilePhone: string -> bool): (r: Option<ShopDetailsUpdate>)
    ensures r.None? <==> !ShopDetailsValid(v, isMobilePhone) || shop.None?
    ensures r.Some? ==> r.value.values == v && r.value.id == shop.value.id
                        && r.value.shopTypeId == shop.value.shopTypeId && r.value.isActive == shop.value.isActive
  {
    if !ShopDetailsValid(v, isMobilePhone) || shop.None? then None
    else Some(ShopDetailsUpdate(shop.value.id, shop.value.shopTypeId, shop.value.isActive, v))
  }

  /** As written, saving the form untouched sends an empty registration
      number, wiping a stored one. */
  lemma UntouchedSubmitClearsRegistration(shop: Shop, isMobilePhone: string -> bool)
    requires ShopDetailsValid(StoredValues(shop), isMobilePhone) && shop.registrationNo != ""
    ensures var r := ShopDetailsSubmit(ShopDetailsDefaultsAsWritten(Some(shop)), Some(shop), isMobilePhone);
            r.Some? && r.value.values.registrationNo == "" && r.value.values.registrationNo != shop.registrationNo
  {
  }

  /** With every field prefilled, saving the form untouched writes back the
      stored shop unchanged. */
  lemma UntouchedSubmitKeepsShop(shop: Shop, isMobilePhone: string -> bool)
    requires ShopDetailsValid(StoredValues(shop), isMobilePhone)
    ensures ShopDetailsSubmit(ShopDetailsDefaults(Some(shop)), Some(shop), isMobilePhone)
              == Some(ShopDetailsUpdate(shop.id, shop.shopTypeId, shop.isActive, StoredValues(shop)))
  {
  }
}
