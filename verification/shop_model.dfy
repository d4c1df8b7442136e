/** Shop records as the backend returns them (`IShopResponse`, `ShopType`). */
module ShopModel {
  import opened Wrappers

  datatype ShopType = ShopType(id: int, value: string)

  /** Percentages are whole numbers here; the optional fields are `Option`s. */
  datatype Shop = Shop(
    id: string,
    shopName: string,
    shopCode: string,
    shopTypeId: int,
    registrationNo: string,
    isActive: bool,
    contactNo: string,
    address: string,
    city: string,
    state: string,
    pincode: string,
    latitude: string,
    longitude: string,
    shopType: ShopType,
    gstinNo: Option<string>,
    cgstPercentage: Option<int>,
    sgstPercentage: Option<int>,
    serviceChargePercentage: Option<int>)
}
