/** The "Your Shops" page: the app filter pipeline, the manage link and the
    create-shop dialog. The `apps` catalogue comes from `pages/shops/data`,
    which is not part of this model; an app is reduced to its name and its
    connected flag. */
module ShopsPage {
  import opened Wrappers
  import opened Seqs
  import opened Sorting
  import opened Text
  import opened Navigation

  datatype App = App(name: string, connected: bool)

  /** The comparator: ascending compares `a.name` with `b.name`, any other
      sort value compares them the other way round. */
  function NameOrder(sort: string): (App, App) -> bool {
    if sort == "ascending" then (a: App, b: App) => StrLe(a.name, b.name)
    else (a: App, b: App) => StrLe(b.name, a.name)
  }

  lemma NameOrderIsTotalPreorder(sort: string)
    ensures TotalPreorder(NameOrder(sort))
  {
    forall a: App, b: App ensures StrLe(a.name, b.name) || StrLe(b.name, a.name) {
      StrLeTotal(a.name, b.name);
    }
    forall a: App, b: App, c: App | StrLe(a.name, b.name) && StrLe(b.name, c.name) ensures StrLe(a.name, c.name) {
      StrLeTransitive(a.name, b.name, c.name);
    }
    forall a: App, b: App, c: App | StrLe(b.name, a.name) && StrLe(c.name, b.name) ensures StrLe(c.name, a.name) {
      StrLeTransitive(c.name, b.name, a.name);
    }
  }

  /** The connection filter of the app-type selector. */
  function TypeFilter(appType: string): App -> bool {
    if appType == "connected" then (a: App) => a.connected
    else if appType == "notConnected" then (a: App) => !a.connected
    else (a: App) => true
  }

  /** The search filter: the lower-cased name contains the lower-cased term. */
  function SearchFilter(searchTerm: string): App -> bool {
    (a: App) => Includes(Lower(a.name), Lower(searchTerm))
  }

  /** `apps.sort(...)`: the same apps in the chosen name order. */
  function SortApps(apps: seq<App>, sort: string): (r: seq<App>)
    ensures multiset(r) == multiset(apps)
    ensures forall a :: a in r <==> a in apps
    ensures SortedBy(r, NameOrder(sort))
    ensures |r| == |apps|
  {
    NameOrderIsTotalPreorder(sort);
    var sorted := SortBy(apps, NameOrder(sort));
    assert forall a :: a in sorted <==> a in apps by {
      forall a ensures a in sorted <==> a in apps {
        assert a in sorted <==> a in multiset(sorted);
        assert a in apps <==> a in multiset(apps);
      }
    }
    sorted
  }

  /** A filter step of the pipeline keeps the order it is given. */
  function KeepSorted(xs: seq<App>, p: App -> bool, sort: string): (r: seq<App>)
    requires SortedBy(xs, NameOrder(sort))
    ensures forall a :: a in r <==> a in xs && p(a)
    ensures forall a :: multiset(r)[a] == if p(a) then multiset(xs)[a] else 0
    ensures SortedBy(r, NameOrder(sort))
    ensures |r| <= |xs|
  {
    FilterKeepsSorted(xs, p, NameOrder(sort));
    FilterCounts(xs, p);
    Filter(xs, p)
  }

  /** An app passes both the connection filter and the search filter. */
  function Shown(appType: string, searchTerm: string): App -> bool {
    (a: App) => TypeFilter(appType)(a) && SearchFilter(searchTerm)(a)
  }

  /** `filteredApps`: sorted by name in the chosen direction, then narrowed
      by connection state and by the search term. */
  function FilteredApps(apps: seq<App>, sort: string, appType: string, searchTerm: string): (r: seq<App>)
    ensures forall a :: a in r <==>
              && a in apps
              && (appType == "connected" ==> a.connected)
              && (appType == "notConnected" ==> !a.connected)
              && Includes(Lower(a.name), Lower(searchTerm))
    ensures forall a :: multiset(r)[a] == multiset(Filter(apps, Shown(appType, searchTerm)))[a]
    ensures SortedBy(r, NameOrder(sort))
    ensures |r| <= |apps|
  {
    var sorted := SortApps(apps, sort);
    var byType := KeepSorted(sorted, TypeFilter(appType), sort);
    var r := KeepSorted(byType, SearchFilter(searchTerm), sort);
    FilterCounts(apps, Shown(appType, searchTerm));
    FiltersCompose(sorted, byType, r, TypeFilter(appType), SearchFilter(searchTerm), Shown(appType, searchTerm));
    r
  }

  /** The listed apps are exactly the shown apps of the catalogue, as a
      multiset: no app is lost or repeated by the pipeline. */
  lemma FilteredAppsPermutesShown(apps: seq<App>, sort: string, appType: string, searchTerm: string)
    ensures multiset(FilteredApps(apps, sort, appType, searchTerm)) == multiset(Filter(apps, Shown(appType, searchTerm)))
  {
    var r := FilteredApps(apps, sort, appType, searchTerm);
    assert forall a :: multiset(r)[a] == multiset(Filter(apps, Shown(appType, searchTerm)))[a];
  }

  /** Narrowing by `p` and then by `q` counts like narrowing by a `both`
      that holds exactly where both do. */
  lemma FiltersCompose(xs: seq<App>, ys: seq<App>, zs: seq<App>, p: App -> bool, q: App -> bool, both: App -> bool)
    requires forall a :: multiset(ys)[a] == if p(a) then multiset(xs)[a] else 0
    requires forall a :: multiset(zs)[a] == if q(a) then multiset(ys)[a] else 0
    requires forall a :: both(a) == (p(a) && q(a))
    ensures forall a :: multiset(zs)[a] == if both(a) then multiset(xs)[a] else 0
  {
  }

  /** With the "all" selector and an empty search, every app is listed. */
  lemma EmptySearchKeepsAll(apps: seq<App>, sort: string, a: App)
    requires a in apps
    ensures a in FilteredApps(apps, sort, "all", "")
  {
    IncludesEmpty(Lower(a.name));
  }

  /** `handleManageClick`: `/shop/${shopId}/${shopType.toLowerCase()}`, the
      shop's base route for its lower-cased type. */
  function ManagePath(shopId: string, shopType: string): (r: string)
    ensures r == BaseRoute(shopId, Lower(shopType))
    ensures "/shop/" + shopId <= r
  {
    "/shop/" + shopId + "/" + Lower(shopType)
  }

  /** "Manage" opens the shop's dashboard, the first side link of that shop. */
  lemma ManageOpensDashboard(shopId: string, shopType: string)
    requires Lower(shopType) == Restaurant
    ensures ManagePath(shopId, shopType) == Sidelinks(shopId, Lower(shopType))[0].href
  {
  }

  /** The create-shop dialog's values, all typed as text. */
  datatype NewShopValues = NewShopValues(
    shopName: string,
    shopTypeId: string,
    registrationNo: string,
    contactNo: string,
    address: string,
    city: string,
    state: string,
    pincode: string,
    latitude: string,
    longitude: string,
    gstinNo: string,
    cgstPercentage: string,
    sgstPercentage: string,
    serviceChargePercentage: string)

  /** `shopSchema`: a shop name of 2 to 25 UTF-16 code units, a mobile
      contact number and a pincode of exactly 6 code units. */
  predicate NewShopValid(v: NewShopValues, isMobilePhone: string -> bool) {
    2 <= JsLength(v.shopName) <= 25 && isMobilePhone(v.contactNo) && JsLength(v.pincode) == 6
  }

  /** The schema bounds `.length`, so a single character above U+FFFF,
      a surrogate pair in JavaScript, is already a long enough shop name. */
  lemma AstralShopNameAccepted(isMobilePhone: string -> bool)
    requires isMobilePhone("9876543210")
    ensures NewShopValid(NewShopValues("\U{1F600}", "1", "", "9876543210", "", "", "", "123456",
                                       "", "", "", "", "", ""), isMobilePhone)
  {
    AstralCharIsSurrogatePair();
  }

  /** `ICreateShopRequest` as the dialog fills it. */
  datatype CreateShopRequest = CreateShopRequest(
    shopName: string,
    shopTypeId: Parsed,
    registrationNo: string,
    isActive: bool,
    contactNo: string,
    address: string,
    city: string,
    state: string,
    pincode: string,
    latitude: string,
    longitude: string,
    gstinNo: string,
    cgstPercentage: Parsed,
    sgstPercentage: Parsed,
    serviceChargePercentage: Parsed)

  /** `parseFloat(text || '0')`. */
  function PercentOrZero(text: string): (r: Parsed)
    ensures text == "" ==> r == Num(0)
    ensures text != "" ==> r == ParseNumber(text)
  {
    if text == "" then
      assert IntToString(0) == "0";
      ParseIntToString(0);
      ParseNumber("0")
    else ParseNumber(text)
  }

  /** Submitting the dialog: nothing when the schema rejects the values;
      otherwise an active shop with the typed fields, the parsed type id and
      every empty percentage sent as 0. */
  function CreateShopSubmit(v: NewShopValues, isMobilePhone: string -> bool): (r: Option<CreateShopRequest>)
    ensures r.None? <==> !NewShopValid(v, isMobilePhone)
    ensures r.Some? ==> && r.value.isActive && r.value.shopName == v.shopName
                        && r.value.shopTypeId == ParseNumber(v.shopTypeId)
                        && r.value.registrationNo == v.registrationNo && r.value.contactNo == v.contactNo
                        && r.value.address == v.address && r.value.city == v.city
                        && r.value.state == v.state && r.value.pincode == v.pincode
                        && r.value.latitude == v.latitude && r.value.longitude == v.longitude
                        && r.value.gstinNo == v.gstinNo
                        && r.value.cgstPercentage == PercentOrZero(v.cgstPercentage)
                        && r.value.sgstPercentage == PercentOrZero(v.sgstPercentage)
                        && r.value.serviceChargePercentage == PercentOrZero(v.serviceChargePercentage)
  {
    if !NewShopValid(v, isMobilePhone) then None
    else Some(CreateShopRequest(v.shopName, ParseNumber(v.shopTypeId), v.registrationNo, true, v.contactNo,
                                v.address, v.city, v.state, v.pincode, v.latitude, v.longitude, v.gstinNo,
                                PercentOrZero(v.cgstPercentage), PercentOrZero(v.sgstPercentage),
                                PercentOrZero(v.serviceChargePercentage)))
  }

  /** A shop type picked from the list carries its id through unchanged,
      and a percentage typed as a number is sent as that number. */
  lemma CreateShopCarriesNumbers(v: NewShopValues, isMobilePhone: string -> bool, typeId: int, cgst: int)
    requires NewShopValid(v, isMobilePhone)
    requires v.shopTypeId == IntToString(typeId) && v.cgstPercentage == IntToString(cgst)
    ensures CreateShopSubmit(v, isMobilePhone).value.shopTypeId == Num(typeId)
    ensures CreateShopSubmit(v, isMobilePhone).value.cgstPercentage == Num(cgst)
  {
    ParseIntToString(typeId);
    ParseIntToString(cgst);
  }
}
