/** The shop side navigation (`sidelinks`). Link labels are all empty and
    icons are presentation, so neither is kept. */
module Navigation {
  import opened Wrappers

  datatype NavLink = NavLink(title: string, href: string)

  datatype SideLink = SideLink(title: string, href: string, sub: Option<seq<NavLink>>)

  const Restaurant := "restaurant"

  /** `/shop/${shopId}/${shopType}`. */
  function BaseRoute(shopId: string, shopType: string): string {
    "/shop/" + shopId + "/" + shopType
  }

  /** The Inventory entries, which point at fixed authentication routes. */
  const InventorySubs := [
    NavLink("Sign In (email + password)", "/sign-in"),
    NavLink("Sign In (Box)", "/sign-in-2"),
    NavLink("Sign Up", "/sign-up"),
    NavLink("Forgot Password", "/forgot-password"),
    NavLink("OTP", "/otp")]

  function Titles(links: seq<SideLink>): (r: seq<string>)
    ensures |r| == |links| && forall i :: 0 <= i < |links| ==> r[i] == links[i].title
  {
    seq(|links|, i requires 0 <= i < |links| => links[i].title)
  }

  /** `sidelinks(shopId, shopType)`: the restaurant navigation, or nothing
      for any other shop type. */
  function Sidelinks(shopId: string, shopType: string): (r: seq<SideLink>)
    ensures shopType != Restaurant ==> r == []
    ensures shopType == Restaurant ==>
              Titles(r) == ["Dashboard", "Orders", "Menu", "Inventory", "Users", "Attendance", "Settings"]
    ensures shopType == Restaurant ==>
              var base := BaseRoute(shopId, shopType);
              && r[0].href == base && r[1].href == base + "/orders" && r[4].href == base + "/users"
              && r[5].href == base + "/attendance" && r[6].href == base + "/settings"
              && r[2].sub.Some? && |r[2].sub.value| == 2
              && r[2].sub.value[0].href == base + "/menu-categories"
              && r[2].sub.value[1].href == base + "/menu-items"
              && r[3].sub == Some(InventorySubs)
    ensures forall i :: 0 <= i < |r| ==> (r[i].href == "" <==> r[i].sub.Some?)
  {
    if shopType != Restaurant then []
    else
      var base := BaseRoute(shopId, shopType);
      [ SideLink("Dashboard", base, None),
        SideLink("Orders", base + "/orders", None),
        SideLink("Menu", "", Some([NavLink("Categories & Cusines", base + "/menu-categories"),
                                   NavLink("Menu Items", base + "/menu-items")])),
        SideLink("Inventory", "", Some(InventorySubs)),
        SideLink("Users", base + "/users", None),
        SideLink("Attendance", base + "/attendance", None),
        SideLink("Settings", base + "/settings", None) ]
  }

  /** Every link that leads somewhere inside the shop starts with the shop's
      base route: all top-level hrefs and both Menu entries. */
  lemma ShopLinksUnderBase(shopId: string)
    ensures var r := Sidelinks(shopId, Restaurant);
            var base := BaseRoute(shopId, Restaurant);
            && (forall i :: 0 <= i < |r| && r[i].href != "" ==> base <= r[i].href)
            && (forall j :: 0 <= j < |r[2].sub.value| ==> base <= r[2].sub.value[j].href)
  {
  }

  /** Reads the shop id back out of a restaurant base route. */
  function ShopIdOfBase(href: string): string
    requires |href| >= |"/shop/"| + |"/" + Restaurant|
  {
    href[|"/shop/"|..|href| - |"/" + Restaurant|]
  }

  /** The base route determines the shop: links of different shops differ. */
  lemma BaseRouteIdentifiesShop(shopId: string)
    ensures var b := BaseRoute(shopId, Restaurant);
            |b| >= |"/shop/"| + |"/" + Restaurant| && ShopIdOfBase(b) == shopId
  {
    var b := BaseRoute(shopId, Restaurant);
    assert b == "/shop/" + shopId + ("/" + Restaurant);
    assert b[6..|b| - 11] == shopId;
  }

  /** The Inventory entries do not depend on the shop. */
  lemma InventoryIndependentOfShop(a: string, b: string)
    ensures Sidelinks(a, Restaurant)[3] == Sidelinks(b, Restaurant)[3]
  {
  }
}
