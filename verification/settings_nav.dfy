/** The settings page shell and its side navigation. */
module SettingsNav {
  import opened Wrappers
  import opened Navigation

  datatype SettingsItem = SettingsItem(title: string, href: string)

  /** `sidebarNavItems(shopId)`: shop details, GST and charges, delivery. */
  function SidebarNavItems(shopId: string): (r: seq<SettingsItem>)
    ensures |r| == 3
    ensures r[0].title == "Shop Details" && r[1].title == "GST & Charges" && r[2].title == "Delivery"
    ensures r[1].href == r[0].href + "/gstandcharges" && r[2].href == r[0].href + "/delivery"
  {
    var base := "/shop/" + shopId + "/restaurant/settings";
    [ SettingsItem("Shop Details", base),
      SettingsItem("GST & Charges", base + "/gstandcharges"),
      SettingsItem("Delivery", base + "/delivery") ]
  }

  /** The page renders its navigation only when the route has a shop id. */
  function SettingsPage(shopId: string): (r: Option<seq<SettingsItem>>)
    ensures r.None? <==> shopId == ""
    ensures r.Some? ==> r.value == SidebarNavItems(shopId)
  {
    if shopId == "" then None else Some(SidebarNavItems(shopId))
  }

  /** The first settings entry is the page the side navigation's Settings
      link opens, and the others lie below it. */
  lemma SettingsEntryMatchesSidelink(shopId: string)
    ensures SidebarNavItems(shopId)[0].href == Sidelinks(shopId, Restaurant)[6].href
    ensures forall i :: 0 <= i < 3 ==> Sidelinks(shopId, Restaurant)[6].href <= SidebarNavItems(shopId)[i].href
  {
    assert "/shop/" + shopId + "/restaurant/settings" == BaseRoute(shopId, Restaurant) + "/settings";
  }
}
