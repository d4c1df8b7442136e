/** The menu items page: listing order, the category picker, and the
    create/edit dialog with its submission. */
module MenuItems {
  import opened Wrappers
  import opened Seqs
  import opened Sorting
  import opened Text
  import opened MenuModel

  /** `item.category?.displayIndex || 1`: a missing category or a zero index
      ranks as 1. */
  function CategoryRank(item: MenuItem): (r: int)
    ensures item.category.None? ==> r == 1
    ensures item.category.Some? && item.category.value.displayIndex != 0 ==> r == item.category.value.displayIndex
    ensures item.category.Some? && item.category.value.displayIndex == 0 ==> r == 1
  {
    if item.category.None? || item.category.value.displayIndex == 0 then 1
    else item.category.value.displayIndex
  }

  /** The fetched items, ordered by their category's display index. */
  function SortMenuItems(items: seq<MenuItem>): (r: seq<MenuItem>)
    ensures forall i, j :: 0 <= i < j < |r| ==> CategoryRank(r[i]) <= CategoryRank(r[j])
    ensures multiset(r) == multiset(items)
  {
    SortByKey(items, CategoryRank)
  }

  /** Items whose category has a positive index come after the uncategorised
      ones, which rank like index 1. */
  lemma UncategorisedRankFirst(items: seq<MenuItem>, i: int, j: int)
    requires 0 <= i < |SortMenuItems(items)| && 0 <= j < |SortMenuItems(items)|
    requires SortMenuItems(items)[i].category.None?
    requires SortMenuItems(items)[j].category.Some? && SortMenuItems(items)[j].category.value.displayIndex > 1
    ensures i < j
  {
  }

  /** The category picker lists the active categories only. */
  function ActiveCategories(categories: seq<MenuCategory>): (r: seq<MenuCategory>)
    ensures forall c :: c in r <==> c in categories && c.isActive
    ensures |r| <= |categories|
  {
    Filter(categories, (c: MenuCategory) => c.isActive)
  }

  /** The dialog's form values; prices are typed as text. */
  datatype MenuItemForm = MenuItemForm(
    itemName: string,
    description: string,
    availability: bool,
    categoryId: string,
    foodType: string,
    spiceScale: string,
    price: string,
    onlineDeliveryPrice: string)

  const DefaultMenuItemForm := MenuItemForm("", "", false, "", "", "", "", "")

  /** The form schema: the item name has 2 to 50 UTF-16 code units. */
  predicate MenuItemFormValid(f: MenuItemForm) {
    MenuNameValid(f.itemName)
  }

  /** `ICreateMenuItem` as the page fills it; prices pass through `parseInt`. */
  datatype MenuItemPayload = MenuItemPayload(
    itemName: string,
    description: string,
    availability: bool,
    categoryId: string,
    foodType: string,
    spiceScale: string,
    price: Parsed,
    onlineDeliveryPrice: Parsed,
    shopId: string)

  datatype MenuItemRequest =
    | CreateItem(payload: MenuItemPayload)
    | UpdateItem(id: string, payload: MenuItemPayload)

  datatype MenuItemsPage = MenuItemsPage(
    items: seq<MenuItem>,
    categories: seq<MenuCategory>,
    dialogOpen: bool,
    selected: string,
    form: MenuItemForm)

  function PayloadOf(f: MenuItemForm, shopId: string): MenuItemPayload {
    MenuItemPayload(f.itemName, f.description, f.availability, f.categoryId, f.foodType,
                    f.spiceScale, ParseNumber(f.price), ParseNumber(f.onlineDeliveryPrice), shopId)
  }

  /** Submitting the dialog: nothing without a valid form or a route shop id;
      an update of the selected item when one is selected, otherwise a create. */
  function SubmitMenuItem(page: MenuItemsPage, shopId: string): (r: Option<MenuItemRequest>)
    ensures r.None? <==> !MenuItemFormValid(page.form) || shopId == ""
    ensures r.Some? ==> (r.value.UpdateItem? <==> page.selected != "")
    ensures r.Some? && r.value.UpdateItem? ==> r.value.id == page.selected
    ensures r.Some? ==>
              && r.value.payload.shopId == shopId
              && r.value.payload.itemName == page.form.itemName
              && r.value.payload.description == page.form.description
              && r.value.payload.availability == page.form.availability
              && r.value.payload.categoryId == page.form.categoryId
              && r.value.payload.foodType == page.form.foodType
              && r.value.payload.spiceScale == page.form.spiceScale
              && r.value.payload.price == ParseNumber(page.form.price)
              && r.value.payload.onlineDeliveryPrice == ParseNumber(page.form.onlineDeliveryPrice)
  {
    if !MenuItemFormValid(page.form) || shopId == "" then None
    else if page.selected != "" then Some(UpdateItem(page.selected, PayloadOf(page.form, shopId)))
    else Some(CreateItem(PayloadOf(page.form, shopId)))
  }

  /** The edit button: fills the form from the first item with that id and
      opens the dialog for it; an unknown id changes nothing. */
  function EditMenuItem(page: MenuItemsPage, itemId: string): (r: MenuItemsPage)
    ensures r.items == page.items && r.categories == page.categories
    ensures (forall i :: 0 <= i < |page.items| ==> page.items[i].id != itemId) ==> r == page
    ensures (exists i :: 0 <= i < |page.items| && page.items[i].id == itemId) ==>
              r.selected == itemId && r.dialogOpen
  {
    match FindFirst(page.items, (it: MenuItem) => it.id == itemId)
    case None => page
    case Some(it) => page.(form := FormOf(it), selected := itemId, dialogOpen := true)
  }

  /** The form values the edit button writes for an item. */
  function FormOf(it: MenuItem): MenuItemForm {
    MenuItemForm(it.itemName, it.description, it.availability, it.categoryId, it.foodType,
                 it.spiceScale, IntToString(it.price), IntToString(it.onlineDeliveryPrice))
  }

  /** Editing the first item with a given id loads that item. */
  lemma EditLoadsItem(page: MenuItemsPage, k: int)
    requires 0 <= k < |page.items|
    requires forall j :: 0 <= j < k ==> page.items[j].id != page.items[k].id
    ensures EditMenuItem(page, page.items[k].id) ==
              page.(form := FormOf(page.items[k]), selected := page.items[k].id, dialogOpen := true)
  {
    var it := page.items[k];
    var found := FindFirst(page.items, (x: MenuItem) => x.id == it.id);
    var i :| 0 <= i < |page.items| && page.items[i] == found.value && page.items[i].id == it.id
             && forall j :: 0 <= j < i ==> page.items[j].id != it.id;
  }

  /** `onOpenChange`: sets the dialog state, clears the form and the selection. */
  function CloseMenuItemDialog(page: MenuItemsPage, open: bool): (r: MenuItemsPage)
    ensures r.dialogOpen == open && r.selected == "" && r.form == DefaultMenuItemForm
    ensures r.items == page.items && r.categories == page.categories
  {
    page.(dialogOpen := open, form := DefaultMenuItemForm, selected := "")
  }

  /** The "New Item" button opens the dialog and touches nothing else. */
  function NewItemClick(page: MenuItemsPage): (r: MenuItemsPage)
    ensures r.dialogOpen && r.selected == page.selected && r.form == page.form
    ensures r.items == page.items && r.categories == page.categories
  {
    page.(dialogOpen := true)
  }

  /** The user types values into the form. */
  function FillMenuItemForm(page: MenuItemsPage, f: MenuItemForm): (r: MenuItemsPage)
    ensures r.form == f && r.selected == page.selected
  {
    page.(form := f)
  }

  /** After a request succeeds: the form is reset and the dialog closed;
      an update also clears the selection. */
  function MenuItemSaved(page: MenuItemsPage, req: MenuItemRequest): (r: MenuItemsPage)
    ensures r.form == DefaultMenuItemForm && !r.dialogOpen
    ensures req.UpdateItem? ==> r.selected == ""
    ensures req.CreateItem? ==> r.selected == page.selected
  {
    if req.UpdateItem? then page.(form := DefaultMenuItemForm, selected := "", dialogOpen := false)
    else page.(form := DefaultMenuItemForm, dialogOpen := false)
  }

  /** Editing an item and submitting without changes sends an update of that
      item carrying its own fields and prices. */
  lemma EditThenSubmitUpdatesItem(page: MenuItemsPage, k: int, shopId: string)
    requires 0 <= k < |page.items| && page.items[k].id != ""
    requires forall j :: 0 <= j < k ==> page.items[j].id != page.items[k].id
    requires MenuNameValid(page.items[k].itemName) && shopId != ""
    ensures var it := page.items[k];
            SubmitMenuItem(EditMenuItem(page, it.id), shopId) ==
              Some(UpdateItem(it.id, MenuItemPayload(it.itemName, it.description, it.availability,
                                                     it.categoryId, it.foodType, it.spiceScale,
                                                     Num(it.price), Num(it.onlineDeliveryPrice), shopId)))
  {
    var it := page.items[k];
    EditLoadsItem(page, k);
    ParseIntToString(it.price);
    ParseIntToString(it.onlineDeliveryPrice);
  }

  /** Once the dialog has been closed, "New Item" followed by a valid
      submission creates an item, whatever was being edited before. */
  lemma CloseThenNewItemCreates(page: MenuItemsPage, open: bool, f: MenuItemForm, shopId: string)
    requires MenuItemFormValid(f) && shopId != ""
    ensures SubmitMenuItem(FillMenuItemForm(NewItemClick(CloseMenuItemDialog(page, open)), f), shopId)
              == Some(CreateItem(PayloadOf(f, shopId)))
  {
  }

  /** After a successful update the next submission is a create. */
  lemma UpdateSavedThenSubmitCreates(page: MenuItemsPage, id: string, p: MenuItemPayload, f: MenuItemForm, shopId: string)
    requires MenuItemFormValid(f) && shopId != ""
    ensures SubmitMenuItem(FillMenuItemForm(NewItemClick(MenuItemSaved(page, UpdateItem(id, p))), f), shopId)
              == Some(CreateItem(PayloadOf(f, shopId)))
  {
  }
}
