/** The menu categories page: the create/edit dialog and its submission. */
module MenuCategoryPage {
  import opened Wrappers
  import opened Seqs
  import opened MenuModel

  datatype CategoryForm = CategoryForm(categoryName: string, isActive: bool)

  const DefaultCategoryForm := CategoryForm("", false)

  /** The form schema: the category name has 2 to 50 UTF-16 code units. */
  predicate CategoryFormValid(f: CategoryForm) {
    MenuNameValid(f.categoryName)
  }

  datatype CategoryRequest =
    | CreateCategory(categoryName: string, isActive: bool, shopId: string)
    | UpdateCategory(id: string, categoryName: string, isActive: bool, shopId: string)

  datatype CategoryPage = CategoryPage(
    categories: seq<MenuCategory>,
    dialogOpen: bool,
    selected: string,
    form: CategoryForm)

  /** Submitting the dialog: nothing without a valid form or a route shop id;
      an update of the selected category when one is selected, otherwise a
      create; the form values are sent as typed. */
  function SubmitCategory(page: CategoryPage, shopId: string): (r: Option<CategoryRequest>)
    ensures r.None? <==> !CategoryFormValid(page.form) || shopId == ""
    ensures r.Some? ==> (r.value.UpdateCategory? <==> page.selected != "")
    ensures r.Some? && r.value.UpdateCategory? ==> r.value.id == page.selected
    ensures r.Some? ==> r.value.categoryName == page.form.categoryName
                        && r.value.isActive == page.form.isActive && r.value.shopId == shopId
  {
    if !CategoryFormValid(page.form) || shopId == "" then None
    else if page.selected != "" then
      Some(UpdateCategory(page.selected, page.form.categoryName, page.form.isActive, shopId))
    else Some(CreateCategory(page.form.categoryName, page.form.isActive, shopId))
  }

  /** The edit button: fills the form from the first category with that id
      and opens the dialog for it; an unknown id changes nothing. */
  function EditCategory(page: CategoryPage, categoryId: string): (r: CategoryPage)
    ensures r.categories == page.categories
    ensures (forall i :: 0 <= i < |page.categories| ==> page.categories[i].id != categoryId) ==> r == page
    ensures (exists i :: 0 <= i < |page.categories| && page.categories[i].id == categoryId) ==>
              r.selected == categoryId && r.dialogOpen
  {
    match FindFirst(page.categories, (c: MenuCategory) => c.id == categoryId)
    case None => page
    case Some(c) =>
      page.(form := CategoryForm(c.categoryName, c.isActive), selected := categoryId, dialogOpen := true)
  }

  /** `handleCategoryDialogClose` as written: sets the dialog state and resets
      the form, but keeps the selected category. */
  function CloseCategoryDialogAsWritten(page: CategoryPage, open: bool): (r: CategoryPage)
    ensures r.dialogOpen == open && r.form == DefaultCategoryForm
    ensures r.selected == page.selected && r.categories == page.categories
  {
    page.(dialogOpen := open, form := DefaultCategoryForm)
  }

  /** Closing the dialog as the items page does it: also clears the selection. */
  function CloseCategoryDialog(page: CategoryPage, open: bool): (r: CategoryPage)
    ensures r.dialogOpen == open && r.form == DefaultCategoryForm
    ensures r.selected == "" && r.categories == page.categories
  {
    page.(dialogOpen := open, form := DefaultCategoryForm, selected := "")
  }

  /** The "New Category" button opens the dialog and touches nothing else. */
  function NewCategoryClick(page: CategoryPage): (r: CategoryPage)
    ensures r.dialogOpen && r.selected == page.selected && r.form == page.form
  {
    page.(dialogOpen := true)
  }

  /** The user types values into the form. */
  function FillCategoryForm(page: CategoryPage, f: CategoryForm): (r: CategoryPage)
    ensures r.form == f && r.selected == page.selected && r.dialogOpen == page.dialogOpen
  {
    page.(form := f)
  }

  /** After a request succeeds: the form is reset and the dialog closed;
      an update also clears the selection. */
  function CategorySaved(page: CategoryPage, req: CategoryRequest): (r: CategoryPage)
    ensures r.form == DefaultCategoryForm && !r.dialogOpen
    ensures req.UpdateCategory? ==> r.selected == ""
    ensures req.CreateCategory? ==> r.selected == page.selected
  {
    if req.UpdateCategory? then page.(form := DefaultCategoryForm, selected := "", dialogOpen := false)
    else page.(form := DefaultCategoryForm, dialogOpen := false)
  }

  /** The edited category is the first one with its id. */
  predicate FirstWithId(cs: seq<MenuCategory>, k: int) {
    0 <= k < |cs| && cs[k].id != "" && forall j :: 0 <= j < k ==> cs[j].id != cs[k].id
  }

  lemma EditFillsFromCategory(page: CategoryPage, k: int)
    requires FirstWithId(page.categories, k)
    ensures EditCategory(page, page.categories[k].id).form
              == CategoryForm(page.categories[k].categoryName, page.categories[k].isActive)
  {
    var c := page.categories[k];
    var found := FindFirst(page.categories, (x: MenuCategory) => x.id == c.id);
    var i :| 0 <= i < |page.categories| && page.categories[i] == found.value && page.categories[i].id == c.id
             && forall j :: 0 <= j < i ==> page.categories[j].id != c.id;
  }

  /** Editing a category and submitting without changes sends an update of
      that category with its own name and status. */
  lemma EditThenSubmitUpdatesCategory(page: CategoryPage, k: int, shopId: string)
    requires FirstWithId(page.categories, k)
    requires MenuNameValid(page.categories[k].categoryName) && shopId != ""
    ensures var c := page.categories[k];
            SubmitCategory(EditCategory(page, c.id), shopId)
              == Some(UpdateCategory(c.id, c.categoryName, c.isActive, shopId))
  {
    EditFillsFromCategory(page, k);
  }

  /** As written, opening a category for editing, dismissing the dialog and
      then creating a "New Category" sends an update that overwrites the
      dismissed category instead of creating one. */
  lemma AbortedEditThenNewCategoryUpdates(page: CategoryPage, k: int, f: CategoryForm, shopId: string)
    requires FirstWithId(page.categories, k)
    requires CategoryFormValid(f) && shopId != ""
    ensures var c := page.categories[k];
            var p := FillCategoryForm(NewCategoryClick(CloseCategoryDialogAsWritten(EditCategory(page, c.id), false)), f);
            SubmitCategory(p, shopId) == Some(UpdateCategory(c.id, f.categoryName, f.isActive, shopId))
  {
  }

  /** With the selection cleared on close, the same steps create a category. */
  lemma AbortedEditThenNewCategoryCreates(page: CategoryPage, k: int, f: CategoryForm, shopId: string)
    requires FirstWithId(page.categories, k)
    requires CategoryFormValid(f) && shopId != ""
    ensures var c := page.categories[k];
            var p := FillCategoryForm(NewCategoryClick(CloseCategoryDialog(EditCategory(page, c.id), false)), f);
            SubmitCategory(p, shopId) == Some(CreateCategory(f.categoryName, f.isActive, shopId))
  {
  }

  /** After closing the corrected dialog, any valid submission from "New
      Category" is a create. */
  lemma CloseThenNewCategoryCreates(page: CategoryPage, open: bool, f: CategoryForm, shopId: string)
    requires CategoryFormValid(f) && shopId != ""
    ensures SubmitCategory(FillCategoryForm(NewCategoryClick(CloseCategoryDialog(page, open)), f), shopId)
              == Some(CreateCategory(f.categoryName, f.isActive, shopId))
  {
  }
}
