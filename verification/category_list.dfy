/** The categories table: ordered by display index, one row per category. */
module CategoryList {
  import opened Sorting
  import opened MenuModel

  function DisplayIndex(c: MenuCategory): int {
    c.displayIndex
  }

  function StatusLabel(isActive: bool): (r: string)
    ensures r == "Active" <==> isActive
    ensures !isActive ==> r == "Inactive"
  {
    if isActive then "Active" else "Inactive"
  }

  datatype CategoryRow = CategoryRow(
    displayIndex: int,
    categoryName: string,
    status: string,
    editReports: string)

  /** The row drawn for one category. */
  function Row(c: MenuCategory): CategoryRow {
    CategoryRow(c.displayIndex, c.categoryName, StatusLabel(c.isActive), c.id)
  }

  /** `.map(...)`: one row per category, in order; a row shows "Active"
      exactly for an active category and its edit button reports the
      category's own id. */
  function RowsOf(cs: seq<MenuCategory>): (rows: seq<CategoryRow>)
    ensures |rows| == |cs| && forall i :: 0 <= i < |cs| ==> rows[i] == Row(cs[i])
    ensures forall i :: 0 <= i < |cs| ==> (rows[i].status == "Active" <==> cs[i].isActive)
                                          && rows[i].editReports == cs[i].id
  {
    seq(|cs|, i requires 0 <= i < |cs| => Row(cs[i]))
  }

  /** `data.sort((a, b) => a.displayIndex - b.displayIndex).map(...)`: the rows
      are those of a reordering of the categories, in ascending display index. */
  function CategoryRows(data: seq<MenuCategory>): (rows: seq<CategoryRow>)
    ensures |rows| == |data|
    ensures forall i, j :: 0 <= i < j < |rows| ==> rows[i].displayIndex <= rows[j].displayIndex
    ensures exists sorted: seq<MenuCategory> :: multiset(sorted) == multiset(data) && rows == RowsOf(sorted)
  {
    var sorted := SortByKey(data, DisplayIndex);
    var rows := RowsOf(sorted);
    assert forall i :: 0 <= i < |rows| ==> rows[i].displayIndex == DisplayIndex(sorted[i]);
    rows
  }
}
