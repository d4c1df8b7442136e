# posx admin UI — a Dafny model of its page logic

The posx admin UI is a React/Redux single-page application for restaurant
owners. It lists the owner's shops, and for each shop it offers a
dashboard, the orders list, the menu (categories and items), the shop's
users and their roles, and the settings forms (shop details, GST and
charges, delivery). This project models the computations those pages make
between a backend response and what is rendered or sent back:

- the role diff sent when a user's roles change, and the check boxes and
  button that lead to it;
- paging of the orders and users lists;
- the menu items table, including the pepper icons and food-type badge,
  and the category table ordering;
- the create and edit dialogs of menu items and categories, modelled as
  page states and transitions;
- the dashboard's item grouping, the pie chart and the items table, the
  sales series, the summary cards and the "last day" card;
- the `shop` Redux slice reducer;
- the three settings forms: prefill, submit payload and round trip;
- the side navigation and the settings navigation;
- the shops page: app filter pipeline, manage link and create-shop
  payload;
- the user menu: initials, lines and log out.

JavaScript semantics the source relies on are written out:

- `||` falls back on `0`, `NaN` and `""`; `Text.Parsed` carries `NaN`.
- `parseInt`/`parseFloat` are `Text.ParseNumber` on whole numbers.
- `?.` short-circuits.
- An object spread is a map overlay in which later keys win.
- `[...new Set(xs)]` keeps the order of first occurrence (`Seqs.Distinct`).
- An array of arrays returned into JSX renders as their concatenation
  (`Seqs.Flatten`).
- `Array.prototype.sort` is a stable sort by a comparator (`Sorting.SortBy`).

A route parameter is a string, and an absent one is the empty string,
because the source tests both with the same `if (shopId)`. The clock
enters as parameters: the two week ranges and yesterday's label. Library
validators (`isMobilePhone`, zod's `email()`) enter as predicate
parameters.

On the shops page, the value `filteredApps`
(`src/pages/shops/index.tsx:198-211`) is computed but the page renders
its `shops` list instead. `ShopsPage.FilteredApps` models the value as
written.

Shared helpers:

- `Wrappers`: `Option`, `Result`.
- `Seqs`: `filter`, `find`, `findIndex`, the `Set` spread, and the
  flattening React applies to an array of arrays in JSX.
- `Sorting`: stable insertion sort with permutation and sum preservation.
- `Text`: ASCII case mapping, `includes`, integer printing and parsing,
  the UTF-16 `length` the form schemas bound, code-point string order.

## Model

| member | source | states |
|---|---|---|
| Users.RolesToInsert | src/pages/shop/restaurant/users/index.tsx:246-253 | a create entry is listed exactly for each selected role id the user has no link for, tagged with the user's id |
| Users.RolesToDelete | src/pages/shop/restaurant/users/index.tsx:254-258 | a link id is listed exactly when that link's role is no longer selected |
| Users.RoleDiff | src/pages/shop/restaurant/users/index.tsx:240-263 | the request creates exactly the selected roles the user lacks, tagged with the user's id, and deletes exactly the links whose role is no longer selected |
| Users.ApplyingDiffYieldsSelection | src/pages/shop/restaurant/users/index.tsx:240-264 | once the backend applies the diff, the user holds exactly the selected roles (link ids being unique) |
| Users.DiffEmptyIffSelectionUnchanged | src/pages/shop/restaurant/users/index.tsx:244-263 | the request is empty in both directions exactly when the selected set equals the held set |
| Users.HandleRoleUpdate | src/pages/shop/restaurant/users/index.tsx:238-241 | nothing is sent unless some listed user has the selected id, and then it is that user's diff |
| Users.AssignableRoles | src/pages/shop/restaurant/users/index.tsx:323-325 | the roles offered are exactly the roles other than OWNER and ADMIN, none added |
| Text.JsLength | src/pages/shop/restaurant/users/index.tsx:47-53 | the `.length` that zod bounds: the size of the string's UTF-16 encoding, equal to its character count exactly when no character lies above U+FFFF, and at most twice it |
| Users.DefaultUserFormRejected | src/pages/shop/restaurant/users/index.tsx:45-63 | the blank create-user form fails the schema, and so does every form with a user name under two UTF-16 code units or a mismatched confirmation, whatever the email check says |
| Users.UserFormSubmit | src/pages/shop/restaurant/users/index.tsx:186-215 | no payload without a route shop; otherwise an active user of that shop with the typed fields, and an email exactly when one was typed |
| Users.ValidFormGivesBoundedPayload | src/pages/shop/restaurant/users/index.tsx:45-63 | a form the schema accepts yields a payload whose user name has 2 to 10 UTF-16 code units, whose password has at least 4 and equals the confirmation, and whose email, when sent, passed the email check |
| Users.UsersFetch | src/pages/shop/restaurant/users/index.tsx:94-145 | a request only under a shop, for 20 users with their role links, skipping 20 users per page, and none when the page is not a number |
| UserDetails.EqSet | src/pages/shop/restaurant/users/components/user-details.tsx:27-28 | `eqSet`, a size check and a one-way membership check, holds exactly when the two sets are equal |
| UserDetails.ToggleRole | src/pages/shop/restaurant/users/components/user-details.tsx:47-57 | an unselected id is appended; a selected id has its first occurrence spliced out, the rest kept in order; other ids keep their membership |
| UserDetails.ToggleFlipsMembership | src/pages/shop/restaurant/users/components/user-details.tsx:47-57 | on a duplicate-free selection a toggle flips the toggled id's membership and keeps the selection duplicate-free |
| UserDetails.ToggleTwiceRestores | src/pages/shop/restaurant/users/components/user-details.tsx:47-57 | toggling an id twice gives back the same multiset of ids |
| UserDetails.InitialSelection | src/pages/shop/restaurant/users/components/user-details.tsx:37-45 | the card starts from the user's role ids, one per link, in link order |
| UserDetails.RoleChanged | src/pages/shop/restaurant/users/components/user-details.tsx:63-67 | `roleChanged` holds exactly when the selected set differs from the held set |
| UserDetails.InitialSelectionUnchanged | src/pages/shop/restaurant/users/components/user-details.tsx:37-67 | a freshly opened card never reports a change |
| UserDetails.UpdateRolesClick | src/pages/shop/restaurant/users/components/user-details.tsx:153-157 | the button passes the selection on exactly when it differs from the held roles, and unchanged |
| UserDetails.EnabledUpdateSendsChanges | src/pages/shop/restaurant/users/components/user-details.tsx:59-61 | an enabled update never produces an empty role request |
| UserList.EditLocked | src/pages/shop/restaurant/users/components/user-list.tsx:93-95 | the edit button is disabled exactly for users holding the OWNER role |
| UserList.EmailCell | src/pages/shop/restaurant/users/components/user-list.tsx:64 | the cell shows the email when there is a non-empty one, and "-" otherwise |
| UserList.UserRows | src/pages/shop/restaurant/users/components/user-list.tsx:43-95 | one row per user in order, reporting the user's id, highlighted exactly for the selected id, locked exactly for owners |
| UserList.HighlightMatchesDetails | src/pages/shop/restaurant/users/components/user-list.tsx:47-49 | a row is highlighted exactly when the details card has a user to act on |
| UserList.AtMostOneHighlighted | src/pages/shop/restaurant/users/components/user-list.tsx:47-49 | with unique user ids at most one row is highlighted |
| Pagination.PageFromQuery | src/pages/shop/restaurant/orders/index.tsx:29 | an absent or empty page parameter is page 0, and a printed integer is read back as itself |
| Pagination.PageWindow | src/pages/shop/restaurant/orders/index.tsx:47-48 | 20 rows are taken; the skip is 20 times the page, or 0 when the page is not a number |
| Pagination.PageSkip | src/pages/shop/restaurant/orders/index.tsx:62 | the skip is NaN exactly when the page is, and otherwise 20 times the page |
| Pagination.PagesTile | src/pages/shop/restaurant/orders/index.tsx:47-48 | each page's window starts where the previous page's window ends |
| Pagination.RowInExactlyOnePage | src/pages/shop/restaurant/orders/index.tsx:47-48 | every row lies in the window of exactly one page, page row / 20 |
| Pagination.MalformedPageGivesFirstWindow | src/pages/shop/restaurant/orders/index.tsx:29-48 | a page parameter that is not a number falls back to the first 20 rows |
| Orders.OrdersFetch | src/pages/shop/restaurant/orders/index.tsx:60-71 | a request only under a shop, for closed orders of the logged-in employee, with no status filter, 20 per page |
| Orders.NoPageParamMeansFirstPage | src/pages/shop/restaurant/orders/index.tsx:29-30 | without a page parameter the request skips nothing |
| MenuItemList.SpiceIndex | src/pages/shop/restaurant/menu/menu-items/components/menu-item-list.tsx:66-73 | None, Mild and Moderate give exactly 0, 1 and 2 peppers; every other value gives 3 |
| MenuItemList.SpiceIndexRanksScales | src/pages/shop/restaurant/menu/menu-items/components/menu-item-list.tsx:66-73 | each offered spice scale gets its own rank in order of heat |
| MenuItemList.FoodTypeLabel | src/pages/shop/restaurant/menu/menu-items/components/menu-item-list.tsx:80-85 | the badge reads Veg exactly for Vegetarian, Non-Veg exactly for NonVegetarian, and Vegan otherwise, the vegan food type included |
| MenuItemList.FoodTypeColour | src/pages/shop/restaurant/menu/menu-items/components/menu-item-list.tsx:74-79 | the icon is green exactly for Vegetarian, red exactly for NonVegetarian, and blue otherwise, the vegan food type included |
| MenuItemList.LabelAndColourAgree | src/pages/shop/restaurant/menu/menu-items/components/menu-item-list.tsx:74-85 | Vegetarian shows Veg in green, NonVegetarian Non-Veg in red, any other value Vegan in blue; label and colour always agree |
| MenuItemList.SpiceLevel | src/pages/shop/restaurant/menu/menu-items/components/menu-item-list.tsx:20-36 | `total` peppers are drawn, and the i-th is red exactly when i is below the level |
| MenuItemList.RedPeppersCount | src/pages/shop/restaurant/menu/menu-items/components/menu-item-list.tsx:20-36 | the number of red peppers is the level clamped to between 0 and the total |
| MenuItemList.AvailabilityText | src/pages/shop/restaurant/menu/menu-items/components/menu-item-list.tsx:118 | "Available" exactly for an available item, otherwise the source's "Not Avialable" |
| MenuItemList.MenuItemRows | src/pages/shop/restaurant/menu/menu-items/components/menu-item-list.tsx:65-126 | one row per item, with three peppers of which the spice index are red, "Available" exactly for available items, and the edit button reporting the item's id |
| MenuItems.CategoryRank | src/pages/shop/restaurant/menu/menu-items/index.tsx:104-108 | an item ranks by its category's display index, and as 1 without a category or with index 0 |
| MenuItems.SortMenuItems | src/pages/shop/restaurant/menu/menu-items/index.tsx:104-108 | the listed items are the fetched ones, ascending by category display index, where a missing category or index 0 ranks as 1 |
| MenuItems.UncategorisedRankFirst | src/pages/shop/restaurant/menu/menu-items/index.tsx:107 | an uncategorised item is listed before any item whose category index exceeds 1 |
| MenuItems.ActiveCategories | src/pages/shop/restaurant/menu/menu-items/index.tsx:303-304 | the category picker lists exactly the active categories |
| MenuItems.SubmitMenuItem | src/pages/shop/restaurant/menu/menu-items/index.tsx:159-181 | nothing unless the form is valid (an item name of 2 to 50 UTF-16 code units) and the route has a shop; an update of the selected item exactly when one is selected, otherwise a create; the payload carries the route's shop id, every typed field as entered and both prices parsed from their text |
| MenuItems.EditMenuItem | src/pages/shop/restaurant/menu/menu-items/index.tsx:183-201 | an unknown id changes nothing; a known id opens the dialog with that id selected |
| MenuItems.EditLoadsItem | src/pages/shop/restaurant/menu/menu-items/index.tsx:184-199 | editing the first item with an id loads that item's fields, with prices printed |
| MenuItems.CloseMenuItemDialog | src/pages/shop/restaurant/menu/menu-items/index.tsx:203-207 | closing sets the dialog state, resets the form and clears the selection |
| MenuItems.NewItemClick | src/pages/shop/restaurant/menu/menu-items/index.tsx:222 | "New Item" only opens the dialog, keeping the selection, the form and the loaded lists |
| MenuItems.MenuItemSaved | src/pages/shop/restaurant/menu/menu-items/index.tsx:130-157 | after success the form is reset and the dialog closed; only an update clears the selection |
| MenuItems.EditThenSubmitUpdatesItem | src/pages/shop/restaurant/menu/menu-items/index.tsx:159-201 | editing an item and saving it untouched sends an update of that item with its own fields and prices |
| MenuItems.CloseThenNewItemCreates | src/pages/shop/restaurant/menu/menu-items/index.tsx:203-207 | after a close, "New Item" and a valid submission create an item, whatever was being edited |
| MenuItems.UpdateSavedThenSubmitCreates | src/pages/shop/restaurant/menu/menu-items/index.tsx:144-157 | after a successful update the next "New Item" submission is a create |
| MenuCategoryPage.SubmitCategory | src/pages/shop/restaurant/menu/menu-category/index.tsx:124-135 | nothing unless the form is valid (a category name of 2 to 50 UTF-16 code units) and the route has a shop; an update of the selected category exactly when one is selected, otherwise a create; values as typed |
| MenuCategoryPage.EditCategory | src/pages/shop/restaurant/menu/menu-category/index.tsx:137-145 | an unknown id changes nothing; a known id opens the dialog with that id selected |
| MenuCategoryPage.EditFillsFromCategory | src/pages/shop/restaurant/menu/menu-category/index.tsx:137-145 | editing the first category with an id loads its name and status into the form |
| MenuCategoryPage.CloseCategoryDialogAsWritten | src/pages/shop/restaurant/menu/menu-category/index.tsx:94-97 | closing sets the dialog state and resets the form but keeps the selected category |
| MenuCategoryPage.CloseCategoryDialog | src/pages/shop/restaurant/menu/menu-category/index.tsx:94-97 | the corrected close also clears the selection |
| MenuCategoryPage.NewCategoryClick | src/pages/shop/restaurant/menu/menu-category/index.tsx:153 | "New Category" only opens the dialog |
| MenuCategoryPage.CategorySaved | src/pages/shop/restaurant/menu/menu-category/index.tsx:99-122 | after success the form is reset and the dialog closed; only an update clears the selection |
| MenuCategoryPage.EditThenSubmitUpdatesCategory | src/pages/shop/restaurant/menu/menu-category/index.tsx:124-145 | editing a category and saving it untouched sends an update of that category with its own name and status |
| MenuCategoryPage.AbortedEditThenNewCategoryUpdates | src/pages/shop/restaurant/menu/menu-category/index.tsx:94-97 | as written, edit, dismiss, "New Category" and submit sends an update that overwrites the dismissed category |
| MenuCategoryPage.AbortedEditThenNewCategoryCreates | src/pages/shop/restaurant/menu/menu-category/index.tsx:94-97 | with the corrected close the same steps create a category |
| MenuCategoryPage.CloseThenNewCategoryCreates | src/pages/shop/restaurant/menu/menu-category/index.tsx:94-135 | after the corrected close every valid "New Category" submission is a create |
| CategoryList.StatusLabel | src/pages/shop/restaurant/menu/menu-category/components/category-list.tsx:51-55 | the badge reads "Active" for an active category and "Inactive" otherwise |
| CategoryList.RowsOf | src/pages/shop/restaurant/menu/menu-category/components/category-list.tsx:41-70 | one row per category in order, "Active" exactly for active ones, each edit button reporting its own category's id |
| CategoryList.CategoryRows | src/pages/shop/restaurant/menu/menu-category/components/category-list.tsx:39-70 | the rows are those of a reordering of the categories, ascending by display index |
| ItemSalesShare.Group | src/pages/shop/restaurant/dashboard/components/items-sales-share.tsx:29-35 | the grouped keys are the distinct item names in order of first sale |
| ItemSalesShare.GroupValues | src/pages/shop/restaurant/dashboard/components/items-sales-share.tsx:29-35 | each key holds the total quantity sold under that name |
| ItemSalesShare.GroupTotal | src/pages/shop/restaurant/dashboard/components/items-sales-share.tsx:29-35 | grouping neither loses nor invents quantity |
| ItemSalesShare.ChartData | src/pages/shop/restaurant/dashboard/components/items-sales-share.tsx:25-42 | no chart without data; otherwise the grouped slices, reordered ascending by quantity |
| ItemSalesShare.ChartDataMeaning | src/pages/shop/restaurant/dashboard/components/items-sales-share.tsx:29-42 | every slice is a sold name with that name's total quantity, every sold name has a slice, one slice per distinct name, and the slices add up to all quantity sold |
| ItemSales.RowNames | src/pages/shop/restaurant/dashboard/components/item-sales.tsx:32 | the row names are exactly the sold item names, each once |
| ItemSales.RowsInFirstSaleOrder | src/pages/shop/restaurant/dashboard/components/item-sales.tsx:32 | rows come in order of each item's first sale |
| ItemSales.ItemData | src/pages/shop/restaurant/dashboard/components/item-sales.tsx:65-67 | a row's data is exactly the sales of that item name |
| ItemSales.CellsFor | src/pages/shop/restaurant/dashboard/components/item-sales.tsx:73-76 | one group of sales per header, holding exactly the item's sales on that header's date |
| ItemSales.RowCells | src/pages/shop/restaurant/dashboard/components/item-sales.tsx:73-90 | the cells React renders for one row hold exactly the item's sales on some header date |
| ItemSales.SalesTable | src/pages/shop/restaurant/dashboard/components/item-sales.tsx:27-90 | no table without data; otherwise one row per distinct name, in first-sale order, holding that item's rendered cells |
| ItemSales.SaleAppearsInItsRow | src/pages/shop/restaurant/dashboard/components/item-sales.tsx:64-90 | every sale on a header date appears somewhere in its item's row |
| ItemSales.FlattenAlignedIff | src/pages/shop/restaurant/dashboard/components/item-sales.tsx:73-90 | with distinct column dates, the concatenated cells sit under their columns exactly when every column has exactly one sale |
| ItemSales.RowAlignedIffOneSalePerDate | src/pages/shop/restaurant/dashboard/components/item-sales.tsx:64-90 | a row as written is aligned with the header dates if and only if the item has exactly one sale on each header date |
| ItemSales.MissingDateShiftsCells | src/pages/shop/restaurant/dashboard/components/item-sales.tsx:73-90 | an item sold only on the second of two dates renders its one cell under the first date's column |
| ItemSales.AlignedCells | src/pages/shop/restaurant/dashboard/components/item-sales.tsx:73-76 | the corrected row has one cell per header: empty exactly when the item has no sale that day, otherwise a sale of that day |
| ItemSales.SalesTableAligned | src/pages/shop/restaurant/dashboard/components/item-sales.tsx:27-90 | the corrected table: the rows as written, each with one cell per column, empty exactly when the item was not sold that day |
| ItemSales.SaleFillsItsColumn | src/pages/shop/restaurant/dashboard/components/item-sales.tsx:64-90 | in the corrected table the column of every sale's date holds a sale of that item on that date |
| ItemSales.AlignedAgreesWithOneSalePerDate | src/pages/shop/restaurant/dashboard/components/item-sales.tsx:73-90 | where the item has exactly one sale per column, the table as written and the corrected table show the same sale in every column |
| Dashboard.CreateRange | src/pages/shop/restaurant/dashboard/index.tsx:33-65 | only the two week selectors give a range: this week's or last week's |
| Dashboard.FilterText | src/pages/shop/restaurant/dashboard/index.tsx:28-31 | a caption exists exactly for the selectors that give a range |
| Dashboard.SalesFetch | src/pages/shop/restaurant/dashboard/index.tsx:106-112 | both sales requests go out exactly when the route has a shop and the selector names a week, for that week's range |
| Dashboard.SalesSeries | src/pages/shop/restaurant/dashboard/index.tsx:82-87 | one chart point per response entry, in order, each carrying that entry's date and figure |
| Dashboard.SeriesRoundTrip | src/pages/shop/restaurant/dashboard/index.tsx:82-87 | the series loses nothing: reading its points back gives the response's keys and figures in order |
| Dashboard.SalesTotals | src/pages/shop/restaurant/dashboard/index.tsx:120-122 | an empty series gives zero on every card |
| Dashboard.TotalsAddDay | src/pages/shop/restaurant/dashboard/index.tsx:120-122 | one more day adds exactly that day's total, cash and UPI to the cards |
| Dashboard.LastDaySale | src/pages/shop/restaurant/dashboard/index.tsx:124-130 | a point is found exactly when some point is labelled with yesterday's date, and it is one of them |
| Dashboard.LastDayCard | src/pages/shop/restaurant/dashboard/index.tsx:225 | without a point for yesterday the card shows 0; otherwise it shows the total of a point labelled with yesterday's date |
| Dashboard.LastDayCardShowsYesterday | src/pages/shop/restaurant/dashboard/index.tsx:124-130 | with unique date keys the card shows the response's total for yesterday's key |
| ShopSlice.InitialState | src/redux/features/shopSlice.ts:15-19 | the slice starts with no record, no error and status Init |
| ShopSlice.Overlay | src/redux/features/shopSlice.ts:65 | the merged record has the keys of both; payload keys take the payload's value, others keep the stored one |
| ShopSlice.Reduce | src/redux/features/shopSlice.ts:59-83 | pending only marks loading; fulfilled marks success, keeps the error and overlays the payload; rejected marks failure, keeps the record and stores the error |
| ShopSlice.ThunksReduceAlike | src/redux/features/shopSlice.ts:59-83 | the update and the get thunk are reduced identically: the source's two copies of the cases share their bodies, and the model's one reducer ignores the thunk, so this holds by the model's shape |
| ShopSlice.OverlayIdempotent | src/redux/features/shopSlice.ts:78 | delivering the same payload twice leaves the record as once |
| ShopSlice.FirstPayloadIsRecord | src/redux/features/shopSlice.ts:65 | on an empty store the first payload becomes the record as is |
| ShopSlice.SuccessKeepsStaleError | src/redux/features/shopSlice.ts:63-70 | a success after a failure does not clear the failure's error |
| ShopSlice.RecordNeverLost | src/redux/features/shopSlice.ts:59-83 | once a record is loaded, no sequence of actions removes it or any of its keys |
| GstForm.PercentText | src/pages/shop/restaurant/settings/gst-and-charges/gst-and-charges-form.tsx:48-51 | the text is empty exactly for an absent percentage, and parses back to a stored one |
| GstForm.GstDefaults | src/pages/shop/restaurant/settings/gst-and-charges/gst-and-charges-form.tsx:31-53 | empty values without a shop; otherwise the stored GSTIN, and each of the three percentages as the text of the stored value, empty exactly where none is stored |
| GstForm.PercentField | src/pages/shop/restaurant/settings/gst-and-charges/gst-and-charges-form.tsx:75-80 | a percentage is sent exactly when its text is not empty, and is then the text's `parseFloat` value |
| GstForm.GstSubmit | src/pages/shop/restaurant/settings/gst-and-charges/gst-and-charges-form.tsx:60-83 | nothing without a shop; otherwise the shop's id, type and active flag, the typed GSTIN, and each of the three percentages read from its text, sent exactly when that text is not empty |
| GstForm.UntouchedGstFormRoundTrip | src/pages/shop/restaurant/settings/gst-and-charges/gst-and-charges-form.tsx:44-80 | saving the form untouched writes back the stored GSTIN and percentages, leaving absent ones out |
| GstForm.ZeroPercentKept | src/pages/shop/restaurant/settings/gst-and-charges/gst-and-charges-form.tsx:48 | a stored zero percentage is shown as "0" and sent back as 0 |
| DeliveryForm.LoadConfig | src/pages/shop/restaurant/settings/delivery/delivery-settings-form.tsx:58-73 | the loaded delivery section fills the form, the radius wrapped for the slider, and the response is kept |
| DeliveryForm.DeliverySubmit | src/pages/shop/restaurant/settings/delivery/delivery-settings-form.tsx:83-97 | nothing without a route shop; otherwise the loaded id, the loaded config's shop id when it is non-empty and the route's shop id otherwise, the other config sections untouched, and the form's delivery values with the slider unwrapped |
| DeliveryForm.LoadThenSubmitRoundTrip | src/pages/shop/restaurant/settings/delivery/delivery-settings-form.tsx:58-97 | loading a config and saving it unchanged sends it back as it was |
| DeliveryForm.AddChargeRow | src/pages/shop/restaurant/settings/delivery/delivery-settings-form.tsx:119-122 | a zero row is appended and the existing rows kept |
| DeliveryForm.RemoveChargeRow | src/pages/shop/restaurant/settings/delivery/delivery-settings-form.tsx:235-236 | the first row's button does nothing; any other removes exactly that row |
| DeliveryForm.FirstRowNeverRemoved | src/pages/shop/restaurant/settings/delivery/delivery-settings-form.tsx:235 | the first charge row survives every removal |
| DeliveryForm.AddThenRemoveRestores | src/pages/shop/restaurant/settings/delivery/delivery-settings-form.tsx:119-122 | removing a freshly added row restores the table |
| ShopDetailsForm.ShopDetailsDefaultsAsWritten | src/pages/shop/restaurant/settings/shop-details/shop-details-form.tsx:76-97 | the prefill is the stored shop's fields except that the registration number stays empty |
| ShopDetailsForm.ShopDetailsDefaults | src/pages/shop/restaurant/settings/shop-details/shop-details-form.tsx:54-97 | the corrected prefill also carries the stored registration number |
| ShopDetailsForm.ShopDetailsSubmit | src/pages/shop/restaurant/settings/shop-details/shop-details-form.tsx:104-116 | nothing when the schema (shop name of 2 to 25 UTF-16 code units, pincode of 6) rejects the values or no shop is loaded; otherwise every field with the shop's id, type and active flag |
| ShopDetailsForm.UntouchedSubmitClearsRegistration | src/pages/shop/restaurant/settings/shop-details/shop-details-form.tsx:76-113 | as written, saving untouched sends an empty registration number over a stored one |
| ShopDetailsForm.UntouchedSubmitKeepsShop | src/pages/shop/restaurant/settings/shop-details/shop-details-form.tsx:104-113 | with the corrected prefill, saving untouched writes back the stored shop unchanged |
| Navigation.Sidelinks | src/data/sidelinks.tsx:28-182 | no links for a shop type other than restaurant; otherwise the seven sections in order with the base route, `/orders`, `/users`, `/attendance` and `/settings` under it, Menu's two entries at `/menu-categories` and `/menu-items` under it, the fixed Inventory entries, and a sub-menu exactly where there is no href |
| Navigation.ShopLinksUnderBase | src/data/sidelinks.tsx:30-176 | every top-level href and both Menu entries start with the shop's base route |
| Navigation.BaseRouteIdentifiesShop | src/data/sidelinks.tsx:30 | the shop id can be read back out of the base route, so links of different shops differ |
| Navigation.InventoryIndependentOfShop | src/data/sidelinks.tsx:65-102 | the Inventory section is the same for every shop |
| SettingsNav.SidebarNavItems | src/pages/shop/restaurant/settings/index.tsx:47-63 | three entries, Shop Details, GST & Charges and Delivery, the last two below the first |
| SettingsNav.SettingsPage | src/pages/shop/restaurant/settings/index.tsx:16-21 | the page renders its navigation exactly when the route has a shop id |
| SettingsNav.SettingsEntryMatchesSidelink | src/pages/shop/restaurant/settings/index.tsx:47-51 | the first settings entry is where the side navigation's Settings link goes, and every entry lies below it |
| ShopsPage.NameOrderIsTotalPreorder | src/pages/shops/index.tsx:198-203 | both name comparators are total and transitive, so the sort is well defined |
| ShopsPage.SortApps | src/pages/shops/index.tsx:198-203 | a permutation of the apps (each kept as often as it occurs), ordered by name in the chosen direction |
| ShopsPage.KeepSorted | src/pages/shops/index.tsx:204-211 | a filter step keeps every occurrence of a passing app, none of the others, and keeps their order |
| ShopsPage.FilteredApps | src/pages/shops/index.tsx:198-211 | exactly the apps matching the connection selector whose lower-cased name contains the lower-cased search term, each as often as in the catalogue, ordered by name |
| ShopsPage.FilteredAppsPermutesShown | src/pages/shops/index.tsx:198-211 | the listed apps are, as a multiset, the catalogue filtered by both selectors |
| ShopsPage.EmptySearchKeepsAll | src/pages/shops/index.tsx:204-211 | with the "all" selector and an empty search every app is listed |
| ShopsPage.ManagePath | src/pages/shops/index.tsx:213-215 | the manage link is the shop's base route for its lower-cased type, under `/shop/` and the shop id |
| ShopsPage.ManageOpensDashboard | src/pages/shops/index.tsx:213-215 | "Manage" on a restaurant opens the shop's dashboard, its first side link |
| ShopsPage.PercentOrZero | src/pages/shops/index.tsx:168-171 | an empty percentage is sent as 0, any other text as parsed |
| ShopsPage.AstralShopNameAccepted | src/pages/shops/index.tsx:59 | a shop name made of one character above U+FFFF passes `min(2)`, because its JavaScript length is 2 |
| ShopsPage.CreateShopSubmit | src/pages/shops/index.tsx:150-174 | nothing when the schema (shop name of 2 to 25 UTF-16 code units, pincode of 6) rejects the values; otherwise an active shop with every typed text field as entered, the parsed type id and each percentage or 0 |
| ShopsPage.CreateShopCarriesNumbers | src/pages/shops/index.tsx:164-173 | a type id and percentage typed as integers are sent as those integers |
| UserNav.InitialsAsWritten | src/components/user-nav.tsx:31-32 | as written, with no user it prints "undefinedundefined"; it throws exactly when a name is empty; otherwise it gives the two upper-cased first letters |
| UserNav.Initial | src/components/user-nav.tsx:32 | one upper-cased first letter for a non-empty name, nothing for an empty one |
| UserNav.Initials | src/components/user-nav.tsx:32 | the corrected initials of a user have at most two letters |
| UserNav.InitialsAgreeWhenDefined | src/components/user-nav.tsx:32 | the corrected initials agree with the original wherever it does not throw, and have two letters exactly when both names are non-empty |
| UserNav.EmptyFirstNameCrashesMenu | src/pages/shop/restaurant/users/index.tsx:50 | the create-user schema accepts an empty first name, and such a user's menu throws as written |
| UserNav.NameLine | src/components/user-nav.tsx:53 | the line is the first name, a space and the last name |
| UserNav.SecondaryLine | src/components/user-nav.tsx:56 | the email when there is a non-empty one, otherwise the contact number; nothing without a user |
| UserNav.LogoutAsWritten | src/components/user-nav.tsx:23-38 | as written, a rejection escapes the handler and leaves the session untouched; a success removes the token and opens the sign-in page |
| UserNav.RejectedLogoutKeepsToken | src/components/user-nav.tsx:23-38 | a failed logout request leaves the user signed in on the same page |
| UserNav.Logout | src/components/user-nav.tsx:34-38 | the corrected logout removes the token, opens the sign-in page and keeps every other stored key |
| UserNav.LogoutAgreesOnSuccess | src/components/user-nav.tsx:34-38 | however the request settles, the corrected logout ends where the original ends on success |

## Left out

- The API gateway (`src/apis/index.ts`), its interceptors and the network: every response is a parameter.
- The sign-in form, `src/pages/auth/components/user-auth-form.tsx`: it only forwards its values to the auth slice.
- `src/models/auth.ts` is not part of this model. The signed-in user and the role records are reduced to the fields the pages read.
- `src/utils/enums.ts` is not part of this model. The spice-scale and food-type strings are assumed to equal their member names, and `VEGAN` for the vegan food type.
- `pages/shops/data` is not part of this model. An app is reduced to its name and connected flag.
- The item-sales response type is not part of this model. Its fields are taken from their use: item name, quantity sold, price, date, and headers with day and date.
- `isMobilePhone` and zod's email format check are library calls. They are parameters.
- Dashboard.CreateRange: the ISO-week arithmetic with `moment` is left out. The two ranges and yesterday's label are computed by the caller from the clock.
- Charts, colours, themes, `formatPrice`, `prettyDateTime`, icons and link labels are presentation only.
- DeliveryForm.RemoveChargeRow: the "-" button (`src/pages/shop/restaurant/settings/delivery/delivery-settings-form.tsx:234-239`) has no `type` and, unlike "Add" (lines 119-122), does not call `preventDefault`. If the `Button` component renders a plain `<button>`, pressing "-" also submits the form. The `Button` component is not part of this model, so the model removes the row only.
- ShopsPage.SortApps: `apps.sort(...)` (`src/pages/shops/index.tsx:198-203`) sorts the module-level `apps` array imported at line 11 in place, on every render. The model returns a sorted copy, so the reordering that one render leaves behind for the next is not modelled. The filtered result does not depend on it, because each render sorts again before filtering.
- DeliveryForm.DeliverySubmit: the distance and charge inputs store `parseInt(e.target.value)` (`src/pages/shop/restaurant/settings/delivery/delivery-settings-form.tsx:202-204` and `223-225`). A cleared field therefore holds `NaN`, and `z.number()` (lines 23-26) rejects it, so the form does not submit. The model's charge rows hold whole numbers only, so this blocked submit is not modelled.
- Routing, layouts, JSX structure, loaders, saving flags, error banners and the refetch after each save are not modelled.
- Percentages and prices are modelled as whole numbers. `parseInt`/`parseFloat` are modelled as an optional sign followed by the leading run of digits, the text after it ignored, and `NaN` without a digit. Leading whitespace, fractions, exponents, `Infinity`, and the `0x` hexadecimal prefix that `parseInt` accepts are not modelled.
- `localeCompare` is modelled as code-point order: collation is locale data. Code-point order also differs from UTF-16 code-unit order where a character above U+FFFF meets one from U+E000 to U+FFFF.
- Strings are sequences of Unicode scalar values, not of UTF-16 code units. Where the source measures a string, the model counts code units through `Text.JsLength`, so every zod `min`/`max`/`length` bound matches JavaScript. Indexing is not converted: `firstName[0]` in `src/components/user-nav.tsx:32` is modelled as the first character, while JavaScript gives the first code unit, which is a lone high surrogate when the name starts above U+FFFF. The model therefore shows such a character where the source shows half of it. Lone surrogates cannot be held in a Dafny `string`.
- `toLowerCase`/`toUpperCase` are modelled on ASCII letters only; Unicode case mapping is data.
- The items-sales-share chart groups items in a `{}` object, whose inherited keys (`constructor`, `__proto__` and the like) are not modelled: an item named after one of them is grouped as any other name.
- `Object.keys` order is modelled as insertion order. JavaScript lists integer-like keys first; item names and date labels are not integer-like.
- `createdAt`/`updatedAt` timestamps are dropped from every record, since no computation reads them.
- Sorting.SortBy: the sort is stable, but the contracts state only the order, the permutation and sums, not the relative order of equal keys.
- ShopSlice: `action.error` of a rejected thunk is passed on abstractly as the error type `E`.
- The shops page's `sort` and filter state, and the rendered `shops` list, are outside the model; only the computed `filteredApps` value is modelled.
- The paginator's visibility above a non-empty list (`src/pages/shop/restaurant/orders/index.tsx:106-114`) is the predicate `Pagination.ShowPaginator`, which has no contract of its own.
- The orders table's rendering and the order and attendance pages beyond the request are not part of this model.

## Findings

| source | as written | input that shows it | evidently intended | confidence | as-written member | corrected member |
|---|---|---|---|---|---|---|
| src/pages/shop/restaurant/menu/menu-category/index.tsx:94-97 | closing the category dialog resets the form but keeps `selectedCategoryId` | edit category "c1", dismiss the dialog, press "New Category", enter a valid name, submit | the submission creates a new category, as on the menu items page (`menu-items/index.tsx:203-207`) | not executed | MenuCategoryPage.AbortedEditThenNewCategoryUpdates | MenuCategoryPage.AbortedEditThenNewCategoryCreates |
| src/pages/shop/restaurant/settings/shop-details/shop-details-form.tsx:76-97 | the prefill copies every stored field except `registrationNo`, which keeps its empty default. The form renders no registration-number input (its fields are at lines 139-276), so every save, edited or not, sends an empty registration number | a shop with registration number "REG1", the form saved without edits | the stored registration number is prefilled and written back | not executed | ShopDetailsForm.UntouchedSubmitClearsRegistration | ShopDetailsForm.UntouchedSubmitKeepsShop |
| src/components/user-nav.tsx:32 | `firstName[0].toUpperCase()` throws on an empty name, and the user schema (`users/index.tsx:50`) accepts one | a signed-in user with first name "" and last name "Doe" | the menu renders with the initials it can form | not executed | UserNav.EmptyFirstNameCrashesMenu | UserNav.InitialsAgreeWhenDefined |
| src/components/user-nav.tsx:23-38 | `signOut` returns `dispatch(logout()).unwrap()` without `await`, so its `catch` never sees a rejection, and `handleLogout` stops before removing the token | the logout request is rejected | the error is logged in `signOut`, and the token is removed and the sign-in page opened | not executed | UserNav.RejectedLogoutKeepsToken | UserNav.LogoutAgreesOnSuccess |
| src/pages/shop/restaurant/dashboard/components/item-sales.tsx:73-90 | each header's sales render as zero or more cells, and React concatenates them into the row, so a missing or repeated date moves the later cells | headers "1 Jan" and "2 Jan", one sale of Tea on "2 Jan" | each item has one cell per column, empty when the item was not sold that day | not executed | ItemSales.MissingDateShiftsCells | ItemSales.SalesTableAligned |
