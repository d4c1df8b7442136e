/** Menu records as the backend returns them, and the enum strings the menu
    screens compare against. */
module MenuModel {
  import opened Wrappers
  import opened Text

  datatype MenuCategory = MenuCategory(
    id: string,
    categoryName: string,
    isActive: bool,
    displayIndex: int,
    shopId: string)

  datatype MenuItem = MenuItem(
    id: string,
    itemName: string,
    shortCode: string,
    description: string,
    availability: bool,
    isActive: bool,
    foodType: string,
    price: int,
    onlineDeliveryPrice: int,
    waitingTime: int,
    spiceScale: string,
    servingTime: string,
    itemImageUrl: string,
    categoryId: string,
    shopId: string,
    category: Option<MenuCategory>)

  /** Members of `Spice_Scale`. */
  const SpiceNone := "None"
  const SpiceMild := "Mild"
  const SpiceModerate := "Moderate"
  const SpiceSpicy := "Spicy"

  /** Members of `Food_Type`. */
  const Vegetarian := "Vegetarian"
  const NonVegetarian := "NonVegetarian"
  const Vegan := "VEGAN"

  /** A name fits the menu schemas' bounds (`z.string().min(2).max(50)`),
      counted in UTF-16 code units. */
  predicate MenuNameValid(name: string) {
    2 <= JsLength(name) <= 50
  }
}
