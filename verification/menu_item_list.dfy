/** The menu items table: spice peppers, food-type badge and availability. */
module MenuItemList {
  import opened Wrappers
  import opened MenuModel

  /** `spiceIndex`: None, Mild, Moderate count 0, 1, 2 peppers; anything else 3. */
  function SpiceIndex(spiceScale: string): (r: nat)
    ensures r <= 3
    ensures r == 0 <==> spiceScale == SpiceNone
    ensures r == 1 <==> spiceScale == SpiceMild
    ensures r == 2 <==> spiceScale == SpiceModerate
  {
    if spiceScale == SpiceNone then 0
    else if spiceScale == SpiceMild then 1
    else if spiceScale == SpiceModerate then 2
    else 3
  }

  /** The spice scales offered by the form, in order of heat. */
  const SpiceScales := [SpiceNone, SpiceMild, SpiceModerate, SpiceSpicy]

  /** The pepper count identifies the offered spice scale it came from. */
  lemma SpiceIndexRanksScales()
    ensures forall i :: 0 <= i < |SpiceScales| ==> SpiceIndex(SpiceScales[i]) == i
  {
  }

  /** The badge label: Veg and Non-Veg for their two food types, Vegan for
      every other value, the vegan food type among them. */
  function FoodTypeLabel(foodType: string): (r: string)
    ensures r in {"Veg", "Non-Veg", "Vegan"}
    ensures r == "Veg" <==> foodType == Vegetarian
    ensures r == "Non-Veg" <==> foodType == NonVegetarian
    ensures foodType == Vegan ==> r == "Vegan"
  {
    if foodType == Vegetarian then "Veg"
    else if foodType == NonVegetarian then "Non-Veg"
    else "Vegan"
  }

  /** The badge icon colour class: green, red, and blue for every other
      value. */
  function FoodTypeColour(foodType: string): (r: string)
    ensures r in {"text-green-500", "text-red-500", "text-blue-500"}
    ensures r == "text-green-500" <==> foodType == Vegetarian
    ensures r == "text-red-500" <==> foodType == NonVegetarian
    ensures foodType == Vegan ==> r == "text-blue-500"
  {
    if foodType == Vegetarian then "text-green-500"
    else if foodType == NonVegetarian then "text-red-500"
    else "text-blue-500"
  }

  /** Label and colour are chosen by the same test: green is Veg, red is
      Non-Veg, blue is Vegan, and only Vegetarian and NonVegetarian escape
      the Vegan fallback. */
  lemma LabelAndColourAgree(foodType: string)
    ensures foodType == Vegetarian ==>
              FoodTypeLabel(foodType) == "Veg" && FoodTypeColour(foodType) == "text-green-500"
    ensures foodType == NonVegetarian ==>
              FoodTypeLabel(foodType) == "Non-Veg" && FoodTypeColour(foodType) == "text-red-500"
    ensures foodType != Vegetarian && foodType != NonVegetarian ==>
              FoodTypeLabel(foodType) == "Vegan" && FoodTypeColour(foodType) == "text-blue-500"
    ensures FoodTypeLabel(foodType) == "Veg" <==> FoodTypeColour(foodType) == "text-green-500"
    ensures FoodTypeLabel(foodType) == "Non-Veg" <==> FoodTypeColour(foodType) == "text-red-500"
    ensures FoodTypeLabel(foodType) == "Vegan" <==> FoodTypeColour(foodType) == "text-blue-500"
  {
  }

  datatype Pepper = Red | Gray

  /** `SpiceLevel`: `total` peppers, the first `level` of them red. */
  function SpiceLevel(level: int, total: nat): (r: seq<Pepper>)
    ensures |r| == total
    ensures forall i :: 0 <= i < total ==> (r[i] == Red <==> i < level)
  {
    seq(total, i requires 0 <= i < total => if i < level then Red else Gray)
  }

  function RedCount(ps: seq<Pepper>): nat {
    if |ps| == 0 then 0 else RedCount(ps[..|ps| - 1]) + (if ps[|ps| - 1] == Red then 1 else 0)
  }

  /** The number of red peppers is `level` clamped to `[0, total]`. */
  lemma {:induction false} RedPeppersCount(level: int, total: nat)
    ensures RedCount(SpiceLevel(level, total)) == if level < 0 then 0 else if level > total then total else level
  {
    if total > 0 {
      var ps := SpiceLevel(level, total);
      assert ps[..total - 1] == SpiceLevel(level, total - 1);
      RedPeppersCount(level, total - 1);
    }
  }

  /** The availability cell, with the source's spelling of the negative. */
  function AvailabilityText(availability: bool): (r: string)
    ensures r == "Available" <==> availability
    ensures !availability ==> r == "Not Avialable"
  {
    if availability then "Available" else "Not Avialable"
  }

  /** What one table row shows and reports. */
  datatype MenuItemRow = MenuItemRow(
    itemName: string,
    categoryName: Option<string>,
    foodLabel: string,
    foodColour: string,
    peppers: seq<Pepper>,
    availabilityText: string,
    editReports: string)

  /** `data.map(...)`: one row per item, with three peppers of which `spiceIndex` are red. */
  function MenuItemRows(items: seq<MenuItem>): (rows: seq<MenuItemRow>)
    ensures |rows| == |items|
    ensures forall i :: 0 <= i < |items| ==>
              && rows[i].editReports == items[i].id
              && |rows[i].peppers| == 3
              && RedCount(rows[i].peppers) == SpiceIndex(items[i].spiceScale)
              && (rows[i].availabilityText == "Available" <==> items[i].availability)
  {
    var rows := seq(|items|, i requires 0 <= i < |items| =>
      var it := items[i];
      MenuItemRow(it.itemName,
                  if it.category.Some? then Some(it.category.value.categoryName) else None,
                  FoodTypeLabel(it.foodType), FoodTypeColour(it.foodType),
                  SpiceLevel(SpiceIndex(it.spiceScale), 3),
                  AvailabilityText(it.availability), it.id));
    assert forall i :: 0 <= i < |items| ==> RedCount(rows[i].peppers) == SpiceIndex(items[i].spiceScale) by {
      forall i | 0 <= i < |items| ensures RedCount(rows[i].peppers) == SpiceIndex(items[i].spiceScale) {
        RedPeppersCount(SpiceIndex(items[i].spiceScale), 3);
      }
    }
    rows
  }
}
