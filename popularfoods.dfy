/**
 * The "Popular Foods" strip of the home page (src/Pages/PopularFoods.jsx):
 * four fixed dishes, each with an add-to-cart button that merges the dish
 * into the stored cart and, when reading or merging the cart throws,
 * overwrites the cart with that dish alone.
 */
module PopularFoods {
  import opened Options
  import opened Js
  import opened CartLines
  import opened CartAdd
  import opened Header

  /** A dish of the strip. */
  datatype Food = Food(id: int, name: string, desc: string, price: int, original: int, img: string)

  const Foods: seq<Food> := [
    Food(1, "Chicken Briyani", "Aromatic basmati rice with spiced chicken.", 370, 400, "/images/Chicken Briyani.jpg"),
    Food(2, "Butter Chicken", "Creamy tomato-based chicken curry.", 320, 350, "/images/Butter chicken.jpg"),
    Food(3, "Chicken Wings", "Spicy and tangy chicken wings.", 220, 250, "/images/Chicken Wings.jpg"),
    Food(4, "Chocolate Pudding", "Rich and creamy dessert and Chocolatey.", 150, 180, "/images/desserts.jpg")
  ]

  /** The cart line built for a dish: `{id, name, price: Number(price) || 0, image: img, qty: 1}`. */
  function FoodItem(f: Food): Value {
    NewItem(Num(f.id), Str(f.name), Num(f.price), Str(f.img))
  }

  /**
   * The cart `addToCart` leaves behind: the merged list when the stored cart
   * reads as a list the merge can walk, otherwise (the `catch` branch) the
   * dish alone.
   */
  function CartAfterAdd(slot: Slot, f: Food): seq<Value> {
    match Current(slot)
    case None => [FoodItem(f)]
    case Some(current) =>
      match Added(current, FoodItem(f))
      case Some(updated) => updated
      case None => [FoodItem(f)]
  }

  class Strip {
    var justAdded: Value
    var store: map<string, Slot>

    constructor (initial: map<string, Slot>)
      ensures justAdded == Null && store == initial
    {
      justAdded := Null;
      store := initial;
    }

    /**
     * `addToCart(product)`: the cart key receives the new list in either
     * branch; the merge branch marks the dish as just added and sends the list
     * with the event, the `catch` branch sends `null`.
     */
    method AddToCart(f: Food) returns (detail: Value)
      modifies this
      ensures store == old(store)[CartKey := Stored(Arr(CartAfterAdd(SlotOf(old(store), CartKey), f)))]
      ensures detail.Arr? ==> detail.elems == CartAfterAdd(SlotOf(old(store), CartKey), f) && justAdded == Num(f.id)
      ensures !detail.Arr? ==> detail == Null && justAdded == old(justAdded)
      ensures detail.Arr? <==> Current(SlotOf(old(store), CartKey)).Some? &&
                                 Added(Current(SlotOf(old(store), CartKey)).value, FoodItem(f)).Some?
    {
      var item := FoodItem(f);
      var current := Current(SlotOf(store, CartKey));
      var updated := if current.Some? then Added(current.value, item) else None;
      if updated.Some? {
        store := store[CartKey := Stored(Arr(updated.value))];
        detail := Arr(updated.value);
        justAdded := Num(f.id);
      } else {
        store := store[CartKey := Stored(Arr([item]))];
        detail := Null;
      }
    }
  }

  /**
   * Whatever the stored cart held, the cart written back has a line with the
   * dish's id; the dish alone is written exactly when the stored cart is
   * unreadable text, not an array, or has a null or undefined element.
   */
  lemma CartAfterAddSpec(slot: Slot, f: Food)
    ensures InCart(CartAfterAdd(slot, f), Num(f.id))
    ensures (slot.Corrupt? || (slot.Stored? && !(slot.value.Arr? && NoNullish(slot.value.elems)))) ==>
              CartAfterAdd(slot, f) == [FoodItem(f)]
    ensures slot.Missing? ==> CartAfterAdd(slot, f) == [FoodItem(f)]
    ensures slot.Stored? && slot.value.Arr? && NoNullish(slot.value.elems) ==>
              var cart := slot.value.elems;
              CartAfterAdd(slot, f) == if InCart(cart, Num(f.id)) then BumpEach(cart, Num(f.id)) else cart + [FoodItem(f)]
  {
    var item := FoodItem(f);
    assert Get(item, "id") == Num(f.id);
    assert SameId(item, Num(f.id));
    match Current(slot)
    case None =>
      assert [item][0] == item;
    case Some(current) =>
      MergedHasFood(current, f);
  }

  /** The merge into a cart the page could read leaves a line with the dish's id, or resets the cart to the dish. */
  lemma MergedHasFood(current: Value, f: Food)
    ensures var item := FoodItem(f);
            var r := match Added(current, item) case Some(updated) => updated case None => [item];
            && InCart(r, Num(f.id))
            && (current.Arr? && NoNullish(current.elems) ==>
                  r == if InCart(current.elems, Num(f.id)) then BumpEach(current.elems, Num(f.id)) else current.elems + [item])
            && (!(current.Arr? && NoNullish(current.elems)) ==> r == [item])
  {
    var item := FoodItem(f);
    assert Get(item, "id") == Num(f.id);
    assert SameId(item, Num(f.id));
    AddedSpec(current, item);
    var r := match Added(current, item) case Some(updated) => updated case None => [item];
    if current.Arr? && NoNullish(current.elems) && InCart(current.elems, Num(f.id)) {
      var k :| 0 <= k < |current.elems| && SameId(current.elems[k], Num(f.id));
      BumpedSpec(current.elems[k]);
      assert SameId(r[k], Num(f.id));
    } else if current.Arr? && NoNullish(current.elems) {
      assert r[|current.elems|] == item;
    } else {
      assert r[0] == item;
    }
  }

  /**
   * On a readable cart whose lines with the dish's id have positive
   * quantities, the header badge read after the click has grown by the
   * number of those lines, or by one when there was none; otherwise the cart
   * was reset and the badge reads 1.
   */
  lemma BadgeAfterAdd(slot: Slot, f: Food)
    ensures slot.Stored? && slot.value.Arr? && NoNullish(slot.value.elems) &&
            (forall k :: 0 <= k < |slot.value.elems| && SameId(slot.value.elems[k], Num(f.id)) ==> PositiveQty(slot.value.elems[k])) ==>
              var m := Matches(slot.value.elems, Num(f.id));
              ReadCartCount(Stored(Arr(CartAfterAdd(slot, f)))) == ReadCartCount(slot) + (if m == 0 then 1 else m)
    ensures !(slot.Stored? && slot.value.Arr? && NoNullish(slot.value.elems)) && !slot.Missing? ==>
              ReadCartCount(Stored(Arr(CartAfterAdd(slot, f)))) == 1
  {
    var item := FoodItem(f);
    assert Get(item, "id") == Num(f.id);
    if slot.Stored? && slot.value.Arr? && NoNullish(slot.value.elems) {
      if forall k :: 0 <= k < |slot.value.elems| && SameId(slot.value.elems[k], Num(f.id)) ==> PositiveQty(slot.value.elems[k]) {
        CountAfterAdd(slot.value.elems, item);
      }
    } else if !slot.Missing? {
      CartAfterAddSpec(slot, f);
      assert CountSum([item]) == CountSum([]) + LineCount(item);
    }
  }
}
