/**
 * The checkout page (src/Pages/Checkout.jsx): the cart it starts from, its
 * subtotal, and placing a cash-on-delivery order, which clears the cart key.
 */
module Checkout {
  import opened Options
  import opened Text
  import opened Js
  import opened CartLines
  import opened Cart
  import opened Header

  /**
   * `location?.state?.cart || JSON.parse(localStorage.getItem("cart") || "[]")`,
   * with the `catch` giving `[]`: the cart the route brought along when it is
   * truthy, else the stored one.
   */
  function InitialCart(routeState: Value, slot: Slot): (r: Value)
    ensures Truthy(Get(routeState, "cart")) ==> r == Get(routeState, "cart")
    ensures !Truthy(Get(routeState, "cart")) && !slot.Stored? ==> r == Arr([])
    ensures !Truthy(Get(routeState, "cart")) && slot.Stored? ==> r == slot.value
  {
    var routed := Get(routeState, "cart");
    if Truthy(routed) then routed
    else match slot
      case Missing => Arr([])
      case Corrupt => Arr([])
      case Stored(v) => v
  }

  /** What a line adds: `(it.price || 0) * (it.qty || 1)`. */
  function ItemAmount(it: Value): (a: Value)
    ensures IsNumber(a)
  {
    Times(Or(Get(it, "price"), Num(0)), Or(Get(it, "qty"), Num(1)))
  }

  /**
   * `cartItems.reduce((s, it) => s + (it.price || 0) * (it.qty || 1), 0)`;
   * `None` when it throws, on a null or undefined line.
   */
  function ItemsSubtotal(items: seq<Value>): (r: Option<Value>)
    ensures r.Some? ==> IsNumber(r.value)
    decreases |items|
  {
    if items == [] then Some(Num(0))
    else
      var front := ItemsSubtotal(items[..|items| - 1]);
      var last := items[|items| - 1];
      if front.None? || IsNullish(last) then None else Some(Plus(front.value, ItemAmount(last)))
  }

  /** `subtotal()` on the page's cart, which throws unless it is an array. */
  function CheckoutSubtotal(cart: Value): Option<Value> {
    if cart.Arr? then ItemsSubtotal(cart.elems) else None
  }

  /**
   * The state the cart page's checkout button passes along:
   * `{cart, subtotal, appliedCoupon, total}`.
   */
  function CartRouteState(lines: seq<Line>, applied: Value): Value {
    Obj(map["cart" := Arr(LineValues(lines)), "subtotal" := Subtotal(lines),
            "appliedCoupon" := applied, "total" := Total(lines, applied)])
  }

  /** The address form as it starts; `handleChange` may add further keys but never removes these. */
  function EmptyForm(): map<string, string> {
    map["fullName" := "", "mobile" := "", "street" := "", "city" := "", "zip" := ""]
  }

  /** `!form[key].trim()` */
  predicate Blank(form: map<string, string>, key: string) {
    key !in form || Trim(form[key]) == ""
  }

  /** A required field is blank: the order is refused with an alert. */
  predicate Incomplete(form: map<string, string>) {
    Blank(form, "fullName") || Blank(form, "mobile") || Blank(form, "street")
  }

  datatype Order = Order(customer: map<string, string>, items: Value, subtotal: Value, paymentMethod: string, createdAt: string)

  const Cod := "Cash on Delivery (COD)"

  datatype Placement = Refused | Throws | Placed

  class CheckoutPage {
    var cartItems: Value
    var form: map<string, string>
    var orderPlaced: bool
    var orderData: Option<Order>
    var store: map<string, Slot>

    constructor (routeState: Value, initial: map<string, Slot>)
      ensures cartItems == InitialCart(routeState, SlotOf(initial, CartKey))
      ensures form == EmptyForm() && !orderPlaced && orderData == None && store == initial
    {
      cartItems := InitialCart(routeState, SlotOf(initial, CartKey));
      form := EmptyForm();
      orderPlaced := false;
      orderData := None;
      store := initial;
    }

    /** `handleChange`: `setForm(f => ({...f, [name]: value}))`. */
    method Change(name: string, value: string)
      modifies this
      ensures form == old(form)[name := value]
      ensures cartItems == old(cartItems) && orderPlaced == old(orderPlaced) && orderData == old(orderData) && store == old(store)
    {
      form := form[name := value];
    }

    /**
     * `handlePlaceOrder()`: with a blank required field nothing changes; a
     * cart `subtotal()` cannot add up throws before anything changes; else the
     * order is recorded with a copy of the form, the items, the subtotal and
     * the only payment method, and the cart key is removed.
     */
    method PlaceOrder(createdAt: string) returns (outcome: Placement)
      modifies this
      ensures outcome == Refused <==> Incomplete(old(form))
      ensures outcome == Throws <==> !Incomplete(old(form)) && CheckoutSubtotal(old(cartItems)).None?
      ensures outcome != Placed ==>
                cartItems == old(cartItems) && form == old(form) && orderPlaced == old(orderPlaced) &&
                orderData == old(orderData) && store == old(store)
      ensures outcome == Placed ==>
                && orderData == Some(Order(old(form), old(cartItems), CheckoutSubtotal(old(cartItems)).value, Cod, createdAt))
                && orderPlaced && store == old(store) - {CartKey}
                && cartItems == old(cartItems) && form == old(form)
    {
      if Incomplete(form) {
        return Refused;
      }
      var total := CheckoutSubtotal(cartItems);
      if total.None? {
        return Throws;
      }
      orderData := Some(Order(form, cartItems, total.value, Cod, createdAt));
      store := store - {CartKey};
      orderPlaced := true;
      outcome := Placed;
    }
  }

  /**
   * Once an order is placed the cart key is gone, so a fresh
   * `readCartCount` (a header mounted afterwards) gives 0. The header
   * already on the page does not re-read: see `PlacedBadgeStale`.
   */
  lemma PlacedClearsBadge(store: map<string, Slot>)
    ensures SlotOf(store - {CartKey}, CartKey) == Missing
    ensures ReadCartCount(SlotOf(store - {CartKey}, CartKey)) == 0
  {
  }

  /**
   * The header mounted on the checkout page changes its count only in its
   * `cart-updated` and `storage` handlers. Removing the key sends neither
   * (a `storage` event reaches other tabs only), so the success screen
   * keeps showing the count it had, while storage holds no cart.
   */
  lemma PlacedBadgeStale(count: int, store: map<string, Slot>)
    requires count > 0
    ensures count != ReadCartCount(SlotOf(store - {CartKey}, CartKey))
  {
    PlacedClearsBadge(store);
  }

  /** Sending `cart-updated` after removing the key, as the other pages do after a cart write, brings the badge to 0. */
  lemma PlacedWithEventClearsBadge(count: int, store: map<string, Slot>)
    ensures OnCartUpdated(count, Null, store - {CartKey}) == 0
  {
    PlacedClearsBadge(store);
  }

  /**
   * Coming from the cart page, the checkout uses the cart it was given and
   * nothing else from the route state: the applied coupon and the discounted
   * total are dropped.
   */
  lemma RouteCartTaken(lines: seq<Line>, applied: Value, slot: Slot)
    ensures InitialCart(CartRouteState(lines, applied), slot) == Arr(LineValues(lines))
    ensures forall other: Value :: InitialCart(CartRouteState(lines, applied), slot) == InitialCart(CartRouteState(lines, other), slot)
  {
  }

  /**
   * For cart lines whose quantity is truthy, the checkout subtotal is the
   * cart page's subtotal.
   */
  lemma {:induction false} SubtotalAgrees(lines: seq<Line>)
    requires forall k :: 0 <= k < |lines| ==> Truthy(lines[k].qty)
    ensures ItemsSubtotal(LineValues(lines)) == Some(Subtotal(lines))
    decreases |lines|
  {
    if lines != [] {
      var n := |lines| - 1;
      var front := lines[..n];
      assert forall k :: 0 <= k < |front| ==> Truthy(front[k].qty) by {
        assert forall k :: 0 <= k < |front| ==> front[k] == lines[k];
      }
      SubtotalAgrees(front);
      SubtotalStep(front, lines[n]);
      assert front + [lines[n]] == lines;
    }
  }

  /** A line with a truthy quantity adds the same amount to both sums. */
  lemma SubtotalStep(front: seq<Line>, l: Line)
    requires Truthy(l.qty)
    requires ItemsSubtotal(LineValues(front)) == Some(Subtotal(front))
    ensures ItemsSubtotal(LineValues(front + [l])) == Some(Subtotal(front + [l]))
  {
    var lines := front + [l];
    var v := LineValues(lines);
    LineValuesPrefix(lines, |front|);
    assert lines[..|front|] == front;
    assert v[..|v| - 1] == LineValues(front);
    var amount := ItemAmount(LineValue(l));
    assert amount == LineAmount(l) by {
      assert Or(Get(LineValue(l), "price"), Num(0)) == Num(l.price);
      assert Or(Get(LineValue(l), "qty"), Num(1)) == Or(l.qty, Num(0));
    }
    PlusNumbers(Subtotal(front), amount);
    assert ItemsSubtotal(v) == Some(Plus(Subtotal(front), amount));
  }

  /**
   * A line whose quantity is 0 or missing counts once at checkout but not at
   * all on the cart page.
   */
  lemma FalsyQtyDiffers(l: Line)
    requires !Truthy(l.qty)
    ensures ItemsSubtotal([LineValue(l)]) == Some(Num(l.price))
    ensures Subtotal([l]) == Num(0)
  {
    assert [l][..0] == [];
    assert [LineValue(l)][..0] == [];
  }

  /**
   * The amount the checkout asks for is the subtotal, so a coupon applied on
   * the cart page is not honoured: with a discount `d` below the subtotal the
   * cart page announced `d` less than the checkout charges.
   */
  lemma PayableIgnoresCoupon(lines: seq<Line>, applied: Value, slot: Slot, d: int)
    requires forall k :: 0 <= k < |lines| ==> QtyNumber(lines[k]).Num? && Truthy(lines[k].qty)
    requires ToNumber(Or(Get(applied, "discount"), Num(0))) == Num(d) && 0 <= d <= SumOfProducts(lines)
    ensures CheckoutSubtotal(InitialCart(CartRouteState(lines, applied), slot)) == Some(Num(SumOfProducts(lines)))
    ensures Total(lines, applied) == Num(SumOfProducts(lines) - d)
  {
    RouteCartTaken(lines, applied, slot);
    SubtotalAgrees(lines);
    SubtotalIsSum(lines);
    TotalClamped(lines, applied, d);
  }

  /**
   * The amount the cart page's button names: the route state's `total` when
   * it is a number, the subtotal otherwise.
   */
  function PayableCorrected(routeState: Value, slot: Slot): Option<Value> {
    var t := Get(routeState, "total");
    if t.Num? then Some(t) else CheckoutSubtotal(InitialCart(routeState, slot))
  }

  /** With the correction the checkout charges what the cart page announced, coupon included. */
  lemma PayableCorrectedHonoursCoupon(lines: seq<Line>, applied: Value, slot: Slot, d: int)
    requires forall k :: 0 <= k < |lines| ==> QtyNumber(lines[k]).Num?
    requires ToNumber(Or(Get(applied, "discount"), Num(0))) == Num(d)
    ensures PayableCorrected(CartRouteState(lines, applied), slot) == Some(Total(lines, applied))
    ensures PayableCorrected(CartRouteState(lines, applied), slot) ==
              Some(Num(if SumOfProducts(lines) - d < 0 then 0 else SumOfProducts(lines) - d))
  {
    TotalClamped(lines, applied, d);
  }
}
