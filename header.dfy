/**
 * The cart badge of the site header (src/Components/Header.jsx): the number
 * it shows is read from the cart key, and recomputed on the `cart-updated`
 * event the shop pages send and on the browser's `storage` event.
 */
module Header {
  import opened Options
  import opened Js
  import opened CartLines
  import opened CartAdd

  /** What one stored line adds to the badge: `Number(it.qty) || 1`. */
  function LineCount(it: Value): int {
    NumberOr(Get(it, "qty"), 1)
  }

  /** `arr.reduce((sum, it) => sum + (Number(it.qty) || 1), 0)` on an array without null or undefined elements. */
  function CountSum(arr: seq<Value>): int
    decreases |arr|
  {
    if arr == [] then 0 else CountSum(arr[..|arr| - 1]) + LineCount(arr[|arr| - 1])
  }

  /**
   * `readCartCount()` on what the cart key holds: nothing reads as the empty
   * list, and text that does not parse, a value that is not an array, or an
   * element whose `qty` cannot be read (so the `reduce` throws) give 0.
   */
  function ReadCartCount(slot: Slot): int {
    match slot
    case Missing => 0
    case Corrupt => 0
    case Stored(v) => if v.Arr? && NoNullish(v.elems) then CountSum(v.elems) else 0
  }

  /**
   * The `cart-updated` handler: a list in the event is counted directly (no
   * `try` here, so a null element throws and the badge keeps `count`);
   * anything else makes it read the storage again.
   */
  function OnCartUpdated(count: int, detail: Value, store: map<string, Slot>): int {
    if detail.Arr? then (if NoNullish(detail.elems) then CountSum(detail.elems) else count)
    else ReadCartCount(SlotOf(store, CartKey))
  }

  /** The `storage` handler: a change of the cart key recounts its new value; other keys leave the badge alone. */
  function OnStorage(count: int, key: string, newValue: Slot): int {
    if key == CartKey then ReadCartCount(newValue) else count
  }

  /** A line whose quantity is a number other than 0 counts that many; any other line counts 1. */
  lemma LineCountSpec(it: Value)
    ensures Get(it, "qty").Num? && Get(it, "qty").n != 0 ==> LineCount(it) == Get(it, "qty").n
    ensures IsNullish(Get(it, "qty")) || Get(it, "qty") == Num(0) || Get(it, "qty").NaN? ==> LineCount(it) == 1
  {
  }

  /** Lines of positive quantity: the badge is at least the number of lines. */
  lemma {:induction false} CountAtLeastLines(arr: seq<Value>)
    requires forall k :: 0 <= k < |arr| ==> LineCount(arr[k]) >= 1
    ensures CountSum(arr) >= |arr|
    decreases |arr|
  {
    if arr != [] {
      CountAtLeastLines(arr[..|arr| - 1]);
    }
  }

  /** The badge of a cart that cannot be read as a list of lines is 0. */
  lemma UnreadableCountsZero(slot: Slot)
    requires !slot.Stored? || !slot.value.Arr? || !NoNullish(slot.value.elems)
    ensures ReadCartCount(slot) == 0
  {
  }

  /** The `storage` event on the cart key gives the count `readCartCount` would read from the new value. */
  lemma StorageAgreesWithRead(count: int, store: map<string, Slot>, v: Slot)
    ensures OnStorage(count, CartKey, v) == ReadCartCount(SlotOf(store[CartKey := v], CartKey))
  {
  }

  /** A list sent with the event, once it is also what the cart key holds, gives the count a fresh read would. */
  lemma EventAgreesWithRead(count: int, store: map<string, Slot>, cart: seq<Value>)
    requires NoNullish(cart)
    ensures OnCartUpdated(count, Arr(cart), store) == ReadCartCount(Stored(Arr(cart)))
    ensures OnCartUpdated(count, Null, store[CartKey := Stored(Arr(cart))]) == ReadCartCount(Stored(Arr(cart)))
  {
  }

  /** A quantity the add-to-cart merge can bump: a number of at least 1. */
  predicate PositiveQty(e: Value) {
    Get(e, "qty").Num? && Get(e, "qty").n >= 1
  }

  lemma {:induction false} CountSumAppend(a: seq<Value>, b: seq<Value>)
    ensures CountSum(a + b) == CountSum(a) + CountSum(b)
    decreases |b|
  {
    if b == [] {
      assert a + b == a;
    } else {
      var n := |b| - 1;
      assert (a + b)[..|a| + n] == a + b[..n];
      CountSumAppend(a, b[..n]);
    }
  }

  lemma {:induction false} BumpEachCount(cart: seq<Value>, id: Value)
    requires !IsNullish(id)
    requires forall k :: 0 <= k < |cart| && SameId(cart[k], id) ==> PositiveQty(cart[k])
    ensures CountSum(BumpEach(cart, id)) == CountSum(cart) + Matches(cart, id)
    decreases |cart|
  {
    if cart != [] {
      var n := |cart| - 1;
      var r := BumpEach(cart, id);
      assert r[..n] == BumpEach(cart[..n], id);
      BumpEachCount(cart[..n], id);
      var e := cart[n];
      if SameId(e, id) {
        assert Get(e, "id") == id && e.Obj?;
        BumpedSpec(e);
      }
    }
  }

  /**
   * After adding a product (whose id is set) to a readable cart in which its
   * lines have positive quantities, the badge grows by the number of lines
   * with that id, or by one when there was none.
   */
  lemma CountAfterAdd(cart: seq<Value>, item: Value)
    requires HasId(item) && NoNullish(cart) && LineCount(item) == 1
    requires forall k :: 0 <= k < |cart| && SameId(cart[k], Get(item, "id")) ==> PositiveQty(cart[k])
    ensures var r := Added(Arr(cart), item);
            && r.Some? && NoNullish(r.value)
            && CountSum(r.value) == CountSum(cart) + (if Matches(cart, Get(item, "id")) == 0 then 1 else Matches(cart, Get(item, "id")))
  {
    var id := Get(item, "id");
    AddedSpec(Arr(cart), item);
    if InCart(cart, id) {
      BumpEachCount(cart, id);
      MatchesPositive(cart, id);
      BumpEachNoNullish(cart, id);
    } else {
      MatchesZero(cart, id);
      CountSumAppend(cart, [item]);
    }
  }

  lemma BumpEachNoNullish(cart: seq<Value>, id: Value)
    requires NoNullish(cart)
    ensures NoNullish(BumpEach(cart, id))
  {
    var r := BumpEach(cart, id);
    forall k | 0 <= k < |r|
      ensures !IsNullish(r[k])
    {
      if SameId(cart[k], id) {
        assert r[k] == Bumped(cart[k]);
      }
    }
  }
}
