/**
 * The add-to-cart merge that the products page and the popular-foods strip
 * both perform on the stored cart: find a line with the product's id
 * (`===`), and either add one to every line with that id or append a new
 * line with quantity 1.
 */
module CartAdd {
  import opened Options
  import opened Js
  import opened CartLines

  /** The line both pages build: `{id, name, price: Number(price) || 0, image, qty: 1}`. */
  function NewItem(id: Value, name: Value, price: Value, image: Value): Value {
    Obj(map["id" := id, "name" := name, "price" := Num(NumberOr(price, 0)), "image" := image, "qty" := Num(1)])
  }

  /** `c.id === id`, read on an element that is not null or undefined. */
  predicate SameId(e: Value, id: Value) {
    StrictEq(Get(e, "id"), id)
  }

  /** `{...c, qty: (c.qty || 0) + 1}` */
  function Bumped(e: Value): Value {
    Obj(Spread(e)["qty" := Plus(Or(Get(e, "qty"), Num(0)), Num(1))])
  }

  predicate NoNullish(cart: seq<Value>) {
    forall i :: 0 <= i < |cart| ==> !IsNullish(cart[i])
  }

  /** What `cart.find(c => c.id === id)` does: it throws on reaching a null or undefined element. */
  datatype Search = Throws | At(k: nat) | Absent

  function Find(cart: seq<Value>, id: Value, from: nat): (r: Search)
    requires from <= |cart|
    ensures r.At? ==> from <= r.k < |cart| && SameId(cart[r.k], id)
    ensures r.At? ==> forall j :: from <= j < r.k ==> !IsNullish(cart[j]) && !SameId(cart[j], id)
    ensures r.Absent? <==> forall j :: from <= j < |cart| ==> !IsNullish(cart[j]) && !SameId(cart[j], id)
    ensures r.Throws? ==> exists j :: from <= j < |cart| && IsNullish(cart[j])
    decreases |cart| - from
  {
    if from == |cart| then Absent
    else if IsNullish(cart[from]) then Throws
    else if SameId(cart[from], id) then At(from)
    else Find(cart, id, from + 1)
  }

  /** `cart.map(c => c.id === id ? {...c, qty: (c.qty || 0) + 1} : c)` on a cart without null elements. */
  function BumpEach(cart: seq<Value>, id: Value): (r: seq<Value>)
    ensures |r| == |cart|
    ensures forall k :: 0 <= k < |cart| ==> r[k] == if SameId(cart[k], id) then Bumped(cart[k]) else cart[k]
    decreases |cart|
  {
    if cart == [] then []
    else
      var n := |cart| - 1;
      BumpEach(cart[..n], id) + [if SameId(cart[n], id) then Bumped(cart[n]) else cart[n]]
  }

  /**
   * The list `addToCart` writes back, given what the cart key held; `None`
   * when `find` or `map` throws (the value is not an array, or an element is
   * null or undefined).
   */
  function Added(current: Value, item: Value): Option<seq<Value>> {
    if !current.Arr? then None
    else
      var id := Get(item, "id");
      match Find(current.elems, id, 0)
      case Throws => None
      case Absent => Some(current.elems + [item])
      case At(k) =>
        if !Truthy(current.elems[k]) then Some(current.elems + [item])
        else if NoNullish(current.elems) then Some(BumpEach(current.elems, id))
        else None
  }

  /** `raw ? JSON.parse(raw) : []`; `None` when the text does not parse. */
  function Current(slot: Slot): Option<Value> {
    match slot
    case Missing => Some(Arr([]))
    case Corrupt => None
    case Stored(v) => Some(v)
  }

  /** The product's id is a real id, as every caller's is (catalogue ids default to `p_<idx>`). */
  predicate HasId(item: Value) {
    !IsNullish(Get(item, "id"))
  }

  predicate InCart(cart: seq<Value>, id: Value) {
    exists k :: 0 <= k < |cart| && SameId(cart[k], id)
  }

  /**
   * The merge succeeds exactly on an array without null elements; it then
   * bumps every line with the product's id when there is one and appends the
   * new line otherwise.
   */
  lemma AddedSpec(current: Value, item: Value)
    requires HasId(item)
    ensures Added(current, item).Some? <==> current.Arr? && NoNullish(current.elems)
    ensures Added(current, item).Some? && InCart(current.elems, Get(item, "id")) ==>
              Added(current, item).value == BumpEach(current.elems, Get(item, "id"))
    ensures Added(current, item).Some? && !InCart(current.elems, Get(item, "id")) ==>
              Added(current, item).value == current.elems + [item]
  {
    if current.Arr? {
      var id := Get(item, "id");
      var f := Find(current.elems, id, 0);
      if f.At? {
        assert Get(current.elems[f.k], "id") == id;
        assert current.elems[f.k].Obj?;
      }
    }
  }

  /** A bumped line keeps every other property and carries `(qty || 0) + 1`. */
  lemma BumpedSpec(e: Value)
    requires e.Obj?
    ensures forall key :: key != "qty" ==> Get(Bumped(e), key) == Get(e, key)
    ensures Get(e, "qty").Num? ==> Get(Bumped(e), "qty") == Num(Get(e, "qty").n + 1)
    ensures !Truthy(Get(e, "qty")) ==> Get(Bumped(e), "qty") == Num(1)
  {
  }

  /** How many lines carry the id. */
  function Matches(cart: seq<Value>, id: Value): nat
    decreases |cart|
  {
    if cart == [] then 0
    else Matches(cart[..|cart| - 1], id) + (if SameId(cart[|cart| - 1], id) then 1 else 0)
  }

  /** An id the cart page merges by: a truthy primitive other than NaN, so `===` is plain equality. */
  predicate PlainId(id: Value) {
    Truthy(id) && IsPrimitive(id) && !id.NaN?
  }

  lemma {:induction false} BumpEachQtySum(cart: seq<Value>, id: Value, other: Value)
    requires PlainId(id)
    requires forall k :: 0 <= k < |cart| && SameId(cart[k], id) ==> NumericQty(cart[k])
    ensures QtySum(BumpEach(cart, id), other) == QtySum(cart, other) + (if other == id then Matches(cart, id) else 0)
    decreases |cart|
  {
    if cart != [] {
      var n := |cart| - 1;
      var r := BumpEach(cart, id);
      assert r[..n] == BumpEach(cart[..n], id);
      BumpEachQtySum(cart[..n], id, other);
      BumpedLine(cart[n], id, other);
    }
  }

  /** What one line of `BumpEach` contributes to a quantity sum. */
  lemma BumpedLine(e: Value, id: Value, other: Value)
    requires PlainId(id)
    requires SameId(e, id) ==> NumericQty(e)
    ensures var b := if SameId(e, id) then Bumped(e) else e;
            QtySum([b], other) == QtySum([e], other) + (if other == id && SameId(e, id) then 1 else 0)
  {
    if SameId(e, id) {
      assert Get(e, "id") == id && e.Obj?;
      BumpedSpec(e);
      assert Get(Bumped(e), "id") == id;
      assert QtyOf(Bumped(e)) == QtyOf(e) + 1;
    }
  }

  /**
   * Seen from the cart page, which adds up the quantities of all stored lines
   * with an id: adding a product raises its quantity by the number of lines
   * that carry its id, or by one when it was not in the cart, and leaves every
   * other id's quantity as it was.
   */
  lemma AddedQty(cart: seq<Value>, id: Value, name: Value, price: Value, image: Value)
    requires PlainId(id) && NoNullish(cart)
    requires forall k :: 0 <= k < |cart| && SameId(cart[k], id) ==> NumericQty(cart[k])
    ensures var r := Added(Arr(cart), NewItem(id, name, price, image)).value;
            && QtySum(r, id) == QtySum(cart, id) + (if Matches(cart, id) == 0 then 1 else Matches(cart, id))
            && forall other :: other != id ==> QtySum(r, other) == QtySum(cart, other)
  {
    var item := NewItem(id, name, price, image);
    assert Get(item, "id") == id;
    AddedSpec(Arr(cart), item);
    var r := Added(Arr(cart), item).value;
    if InCart(cart, id) {
      assert r == BumpEach(cart, id);
      BumpedQtySums(cart, id);
      MatchesPositive(cart, id);
    } else {
      assert r == cart + [item];
      MatchesZero(cart, id);
      AppendedQtySums(cart, id, name, price, image);
    }
  }

  lemma BumpedQtySums(cart: seq<Value>, id: Value)
    requires PlainId(id)
    requires forall k :: 0 <= k < |cart| && SameId(cart[k], id) ==> NumericQty(cart[k])
    ensures forall other :: QtySum(BumpEach(cart, id), other) == QtySum(cart, other) + (if other == id then Matches(cart, id) else 0)
  {
    forall other
      ensures QtySum(BumpEach(cart, id), other) == QtySum(cart, other) + (if other == id then Matches(cart, id) else 0)
    {
      BumpEachQtySum(cart, id, other);
    }
  }

  lemma AppendedQtySums(cart: seq<Value>, id: Value, name: Value, price: Value, image: Value)
    requires PlainId(id)
    ensures forall other :: QtySum(cart + [NewItem(id, name, price, image)], other) == QtySum(cart, other) + (if other == id then 1 else 0)
  {
    var item := NewItem(id, name, price, image);
    assert (cart + [item])[..|cart|] == cart;
    assert Get(item, "id") == id && Get(item, "qty") == Num(1);
  }

  lemma {:induction false} MatchesPositive(cart: seq<Value>, id: Value)
    requires InCart(cart, id)
    ensures Matches(cart, id) > 0
    decreases |cart|
  {
    var n := |cart| - 1;
    if !SameId(cart[n], id) {
      var k :| 0 <= k < |cart| && SameId(cart[k], id);
      assert cart[..n][k] == cart[k];
      MatchesPositive(cart[..n], id);
    }
  }

  lemma {:induction false} MatchesZero(cart: seq<Value>, id: Value)
    requires !InCart(cart, id)
    ensures Matches(cart, id) == 0
    decreases |cart|
  {
    if cart != [] {
      var n := |cart| - 1;
      assert !InCart(cart[..n], id) by {
        forall k | 0 <= k < n
          ensures !SameId(cart[..n][k], id)
        {
          assert cart[..n][k] == cart[k];
        }
      }
      MatchesZero(cart[..n], id);
    }
  }
}
