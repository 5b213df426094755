/**
 * The shopper's cart as src/Pages/Cart.jsx keeps it: a list of lines
 * `{ id, name, price, image, qty }`, the merge of duplicate ids when the
 * page loads, `updateQty`, `removeItem`, and the subtotal and total.
 */
module CartLines {
  import opened Options
  import opened Js

  /** The storage key every page keeps the cart under. */
  const CartKey := "cart"

  /** A cart line. The price is the number the load step made of it; `qty` can be any value, since `+` may turn it into text. */
  datatype Line = Line(id: Value, name: Value, price: int, image: Value, qty: Value)

  /** The primitives a `Map` compares by value; parsed objects and arrays are distinct references. */
  predicate IsPrimitive(v: Value) {
    !v.Arr? && !v.Obj?
  }

  /** The first line at or after `from` whose id is `id` (`===`), which is where the load step's `Map` finds it. */
  function IndexOf(lines: seq<Line>, id: Value, from: nat): (r: Option<nat>)
    requires from <= |lines|
    ensures r.Some? ==> from <= r.value < |lines| && StrictEq(lines[r.value].id, id)
    ensures r.Some? ==> forall j :: from <= j < r.value ==> !StrictEq(lines[j].id, id)
    ensures r.None? ==> forall j :: from <= j < |lines| ==> !StrictEq(lines[j].id, id)
    decreases |lines| - from
  {
    if from == |lines| then None
    else if StrictEq(lines[from].id, id) then Some(from)
    else IndexOf(lines, id, from + 1)
  }

  /** The stored cart as the load step reads it: anything but a parsed array leaves nothing to merge. */
  function StoredItems(stored: Slot): seq<Value> {
    if stored.Stored? && stored.value.Arr? then stored.value.elems else []
  }

  /** Items without a truthy id are skipped. */
  predicate Kept(item: Value) {
    Truthy(item) && Truthy(Get(item, "id"))
  }

  /** The line the first item with an id starts: name, price, image and qty coerced as the page does. */
  function NewLine(item: Value): Line {
    Line(Get(item, "id"),
         Or(Get(item, "name"), Or(Get(item, "title"), Str(""))),
         NumberOr(Get(item, "price"), 0),
         Or(Get(item, "image"), Or(Get(item, "img"), Str(""))),
         Num(NumberOr(Get(item, "qty"), 0)))
  }

  /** One step of the load loop: a later item with a known id adds its qty to the first line with that id. */
  function AddItem(lines: seq<Line>, item: Value): seq<Line> {
    if !Kept(item) then lines
    else match IndexOf(lines, Get(item, "id"), 0)
      case Some(k) => lines[k := lines[k].(qty := Plus(Or(lines[k].qty, Num(0)), Or(Get(item, "qty"), Num(0))))]
      case None => lines + [NewLine(item)]
  }

  /** The lines the load step ends with, in order of first occurrence. */
  function Merged(items: seq<Value>): seq<Line>
    decreases |items|
  {
    if items == [] then [] else AddItem(Merged(items[..|items| - 1]), items[|items| - 1])
  }

  /** No two lines share an id. */
  predicate UniqueIds(lines: seq<Line>) {
    forall a, b :: 0 <= a < b < |lines| ==> !StrictEq(lines[a].id, lines[b].id)
  }

  /** What the load loop's `Map` holds: each primitive id of the lines, mapped to the position of its line. */
  predicate Indexed(lines: seq<Line>, index: map<Value, nat>) {
    UniqueIds(lines)
    && (forall v :: v in index ==> index[v] < |lines| && StrictEq(lines[index[v]].id, v))
    && (forall k :: 0 <= k < |lines| && IsPrimitive(lines[k].id) ==> lines[k].id in index)
  }

  /**
   * The load step: a `Map` from id to line, filled in order. The second
   * result says whether the page writes the merged cart back, which it
   * does when merging made the list shorter than the stored array.
   */
  method LoadCart(stored: Slot) returns (lines: seq<Line>, rewrite: bool)
    ensures lines == Merged(StoredItems(stored))
    ensures rewrite <==> stored.Stored? && stored.value.Arr? && |stored.value.elems| != |lines|
  {
    var items := StoredItems(stored);
    var index: map<Value, nat> := map[];
    lines := [];
    var i := 0;
    while i < |items|
      invariant 0 <= i <= |items|
      invariant lines == Merged(items[..i])
      invariant Indexed(lines, index)
    {
      var item := items[i];
      MergedStep(items, i);
      if Kept(item) {
        var id := Get(item, "id");
        if IsPrimitive(id) && id in index {
          var k := index[id];
          IndexOfStrict(lines, id, k);
          var q := Plus(Or(lines[k].qty, Num(0)), Or(Get(item, "qty"), Num(0)));
          IndexedUpdate(lines, index, k, q);
          lines := lines[k := lines[k].(qty := q)];
        } else {
          NotIndexed(lines, id, index);
          assert NewLine(item).id == id;
          IndexedAppend(lines, index, NewLine(item));
          if IsPrimitive(id) {
            index := index[id := |lines|];
          }
          lines := lines + [NewLine(item)];
        }
      }
      i := i + 1;
    }
    assert items[..i] == items;
    rewrite := stored.Stored? && stored.value.Arr? && |stored.value.elems| != |lines|;
  }

  lemma MergedStep(items: seq<Value>, i: nat)
    requires i < |items|
    ensures Merged(items[..i + 1]) == AddItem(Merged(items[..i]), items[i])
  {
    assert items[..i + 1][..i] == items[..i];
  }

  /** With unique ids, the line at `k` is the first with its id. */
  lemma IndexOfStrict(lines: seq<Line>, id: Value, k: nat)
    requires k < |lines| && StrictEq(lines[k].id, id)
    requires UniqueIds(lines)
    ensures IndexOf(lines, id, 0) == Some(k)
  {
  }

  lemma NotIndexed(lines: seq<Line>, id: Value, index: map<Value, nat>)
    requires Indexed(lines, index)
    requires !(IsPrimitive(id) && id in index)
    ensures IndexOf(lines, id, 0) == None
  {
  }

  lemma IndexedUpdate(lines: seq<Line>, index: map<Value, nat>, k: nat, q: Value)
    requires Indexed(lines, index) && k < |lines|
    ensures Indexed(lines[k := lines[k].(qty := q)], index)
  {
  }

  lemma IndexedAppend(lines: seq<Line>, index: map<Value, nat>, line: Line)
    requires Indexed(lines, index) && IndexOf(lines, line.id, 0) == None && Truthy(line.id)
    ensures Indexed(lines + [line], if IsPrimitive(line.id) then index[line.id := |lines|] else index)
  {
    var all := lines + [line];
    assert forall a :: 0 <= a < |lines| ==> all[a] == lines[a];
    assert UniqueIds(all);
  }

  /** The merged cart has one line per id, and every id is truthy. */
  lemma {:induction false} MergedUniqueIds(items: seq<Value>)
    ensures UniqueIds(Merged(items))
    ensures forall k :: 0 <= k < |Merged(items)| ==> Truthy(Merged(items)[k].id)
    decreases |items|
  {
    if items != [] {
      var prev := Merged(items[..|items| - 1]);
      MergedUniqueIds(items[..|items| - 1]);
      var item := items[|items| - 1];
      if Kept(item) && IndexOf(prev, Get(item, "id"), 0).None? {
        var all := prev + [NewLine(item)];
        assert forall a :: 0 <= a < |prev| ==> all[a] == prev[a];
      }
    }
  }

  /**
   * Whether item `i` is the kept item whose id `id` started a line: the
   * first with that id, or for an object id (a reference of its own) that item.
   */
  predicate FirstWithId(items: seq<Value>, i: nat, id: Value)
    requires i < |items|
  {
    Kept(items[i]) && Get(items[i], "id") == id
    && (IsPrimitive(id) ==> forall j :: 0 <= j < i ==> !(Kept(items[j]) && Get(items[j], "id") == id))
  }

  /**
   * Every merged line was started by the first kept item with its id: its
   * name, price and image are that item's, only the qty can differ.
   */
  lemma {:induction false} MergedFromFirst(items: seq<Value>)
    ensures |Merged(items)| <= |items|
    ensures forall k :: 0 <= k < |Merged(items)| ==>
              exists i :: 0 <= i < |items| && FirstWithId(items, i, Merged(items)[k].id)
                          && Merged(items)[k] == NewLine(items[i]).(qty := Merged(items)[k].qty)
    decreases |items|
  {
    if items != [] {
      var n := |items| - 1;
      var front := items[..n];
      var prev := Merged(front);
      MergedFromFirst(front);
      MergedUniqueIds(front);
      var item := items[n];
      var cur := Merged(items);
      assert forall i :: 0 <= i < n ==> items[i] == front[i];
      forall k | 0 <= k < |cur|
        ensures exists i :: 0 <= i < |items| && FirstWithId(items, i, cur[k].id)
                            && cur[k] == NewLine(items[i]).(qty := cur[k].qty)
      {
        if k < |prev| {
          var i :| 0 <= i < |front| && FirstWithId(front, i, prev[k].id)
                   && prev[k] == NewLine(front[i]).(qty := prev[k].qty);
          assert cur[k].id == prev[k].id;
          FirstWithIdExtends(items, n, i, prev[k].id);
        } else {
          var id := Get(item, "id");
          assert Kept(item) && IndexOf(prev, id, 0).None?;
          assert cur == prev + [NewLine(item)] && cur[k].id == id;
          FirstIsNew(items);
        }
      }
    }
  }

  lemma FirstWithIdExtends(items: seq<Value>, n: nat, i: nat, id: Value)
    requires i < n <= |items| && FirstWithId(items[..n], i, id)
    ensures FirstWithId(items, i, id)
  {
    assert forall j :: 0 <= j <= i ==> items[..n][j] == items[j];
  }

  /** The last item starts a new line exactly when it is the first kept item with its id. */
  lemma FirstIsNew(items: seq<Value>)
    requires items != [] && Kept(items[|items| - 1])
    requires IndexOf(Merged(items[..|items| - 1]), Get(items[|items| - 1], "id"), 0).None?
    ensures FirstWithId(items, |items| - 1, Get(items[|items| - 1], "id"))
  {
    var n := |items| - 1;
    var id := Get(items[n], "id");
    if IsPrimitive(id) {
      FirstKeptMissing(items[..n], Merged(items[..n]), id);
      assert forall j :: 0 <= j < n ==> items[..n][j] == items[j];
    }
  }

  /** An id the merged cart has no line for was on no kept item. */
  lemma FirstKeptMissing(front: seq<Value>, prev: seq<Line>, id: Value)
    requires prev == Merged(front)
    requires forall k :: 0 <= k < |prev| ==> !StrictEq(prev[k].id, id)
    requires IsPrimitive(id)
    ensures forall j :: 0 <= j < |front| ==> !(Kept(front[j]) && Get(front[j], "id") == id)
  {
    forall j | 0 <= j < |front| && Kept(front[j]) && Get(front[j], "id") == id
      ensures false
    {
      KeptIdHasLine(front, j);
      MergedUniqueIds(front);
    }
  }

  /** Every kept item's id has a line in the merged cart (for an object id, a line with that same object). */
  lemma {:induction false} KeptIdHasLine(items: seq<Value>, j: nat)
    requires j < |items| && Kept(items[j])
    ensures exists k :: 0 <= k < |Merged(items)| && Merged(items)[k].id == Get(items[j], "id")
    decreases |items|
  {
    var n := |items| - 1;
    var front := items[..n];
    var prev := Merged(front);
    var item := items[n];
    if j < n {
      KeptIdHasLine(front, j);
      var k :| 0 <= k < |prev| && prev[k].id == Get(front[j], "id");
      assert Merged(items)[k].id == prev[k].id;
    } else {
      match IndexOf(prev, Get(item, "id"), 0)
      case Some(k) =>
        assert Merged(items)[k].id == prev[k].id;
      case None =>
        assert Merged(items)[|prev|].id == Get(item, "id");
    }
  }

  /** `item.qty || 0` is a number, so merging adds it up rather than concatenating text. */
  predicate NumericQty(item: Value) {
    Or(Get(item, "qty"), Num(0)).Num?
  }

  /** The quantity an item contributes to its line. */
  function QtyOf(item: Value): int {
    var q := Or(Get(item, "qty"), Num(0));
    if q.Num? then q.n else 0
  }

  /** The total quantity of the kept items with id `id`. */
  function QtySum(items: seq<Value>, id: Value): int
    decreases |items|
  {
    if items == [] then 0
    else
      var last := items[|items| - 1];
      QtySum(items[..|items| - 1], id) + (if Kept(last) && Get(last, "id") == id then QtyOf(last) else 0)
  }

  /** A first occurrence's `Number(qty) || 0` is the same number as a later one's `qty || 0`. */
  lemma NumberOrQty(item: Value)
    requires NumericQty(item)
    ensures NumberOr(Get(item, "qty"), 0) == QtyOf(item)
  {
  }

  /** No kept item carries an id the merged cart has no line for, so those ids sum to nothing. */
  lemma {:induction false} QtySumAbsent(items: seq<Value>, id: Value)
    requires forall j :: 0 <= j < |items| ==> !(Kept(items[j]) && Get(items[j], "id") == id)
    ensures QtySum(items, id) == 0
    decreases |items|
  {
    if items != [] {
      QtySumAbsent(items[..|items| - 1], id);
    }
  }

  /**
   * With primitive ids and numeric quantities, each merged line carries the
   * sum of the quantities of all the stored items with its id.
   */
  lemma {:induction false} MergedQty(items: seq<Value>)
    requires forall i :: 0 <= i < |items| && Kept(items[i]) ==> NumericQty(items[i]) && IsPrimitive(Get(items[i], "id"))
    ensures forall k :: 0 <= k < |Merged(items)| ==> Merged(items)[k].qty == Num(QtySum(items, Merged(items)[k].id))
    decreases |items|
  {
    if items != [] {
      var n := |items| - 1;
      var front := items[..n];
      var prev := Merged(front);
      var item := items[n];
      var cur := Merged(items);
      MergedQty(front);
      MergedUniqueIds(front);
      if Kept(item) {
        var id := Get(item, "id");
        match IndexOf(prev, id, 0)
        case Some(k) =>
          forall k' | 0 <= k' < |cur|
            ensures cur[k'].qty == Num(QtySum(items, cur[k'].id))
          {
            if k' != k {
              assert cur[k'] == prev[k'];
              assert !StrictEq(prev[k'].id, prev[k].id);
            }
          }
        case None =>
          FirstKeptMissing(front, prev, id);
          QtySumAbsent(front, id);
          NumberOrQty(item);
          forall k' | 0 <= k' < |cur|
            ensures cur[k'].qty == Num(QtySum(items, cur[k'].id))
          {
            if k' < |prev| {
              assert cur[k'] == prev[k'];
              assert prev[k'].id != id;
            }
          }
      }
    }
  }

  /** `Number(item.qty || 0) + delta` */
  function QtyAfter(line: Line, delta: int): (q: Value)
    ensures IsNumber(q)
  {
    var current := ToNumber(Or(line.qty, Num(0)));
    if current.Num? then Num(current.n + delta) else NaN
  }

  /** `newQty <= 0`: the line leaves the cart (a NaN quantity never does). */
  predicate Drops(q: Value) {
    q.Num? && q.n <= 0
  }

  /** The list `updateQty(id, delta)`'s `reduce` builds, one line at a time. */
  function QtyUpdated(lines: seq<Line>, id: Value, delta: int): seq<Line>
    decreases |lines|
  {
    if lines == [] then []
    else
      var acc := QtyUpdated(lines[..|lines| - 1], id, delta);
      var line := lines[|lines| - 1];
      if !StrictEq(line.id, id) then acc + [line]
      else
        var q := QtyAfter(line, delta);
        if Drops(q) then acc else acc + [line.(qty := q)]
  }

  /** `updateQty(id, delta)`: the `reduce` that pushes each line, changed or dropped when it has the id. */
  method UpdateQty(cart: seq<Line>, id: Value, delta: int) returns (updated: seq<Line>)
    ensures updated == QtyUpdated(cart, id, delta)
  {
    updated := [];
    var i := 0;
    while i < |cart|
      invariant 0 <= i <= |cart|
      invariant updated == QtyUpdated(cart[..i], id, delta)
    {
      var item := cart[i];
      assert cart[..i + 1][..i] == cart[..i];
      if !StrictEq(item.id, id) {
        updated := updated + [item];
      } else {
        var newQty := QtyAfter(item, delta);
        if !Drops(newQty) {
          updated := updated + [item.(qty := newQty)];
        }
      }
      i := i + 1;
    }
    assert cart[..i] == cart;
  }

  /** `cart.filter((item) => item.id !== id)` */
  function Removed(lines: seq<Line>, id: Value): seq<Line>
    decreases |lines|
  {
    if lines == [] then []
    else
      var rest := Removed(lines[..|lines| - 1], id);
      if StrictEq(lines[|lines| - 1].id, id) then rest else rest + [lines[|lines| - 1]]
  }

  /** An id no line has leaves both operations without effect. */
  lemma {:induction false} AbsentIdUnchanged(lines: seq<Line>, id: Value, delta: int)
    requires forall k :: 0 <= k < |lines| ==> !StrictEq(lines[k].id, id)
    ensures QtyUpdated(lines, id, delta) == lines
    ensures Removed(lines, id) == lines
    decreases |lines|
  {
    if lines != [] {
      AbsentIdUnchanged(lines[..|lines| - 1], id, delta);
      assert lines[..|lines| - 1] + [lines[|lines| - 1]] == lines;
    }
  }

  /** Splitting the list splits both operations. */
  lemma {:induction false} SplitOperations(a: seq<Line>, b: seq<Line>, id: Value, delta: int)
    ensures QtyUpdated(a + b, id, delta) == QtyUpdated(a, id, delta) + QtyUpdated(b, id, delta)
    ensures Removed(a + b, id) == Removed(a, id) + Removed(b, id)
    decreases |b|
  {
    if b == [] {
      assert a + b == a;
    } else {
      var b' := b[..|b| - 1];
      assert (a + b)[..|a + b| - 1] == a + b';
      SplitOperations(a, b', id, delta);
    }
  }

  /** Both operations, on the line at `k` alone: the list around it is kept as it is. */
  lemma AroundLine(lines: seq<Line>, k: nat, delta: int)
    requires UniqueIds(lines) && k < |lines|
    ensures QtyUpdated(lines, lines[k].id, delta)
            == lines[..k] + QtyUpdated([lines[k]], lines[k].id, delta) + lines[k + 1..]
    ensures Removed(lines, lines[k].id) == lines[..k] + Removed([lines[k]], lines[k].id) + lines[k + 1..]
  {
    var id := lines[k].id;
    var before, after := lines[..k], lines[k + 1..];
    assert lines == before + [lines[k]] + after;
    assert forall j :: 0 <= j < |before| ==> before[j] == lines[j];
    assert forall j :: 0 <= j < |after| ==> after[j] == lines[k + 1 + j];
    AbsentIdUnchanged(before, id, delta);
    AbsentIdUnchanged(after, id, delta);
    SplitOperations(before + [lines[k]], after, id, delta);
    SplitOperations(before, [lines[k]], id, delta);
  }

  /**
   * `updateQty` on the line at `k`, in a cart whose ids are unique: that line
   * alone gets the new quantity, or leaves the cart once it falls to 0 or
   * below; every other line stays, in order.
   */
  lemma QtyUpdatedAt(lines: seq<Line>, k: nat, delta: int)
    requires UniqueIds(lines) && k < |lines|
    requires IsPrimitive(lines[k].id) && !lines[k].id.NaN?
    ensures var q := QtyAfter(lines[k], delta);
            QtyUpdated(lines, lines[k].id, delta)
            == if Drops(q) then lines[..k] + lines[k + 1..] else lines[k := lines[k].(qty := q)]
  {
    AroundLine(lines, k, delta);
    assert [lines[k]][..0] == [];
    var q := QtyAfter(lines[k], delta);
    if !Drops(q) {
      assert lines[k := lines[k].(qty := q)] == lines[..k] + [lines[k].(qty := q)] + lines[k + 1..];
    }
  }

  /** `removeItem` on the id of the line at `k`, in a cart whose ids are unique, removes that line and keeps the rest in order. */
  lemma RemovedAt(lines: seq<Line>, k: nat)
    requires UniqueIds(lines) && k < |lines|
    requires IsPrimitive(lines[k].id) && !lines[k].id.NaN?
    ensures Removed(lines, lines[k].id) == lines[..k] + lines[k + 1..]
  {
    var id := lines[k].id;
    assert Removed(lines, id) == lines[..k] + Removed([lines[k]], id) + lines[k + 1..] by {
      AroundLine(lines, k, 0);
    }
    assert Removed([lines[k]], id) == [] by {
      RemovedSingle(lines[k]);
    }
    assert lines[..k] + [] + lines[k + 1..] == lines[..k] + lines[k + 1..];
  }

  lemma RemovedSingle(x: Line)
    requires IsPrimitive(x.id) && !x.id.NaN?
    ensures Removed([x], x.id) == []
  {
    assert [x][..0] == [];
  }

  /** Whatever the ids, `removeItem(id)` leaves no line with that id and keeps every other line, in order. */
  lemma {:induction false} RemovedExactly(lines: seq<Line>, id: Value)
    ensures forall k :: 0 <= k < |Removed(lines, id)| ==> !StrictEq(Removed(lines, id)[k].id, id)
    ensures |Removed(lines, id)| <= |lines|
    ensures !StrictEq(id, id) ==> Removed(lines, id) == lines
    decreases |lines|
  {
    if lines != [] {
      RemovedExactly(lines[..|lines| - 1], id);
      if !StrictEq(id, id) {
        assert !StrictEq(lines[|lines| - 1].id, id);
        assert lines[..|lines| - 1] + [lines[|lines| - 1]] == lines;
      }
    }
  }

  /** `Number(item.qty || 0)` */
  function QtyNumber(line: Line): (q: Value)
    ensures IsNumber(q)
  {
    ToNumber(Or(line.qty, Num(0)))
  }

  /** What a line adds to the subtotal: `Number(item.price || 0) * Number(item.qty || 0)`. */
  function LineAmount(line: Line): (a: Value)
    ensures IsNumber(a)
  {
    Times(Num(line.price), Or(line.qty, Num(0)))
  }

  /** The `subtotal` memo: the `reduce` that adds up the line amounts from 0; one NaN makes it NaN. */
  function Subtotal(lines: seq<Line>): (r: Value)
    ensures IsNumber(r)
    decreases |lines|
  {
    if lines == [] then Num(0)
    else
      var s, a := Subtotal(lines[..|lines| - 1]), LineAmount(lines[|lines| - 1]);
      if s.Num? && a.Num? then Num(s.n + a.n) else NaN
  }

  /** Every line's quantity reads as a number. */
  predicate Countable(lines: seq<Line>) {
    forall k :: 0 <= k < |lines| ==> QtyNumber(lines[k]).Num?
  }

  /** Σ price × qty over countable lines. */
  function SumOfProducts(lines: seq<Line>): int
    requires Countable(lines)
    decreases |lines|
  {
    if lines == [] then 0
    else
      var last := lines[|lines| - 1];
      SumOfProducts(lines[..|lines| - 1]) + last.price * QtyNumber(last).n
  }

  /** The subtotal is a number exactly when every quantity is, and then it is Σ price × qty. */
  lemma {:induction false} SubtotalIsSum(lines: seq<Line>)
    ensures Subtotal(lines).Num? <==> Countable(lines)
    ensures Countable(lines) ==> Subtotal(lines) == Num(SumOfProducts(lines))
    decreases |lines|
  {
    if lines != [] {
      var front := lines[..|lines| - 1];
      SubtotalIsSum(front);
      assert forall k :: 0 <= k < |front| ==> front[k] == lines[k];
      if !Countable(lines) && Countable(front) {
        assert !QtyNumber(lines[|lines| - 1]).Num?;
      }
    }
  }

  /** `Math.max(0, subtotal - (appliedCoupon?.discount || 0))` */
  function Total(lines: seq<Line>, applied: Value): (r: Value)
    ensures IsNumber(r) && (r.Num? ==> r.n >= 0)
  {
    MaxZero(Minus(Subtotal(lines), Or(Get(applied, "discount"), Num(0))))
  }

  /** With numeric quantities and a numeric discount `d`, the total is Σ price × qty − d, or 0 if that is negative. */
  lemma TotalClamped(lines: seq<Line>, applied: Value, d: int)
    requires Countable(lines) && ToNumber(Or(Get(applied, "discount"), Num(0))) == Num(d)
    ensures Total(lines, applied) == Num(if SumOfProducts(lines) - d < 0 then 0 else SumOfProducts(lines) - d)
  {
    SubtotalIsSum(lines);
  }

  lemma {:induction false} SumOfProductsSplit(a: seq<Line>, b: seq<Line>)
    requires Countable(a) && Countable(b)
    ensures Countable(a + b)
    ensures SumOfProducts(a + b) == SumOfProducts(a) + SumOfProducts(b)
    decreases |b|
  {
    if b == [] {
      assert a + b == a;
    } else {
      var b' := b[..|b| - 1];
      assert (a + b)[..|a + b| - 1] == a + b';
      SumOfProductsSplit(a, b');
    }
  }

  /** The sum over a list with one line singled out. */
  lemma SumOfProductsAround(before: seq<Line>, x: Line, after: seq<Line>)
    requires Countable(before) && QtyNumber(x).Num? && Countable(after)
    ensures Countable(before + [x] + after)
    ensures SumOfProducts(before + [x] + after)
            == SumOfProducts(before) + x.price * QtyNumber(x).n + SumOfProducts(after)
  {
    assert [x][..0] == [];
    SumOfProductsSplit(before, [x]);
    SumOfProductsSplit(before + [x], after);
  }

  /** Removing a line takes exactly its price × qty off the subtotal. */
  lemma SubtotalAfterRemove(lines: seq<Line>, k: nat)
    requires UniqueIds(lines) && k < |lines| && Countable(lines)
    requires IsPrimitive(lines[k].id) && !lines[k].id.NaN?
    ensures Countable(Removed(lines, lines[k].id))
    ensures SumOfProducts(Removed(lines, lines[k].id)) == SumOfProducts(lines) - lines[k].price * QtyNumber(lines[k]).n
  {
    var before, x, after := lines[..k], lines[k], lines[k + 1..];
    assert Removed(lines, x.id) == before + after by {
      RemovedAt(lines, k);
    }
    CountableAround(lines, k);
    SumOfProductsAround(before, x, after);
    SumOfProductsSplit(before, after);
  }

  lemma CountableAround(lines: seq<Line>, k: nat)
    requires k < |lines| && Countable(lines)
    ensures lines == lines[..k] + [lines[k]] + lines[k + 1..]
    ensures Countable(lines[..k]) && Countable(lines[k + 1..]) && QtyNumber(lines[k]).Num?
  {
    var before, after := lines[..k], lines[k + 1..];
    assert forall j :: 0 <= j < |before| ==> before[j] == lines[j];
    assert forall j :: 0 <= j < |after| ==> after[j] == lines[k + 1 + j];
  }

  /** Raising or lowering a line's quantity by `delta` moves the subtotal by price × delta, as long as the line stays. */
  lemma SubtotalAfterUpdate(lines: seq<Line>, k: nat, delta: int)
    requires UniqueIds(lines) && k < |lines| && Countable(lines)
    requires IsPrimitive(lines[k].id) && !lines[k].id.NaN?
    requires !Drops(QtyAfter(lines[k], delta))
    ensures Countable(QtyUpdated(lines, lines[k].id, delta))
    ensures SumOfProducts(QtyUpdated(lines, lines[k].id, delta)) == SumOfProducts(lines) + lines[k].price * delta
  {
    UpdatedAround(lines, k, delta);
    CountableAround(lines, k);
    SumAfterBump(lines[..k], lines[k], lines[k + 1..], delta);
  }

  lemma UpdatedAround(lines: seq<Line>, k: nat, delta: int)
    requires UniqueIds(lines) && k < |lines|
    requires IsPrimitive(lines[k].id) && !lines[k].id.NaN?
    requires !Drops(QtyAfter(lines[k], delta))
    ensures QtyUpdated(lines, lines[k].id, delta) == lines[..k] + [lines[k].(qty := QtyAfter(lines[k], delta))] + lines[k + 1..]
  {
    var y := lines[k].(qty := QtyAfter(lines[k], delta));
    QtyUpdatedAt(lines, k, delta);
    assert lines[k := y] == lines[..k] + [y] + lines[k + 1..];
  }

  /** Raising one line's quantity by `delta` raises the sum by its price times `delta`. */
  lemma SumAfterBump(before: seq<Line>, x: Line, after: seq<Line>, delta: int)
    requires Countable(before) && QtyNumber(x).Num? && Countable(after)
    ensures Countable(before + [x.(qty := QtyAfter(x, delta))] + after)
    ensures SumOfProducts(before + [x.(qty := QtyAfter(x, delta))] + after)
            == SumOfProducts(before + [x] + after) + x.price * delta
  {
    var y := x.(qty := QtyAfter(x, delta));
    BumpedQty(x, delta);
    var sb, sa, p, q := SumOfProducts(before), SumOfProducts(after), x.price, QtyNumber(x).n;
    SumOfProductsAround(before, x, after);
    SumOfProductsAround(before, y, after);
    Distribute(p, q, delta);
  }

  lemma BumpedQty(x: Line, delta: int)
    requires QtyNumber(x).Num?
    ensures QtyNumber(x.(qty := QtyAfter(x, delta))) == Num(QtyNumber(x).n + delta)
  {
  }

  lemma Distribute(p: int, q: int, d: int)
    ensures p * (q + d) == p * q + p * d
  {
  }
}
