/**
 * The cart page of src/Pages/Cart.jsx as a component with state: the cart
 * lines, the coupon options, the selected and the applied coupon, and the
 * storage keys it reads and writes. Event handlers are methods; the two
 * effects that reset the applied coupon are functions the methods apply
 * whenever the state they depend on changes.
 */
module Cart {
  import opened Options
  import opened Js
  import opened CartLines
  import opened CartCoupons

  const AppliedKey := "cart_applied_coupon"
  const AdminKey := "admin_coupons_v1"

  // ------------------------------------------------------ persisting lines

  /** A line as `persistCart` writes it. */
  function LineValue(l: Line): Value {
    Obj(map["id" := l.id, "name" := l.name, "price" := Num(l.price), "image" := l.image, "qty" := l.qty])
  }

  function LineValues(lines: seq<Line>): seq<Value> {
    seq(|lines|, i requires 0 <= i < |lines| => LineValue(lines[i]))
  }

  /** A line the load step reproduces: a primitive truthy id, text fields that are set or empty, a numeric qty. */
  predicate Reloadable(l: Line) {
    && Truthy(l.id) && IsPrimitive(l.id)
    && (Truthy(l.name) || l.name == Str(""))
    && (Truthy(l.image) || l.image == Str(""))
    && l.qty.Num?
  }

  predicate AllReloadable(lines: seq<Line>) {
    UniqueIds(lines) && forall k :: 0 <= k < |lines| ==> Reloadable(lines[k])
  }

  /** A reloadable line whose id the lines before it lack is appended by the load step as it was. */
  lemma AddWritten(front: seq<Line>, l: Line)
    requires Reloadable(l)
    requires forall j :: 0 <= j < |front| ==> !StrictEq(front[j].id, l.id)
    ensures AddItem(front, LineValue(l)) == front + [l]
  {
    var item := LineValue(l);
    assert Kept(item) && Get(item, "id") == l.id;
    assert IndexOf(front, l.id, 0) == None;
    assert NewLine(item) == l;
  }

  lemma LineValuesPrefix(lines: seq<Line>, n: nat)
    requires n < |lines|
    ensures LineValues(lines)[..n] == LineValues(lines[..n])
    ensures LineValues(lines)[..n + 1] == LineValues(lines[..n + 1])
    ensures LineValues(lines)[n] == LineValue(lines[n])
  {
  }

  /** The page reads back the cart it wrote: loading the stored lines merges nothing and changes nothing. */
  lemma {:induction false} ReloadRoundTrip(lines: seq<Line>)
    requires AllReloadable(lines)
    ensures Merged(LineValues(lines)) == lines
    decreases |lines|
  {
    if lines != [] {
      var n := |lines| - 1;
      ReloadablePrefix(lines, n);
      ReloadRoundTrip(lines[..n]);
      ReloadStep(lines);
    }
  }

  lemma ReloadablePrefix(lines: seq<Line>, n: nat)
    requires AllReloadable(lines) && n <= |lines|
    ensures AllReloadable(lines[..n])
  {
    assert forall k :: 0 <= k < n ==> lines[..n][k] == lines[k];
  }

  /** The last line of a reloadable cart is appended as it was once the lines before it have been read back. */
  lemma ReloadStep(lines: seq<Line>)
    requires AllReloadable(lines) && lines != []
    requires Merged(LineValues(lines[..|lines| - 1])) == lines[..|lines| - 1]
    ensures Merged(LineValues(lines)) == lines
  {
    var n := |lines| - 1;
    var front := lines[..n];
    var v := LineValues(lines);
    LineValuesPrefix(lines, n);
    assert lines[..n + 1] == lines;
    MergedStep(v, n);
    assert forall j :: 0 <= j < |front| ==> !StrictEq(front[j].id, lines[n].id) by {
      assert forall j :: 0 <= j < n ==> front[j] == lines[j];
    }
    AddWritten(front, lines[n]);
    assert front + [lines[n]] == lines;
  }

  /** `updateQty` and `removeItem` keep a cart that reloads unchanged. */
  lemma {:induction false} OperationsKeepReloadable(lines: seq<Line>, id: Value, delta: int)
    requires AllReloadable(lines)
    ensures AllReloadable(QtyUpdated(lines, id, delta))
    ensures AllReloadable(Removed(lines, id))
    decreases |lines|
  {
    if lines != [] {
      var n := |lines| - 1;
      var front := lines[..n];
      assert AllReloadable(front) by {
        assert forall k :: 0 <= k < n ==> front[k] == lines[k];
      }
      OperationsKeepReloadable(front, id, delta);
      var u := QtyUpdated(front, id, delta);
      var r := Removed(front, id);
      UpdatedFromOriginals(front, id, delta);
      RemovedSubset(front, id);
      forall k | 0 <= k < |u|
        ensures !StrictEq(u[k].id, lines[n].id)
      {
        var j :| 0 <= j < n && u[k] == front[j].(qty := u[k].qty);
        assert front[j] == lines[j];
      }
      forall k | 0 <= k < |r|
        ensures !StrictEq(r[k].id, lines[n].id)
      {
        assert r[k] in front;
        var j :| 0 <= j < n && front[j] == r[k];
        assert front[j] == lines[j];
      }
    }
  }

  lemma {:induction false} RemovedSubset(lines: seq<Line>, id: Value)
    ensures forall x :: x in Removed(lines, id) ==> x in lines
    decreases |lines|
  {
    if lines != [] {
      RemovedSubset(lines[..|lines| - 1], id);
      assert forall x :: x in lines[..|lines| - 1] ==> x in lines;
    }
  }

  /** Every line `updateQty` keeps is an original line, perhaps with a new qty. */
  lemma {:induction false} UpdatedFromOriginals(lines: seq<Line>, id: Value, delta: int)
    ensures forall k :: 0 <= k < |QtyUpdated(lines, id, delta)| ==>
              exists j :: 0 <= j < |lines| && QtyUpdated(lines, id, delta)[k] == lines[j].(qty := QtyUpdated(lines, id, delta)[k].qty)
    decreases |lines|
  {
    if lines != [] {
      var n := |lines| - 1;
      var u := QtyUpdated(lines, id, delta);
      var acc := QtyUpdated(lines[..n], id, delta);
      UpdatedFromOriginals(lines[..n], id, delta);
      forall k | 0 <= k < |u|
        ensures exists j :: 0 <= j < |lines| && u[k] == lines[j].(qty := u[k].qty)
      {
        if k < |acc| {
          var j :| 0 <= j < n && acc[k] == lines[..n][j].(qty := acc[k].qty);
          assert u[k] == acc[k];
          assert lines[..n][j] == lines[j];
        } else {
          assert u == acc + [u[k]];
          assert u[k] == lines[n].(qty := u[k].qty);
        }
      }
      assert forall k :: 0 <= k < |u| ==> exists j :: 0 <= j < |lines| && u[k] == lines[j].(qty := u[k].qty);
    } else {
      assert QtyUpdated(lines, id, delta) == [];
    }
  }

  // ---------------------------------------------------------------- effects

  /** The page's state slots `cart`, `coupons`, `selectedCoupon` and `appliedCoupon`. */
  datatype View = View(cart: seq<Line>, coupons: seq<CouponOption>, selected: Value, applied: Value)

  /** The applied coupon names a code the list does not offer: the test of the effect at lines 252-268. */
  predicate Unlisted(coupons: seq<CouponOption>, applied: Value) {
    Truthy(applied) && !StrictEq(Get(applied, "code"), Str("NONE")) && FindOption(coupons, Get(applied, "code"), 0).None?
  }

  /** The effect that clears a coupon the list no longer offers. */
  function ClearIfUnlisted(v: View): View {
    if Unlisted(v.coupons, v.applied) then v.(applied := Cleared, selected := Str("NONE")) else v
  }

  /** The effect that clears the coupon of an empty cart. */
  function ClearIfEmpty(v: View): View {
    if v.cart == [] then v.(applied := Cleared, selected := Str("NONE")) else v
  }

  /**
   * The reconciliation resets the applied coupon and the selection exactly
   * in its two cases, leaves the cart and the list alone, and changes
   * nothing when run again on its own result.
   */
  lemma {:induction false} ReconcileSpec(v: View)
    ensures ClearIfUnlisted(v).cart == v.cart && ClearIfUnlisted(v).coupons == v.coupons
    ensures ClearIfEmpty(v).cart == v.cart && ClearIfEmpty(v).coupons == v.coupons
    ensures Unlisted(v.coupons, v.applied) <==> ClearIfUnlisted(v) != v && ClearIfUnlisted(v).applied == Cleared
    ensures Unlisted(v.coupons, v.applied) ==> ClearIfUnlisted(v).selected == Str("NONE")
    ensures v.cart == [] ==> ClearIfEmpty(v).applied == Cleared && ClearIfEmpty(v).selected == Str("NONE")
    ensures v.cart != [] ==> ClearIfEmpty(v) == v
    ensures !Unlisted(ClearIfUnlisted(v).coupons, ClearIfUnlisted(v).applied)
    ensures ClearIfUnlisted(ClearIfUnlisted(v)) == ClearIfUnlisted(v)
    ensures ClearIfEmpty(ClearIfEmpty(v)) == ClearIfEmpty(v)
    ensures var r := ClearIfEmpty(ClearIfUnlisted(v)); ClearIfEmpty(ClearIfUnlisted(r)) == r
  {
    NoneIsListed(v.coupons);
    if Unlisted(v.coupons, v.applied) {
      assert v.applied != Cleared;
    }
  }

  /** The cleared coupon `{ code: "NONE", discount: 0 }` is never taken for a removed one. */
  lemma NoneIsListed(coupons: seq<CouponOption>)
    ensures !Unlisted(coupons, Cleared)
  {
    assert Get(Cleared, "code") == Str("NONE");
  }

  // ------------------------------------------------------------------ mount

  /** What `useState` gives `appliedCoupon` before any effect (lines 74-81). */
  function InitialApplied(slot: Slot): Value {
    if slot.Stored? then slot.value else Cleared
  }

  /** A page's state together with the storage it leaves behind. */
  datatype Mounted = Mounted(view: View, store: map<string, Slot>)

  /**
   * The two loading effects on a fresh page: the merged cart (rewritten
   * when the merge shortened it), the admin key seeded, the coupons and the
   * applied coupon read back.
   */
  function Loads(store: map<string, Slot>, uid: nat -> string): Mounted {
    var stored := SlotOf(store, CartKey);
    var lines := Merged(StoredItems(stored));
    var s1 := if stored.Stored? && stored.value.Arr? && |stored.value.elems| != |lines|
              then store[CartKey := Stored(Arr(LineValues(lines)))] else store;
    var admin := SlotOf(store, AdminKey);
    var s2 := if admin.Stored? && admin.value.Arr? then s1 else s1[AdminKey := Stored(Arr(CartDefaults(uid)))];
    var loaded := LoadCoupons(SlotOf(s2, AdminKey), SlotOf(s2, AppliedKey));
    Mounted(View(lines, loaded.coupons, loaded.selected, loaded.applied), s2)
  }

  /**
   * Mounting as written. The reconciling effects also run after the first
   * render, with that render's state: the placeholder-only list and the
   * empty cart. Their updates are queued after those of the loading
   * effects, so they win, and the empty-cart test always clears.
   */
  function MountAsWritten(store: map<string, Slot>, uid: nat -> string): Mounted {
    var loads := Loads(store, uid);
    var first := View([], [Sentinel], Str("NONE"), InitialApplied(SlotOf(store, AppliedKey)));
    var stale := ClearIfEmpty(ClearIfUnlisted(first));
    var committed := loads.view.(applied := stale.applied, selected := stale.selected);
    var after := ClearIfEmpty(ClearIfUnlisted(committed));
    Mounted(after, loads.store[AppliedKey := Stored(Cleared)])
  }

  /** As written, a fresh page never keeps the coupon applied on an earlier visit, and overwrites the stored one. */
  lemma MountForgetsCoupon(store: map<string, Slot>, uid: nat -> string)
    ensures MountAsWritten(store, uid).view.applied == Cleared
    ensures MountAsWritten(store, uid).view.selected == Str("NONE")
    ensures SlotOf(MountAsWritten(store, uid).store, AppliedKey) == Stored(Cleared)
    ensures MountAsWritten(store, uid).view.cart == Merged(StoredItems(SlotOf(store, CartKey)))
    ensures MountAsWritten(store, uid) == Mounted(Loads(store, uid).view.(applied := Cleared, selected := Str("NONE")),
                                                  Loads(store, uid).store[AppliedKey := Stored(Cleared)])
  {
    var loads := Loads(store, uid);
    var first := View([], [Sentinel], Str("NONE"), InitialApplied(SlotOf(store, AppliedKey)));
    var committed := loads.view.(applied := Cleared, selected := Str("NONE"));
    NoneIsListed(committed.coupons);
  }

  /** Mounting as intended: the reconciling effects judge the loaded cart and list. */
  function MountCorrected(store: map<string, Slot>, uid: nat -> string): Mounted {
    var loads := Loads(store, uid);
    var v := loads.view;
    var clears := Unlisted(v.coupons, v.applied) || v.cart == [];
    Mounted(ClearIfEmpty(ClearIfUnlisted(v)), if clears then loads.store[AppliedKey := Stored(Cleared)] else loads.store)
  }

  /**
   * Mounted as intended, the page keeps a stored coupon the list still
   * offers while the cart has lines, and clears it in the two cases only.
   */
  lemma MountKeepsCoupon(store: map<string, Slot>, uid: nat -> string)
    ensures var loads := Loads(store, uid);
      && MountCorrected(store, uid).view.cart == loads.view.cart
      && MountCorrected(store, uid).view.coupons == loads.view.coupons
      && !Unlisted(MountCorrected(store, uid).view.coupons, MountCorrected(store, uid).view.applied)
      && (loads.view.cart != [] && !Unlisted(loads.view.coupons, loads.view.applied) ==>
            MountCorrected(store, uid) == loads)
      && (loads.view.cart == [] || Unlisted(loads.view.coupons, loads.view.applied) ==>
            MountCorrected(store, uid).view.applied == Cleared
            && SlotOf(MountCorrected(store, uid).store, AppliedKey) == Stored(Cleared))
  {
    ReconcileSpec(Loads(store, uid).view);
    NoneIsListed(Loads(store, uid).view.coupons);
  }

  // ------------------------------------------------------------- the page

  class CartPage {
    var cart: seq<Line>
    var coupons: seq<CouponOption>
    var selected: Value
    var applied: Value
    /** The storage keys as this page last read or wrote them. */
    var store: map<string, Slot>

    function State(): View
      reads this
    {
      View(cart, coupons, selected, applied)
    }

    /** The applied coupon is one the list offers, or none: what the effect at lines 252-268 maintains. */
    predicate Valid()
      reads this
    {
      !Unlisted(coupons, applied)
    }

    /**
     * Mounting the page as written: the loading effects fill the cart and
     * the list, and the reconciling effects, judging the first render's
     * empty cart, clear the applied coupon and its stored copy.
     * `MountCorrected` is what the page was meant to do.
     */
    constructor (initial: map<string, Slot>, uid: nat -> string)
      ensures State() == MountAsWritten(initial, uid).view
      ensures store == MountAsWritten(initial, uid).store
      ensures Valid()
    {
      var lines, rewrite := LoadCart(SlotOf(initial, CartKey));
      var s := if rewrite then initial[CartKey := Stored(Arr(LineValues(lines)))] else initial;
      var admin := SlotOf(initial, AdminKey);
      if !(admin.Stored? && admin.value.Arr?) {
        s := s[AdminKey := Stored(Arr(CartDefaults(uid)))];
      }
      var loaded := LoadCoupons(SlotOf(s, AdminKey), SlotOf(s, AppliedKey));
      assert Mounted(View(lines, loaded.coupons, loaded.selected, loaded.applied), s) == Loads(initial, uid);
      cart, coupons, selected, applied := lines, loaded.coupons, Str("NONE"), Cleared;
      store := s[AppliedKey := Stored(Cleared)];
      MountForgetsCoupon(initial, uid);
      NoneIsListed(loaded.coupons);
      assert View(lines, loaded.coupons, Str("NONE"), Cleared) == Loads(initial, uid).view.(applied := Cleared, selected := Str("NONE"));
    }

    /** Picking an entry of the select. */
    method Select(code: string)
      modifies this
      ensures selected == Str(code)
      ensures cart == old(cart) && coupons == old(coupons) && applied == old(applied) && store == old(store)
    {
      selected := Str(code);
    }

    /**
     * `applyCoupon` (lines 214-249), whose button is disabled while the cart
     * is empty: the decision is `Decide` on the subtotal, and only `Clear`
     * and `Apply` change the applied coupon and its key. Neither type nor
     * `active` is consulted, and the discount is not clamped. Clearing,
     * applying and a missing coupon also dispatch `coupons-updated`, which
     * this page's own listener answers: that follow-up is `Reload`, called
     * after this method.
     */
    method ApplyCoupon() returns (d: Option<Decision>)
      requires Valid()
      modifies this
      ensures Valid()
      ensures cart == old(cart) && coupons == old(coupons) && selected == old(selected)
      ensures old(cart) == [] ==> d == None && applied == old(applied) && store == old(store)
      ensures old(cart) != [] ==> d == Some(Decide(old(coupons), old(selected), Subtotal(old(cart))))
      ensures d == Some(Clear) ==> applied == Cleared && store == old(store)[AppliedKey := Stored(Cleared)]
      ensures d.Some? && d.value.Apply? ==>
                applied == AppliedValue(d.value.option) && store == old(store)[AppliedKey := Stored(applied)]
      ensures d.Some? && (d.value.NotListed? || d.value.NeedsMinimum?) ==> applied == old(applied) && store == old(store)
    {
      if cart == [] {
        return None;
      }
      var decision := Decide(coupons, selected, Subtotal(cart));
      d := Some(decision);
      match decision {
        case Clear =>
          applied := Cleared;
          store := store[AppliedKey := Stored(Cleared)];
        case Apply(o) =>
          applied := AppliedValue(o);
          store := store[AppliedKey := Stored(applied)];
          AppliedIsListed(coupons, o);
        case _ =>
      }
      NoneIsListed(coupons);
      // The effect at lines 252-268 sees the new coupon and finds it listed.
      var after := ClearIfUnlisted(State());
      selected, applied := after.selected, after.applied;
    }

    /** `persistCart` followed by the empty-cart effect (lines 113-121, 271-282). */
    method Persist(next: seq<Line>)
      requires Valid()
      modifies this
      ensures Valid()
      ensures cart == next && coupons == old(coupons)
      ensures next == [] ==> (applied == Cleared && selected == Str("NONE")
                && store == old(store)[CartKey := Stored(Arr(LineValues(next)))][AppliedKey := Stored(Cleared)])
      ensures next != [] ==> (applied == old(applied) && selected == old(selected)
                && store == old(store)[CartKey := Stored(Arr(LineValues(next)))])
    {
      cart := next;
      store := store[CartKey := Stored(Arr(LineValues(next)))];
      var after := ClearIfEmpty(State());
      selected, applied := after.selected, after.applied;
      if next == [] {
        store := store[AppliedKey := Stored(Cleared)];
      }
      NoneIsListed(coupons);
    }

    /**
     * `updateQty(id, delta)`: the cart becomes `QtyUpdated` and is stored.
     * The applied coupon stays while lines remain, even if the subtotal has
     * fallen below its minimum; the last line's removal clears it.
     */
    method UpdateQty(id: Value, delta: int)
      requires Valid()
      modifies this
      ensures Valid()
      ensures cart == QtyUpdated(old(cart), id, delta) && coupons == old(coupons)
      ensures cart != [] ==> (applied == old(applied) && selected == old(selected)
                && store == old(store)[CartKey := Stored(Arr(LineValues(cart)))])
      ensures cart == [] ==> (applied == Cleared && selected == Str("NONE")
                && store == old(store)[CartKey := Stored(Arr(LineValues(cart)))][AppliedKey := Stored(Cleared)])
    {
      var updated := CartLines.UpdateQty(cart, id, delta);
      Persist(updated);
    }

    /** `removeItem(id)`: the cart becomes `Removed` and is stored; an emptied cart clears the coupon. */
    method RemoveItem(id: Value)
      requires Valid()
      modifies this
      ensures Valid()
      ensures cart == Removed(old(cart), id) && coupons == old(coupons)
      ensures cart != [] ==> (applied == old(applied) && selected == old(selected)
                && store == old(store)[CartKey := Stored(Arr(LineValues(cart)))])
      ensures cart == [] ==> (applied == Cleared && selected == Str("NONE")
                && store == old(store)[CartKey := Stored(Arr(LineValues(cart)))][AppliedKey := Stored(Cleared)])
    {
      Persist(Removed(cart, id));
    }

    /**
     * `loadCoupons` run by the `coupons-updated` event, followed by the
     * effect at lines 252-268, which clears a stored coupon the list lacks.
     */
    method Reload()
      modifies this
      ensures Valid()
      ensures cart == old(cart)
      ensures var loaded := LoadCoupons(SlotOf(old(store), AdminKey), SlotOf(old(store), AppliedKey));
        && coupons == loaded.coupons
        && (Unlisted(loaded.coupons, loaded.applied) ==>
              applied == Cleared && selected == Str("NONE") && store == old(store)[AppliedKey := Stored(Cleared)])
        && (!Unlisted(loaded.coupons, loaded.applied) ==>
              applied == loaded.applied && selected == loaded.selected && store == old(store))
    {
      var loaded := LoadCoupons(SlotOf(store, AdminKey), SlotOf(store, AppliedKey));
      coupons, selected, applied := loaded.coupons, loaded.selected, loaded.applied;
      var clears := Unlisted(coupons, applied);
      var after := ClearIfUnlisted(State());
      selected, applied := after.selected, after.applied;
      if clears {
        store := store[AppliedKey := Stored(Cleared)];
      }
      NoneIsListed(loaded.coupons);
    }

    /** A `storage` event: another tab wrote `key`; the coupon keys trigger `loadCoupons`. */
    method StorageChanged(key: string, slot: Slot)
      requires Valid()
      modifies this
      ensures Valid()
      ensures cart == old(cart)
      ensures key != AdminKey && key != AppliedKey ==>
                store == old(store)[key := slot] && coupons == old(coupons) && applied == old(applied) && selected == old(selected)
      ensures key == AdminKey || key == AppliedKey ==>
                var written := old(store)[key := slot];
                coupons == LoadCoupons(SlotOf(written, AdminKey), SlotOf(written, AppliedKey)).coupons
    {
      store := store[key := slot];
      if key == AdminKey || key == AppliedKey {
        Reload();
      }
    }
  }

  /** The coupon `applyCoupon` stores names an option of the list. */
  lemma AppliedIsListed(coupons: seq<CouponOption>, o: CouponOption)
    requires o in coupons && o.code != "NONE"
    ensures !Unlisted(coupons, AppliedValue(o))
  {
    assert Get(AppliedValue(o), "code") == Str(o.code);
    var k :| 0 <= k < |coupons| && coupons[k] == o;
    assert Str(o.code) == Str(coupons[k].code);
  }
}
