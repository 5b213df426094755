/**
 * The coupon select of src/Pages/Cart.jsx: seeding the admin coupon key when
 * it holds no list, turning stored coupons into select options, keeping one
 * option per code (in the order `Object.values` gives them back), reading the
 * applied coupon, and the decision `applyCoupon` takes.
 */
module CartCoupons {
  import opened Options
  import opened Text
  import opened Js
  import opened Order
  import CartLines
  import AdminCoupons

  /** One entry of the select: `{ code, label, discount, minTotal }`, the label as `caption`. */
  datatype CouponOption = CouponOption(code: string, caption: string, discount: int, minTotal: int)

  /** The placeholder first entry. The loaded list gives it no `minTotal`; it reads as 0, and no rule consults it. */
  const Sentinel := CouponOption("NONE", "Select a coupon...", 0, 0)

  /** `{ code: "NONE", discount: 0 }`: no coupon applied. */
  const Cleared := Obj(map["code" := Str("NONE"), "discount" := Num(0)])

  // ---------------------------------------------------------------- seeding

  /** One record of the seeded list: the admin page's fields without `type` and `active`. */
  function SeedRecord(id: string, title: string, code: string, description: string, discount: int, minTotal: int): Value {
    Obj(map["id" := Str(id), "title" := Str(title), "code" := Str(code), "description" := Str(description),
            "discount" := Num(discount), "minTotal" := Num(minTotal)])
  }

  /** The three records `ensureDefaultCoupons` writes; `uid` stands for the random ids. */
  function CartDefaults(uid: nat -> string): seq<Value> {
    [ SeedRecord(uid(0), "Welcome Coupon", "WELCOME50", "Get flat ₹50 OFF on your first order!", 50, 0),
      SeedRecord(uid(1), "₹500+ Purchase Coupon", "SAVE500", "Save ₹75 when your order is above ₹500.", 75, 500),
      SeedRecord(uid(2), "10 OFF Demo", "TENOFF", "Demo flat ₹10 off.", 10, 0) ]
  }

  /** The admin key after `ensureDefaultCoupons`: a parsed array stays, anything else is replaced by the defaults. */
  function Seeded(admin: Slot, uid: nat -> string): Slot {
    if admin.Stored? && admin.value.Arr? then admin else Stored(Arr(CartDefaults(uid)))
  }

  // ------------------------------------------------------------- formatting

  /** `(c && (c.code || c.code === 0 ? String(c.code) : "")).toString().toUpperCase()`; null and undefined throw. */
  function FormatCode(c: Value): string
    requires !IsNullish(c)
  {
    if !Truthy(c) then Upper(ToStr(c))
    else
      var code := Get(c, "code");
      Upper(if Truthy(code) || StrictEq(code, Num(0)) then ToStr(code) else "")
  }

  /** The option one stored coupon becomes. */
  function Format(c: Value): CouponOption
    requires !IsNullish(c)
  {
    var code := FormatCode(c);
    CouponOption(
      code,
      if Truthy(c) && Truthy(Get(c, "title")) then ToStr(Get(c, "title")) + " (" + code + ")" else code,
      NumberOr(Or(Get(c, "discount"), Num(0)), 0),
      NumberOr(Or(Get(c, "minTotal"), Num(0)), 0))
  }

  /** `parsed.map(...)`: `None` when some element is null or undefined, where the mapping throws. */
  function FormatAll(xs: seq<Value>): Option<seq<CouponOption>> {
    if forall i :: 0 <= i < |xs| ==> !IsNullish(xs[i])
    then Some(seq(|xs|, i requires 0 <= i < |xs| && !IsNullish(xs[i]) => Format(xs[i])))
    else None
  }

  /** Every formatted code is upper case. */
  lemma FormatUpper(c: Value)
    requires !IsNullish(c)
    ensures NoLower(Format(c).code)
  {
    if !Truthy(c) {
      UpperNoLower(ToStr(c));
    } else {
      var code := Get(c, "code");
      UpperNoLower(if Truthy(code) || StrictEq(code, Num(0)) then ToStr(code) else "");
    }
  }

  /** A stored object with a text title and code and numeric amounts becomes the option with those values. */
  lemma FormatRecord(c: Value, title: string, code: string, discount: int, minTotal: int)
    requires c.Obj? && NoLower(code)
    requires "title" in c.fields && c.fields["title"] == Str(title)
    requires "code" in c.fields && c.fields["code"] == Str(code)
    requires "discount" in c.fields && c.fields["discount"] == Num(discount)
    requires "minTotal" in c.fields && c.fields["minTotal"] == Num(minTotal)
    ensures Format(c) == CouponOption(code, if title != "" then title + " (" + code + ")" else code, discount, minTotal)
  {
    UpperFixesNoLower(code);
    assert Upper("") == "";
  }

  /** A coupon the admin page saved shows its own code, its title and its numbers in the cart. */
  lemma FormatSaved(c: AdminCoupons.Coupon)
    requires AdminCoupons.IsCanonicalCode(c.code)
    ensures Format(AdminCoupons.Encode(c))
            == CouponOption(c.code, if c.title != "" then c.title + " (" + c.code + ")" else c.code, c.discount, c.minTotal)
  {
    FormatRecord(AdminCoupons.Encode(c), c.title, c.code, c.discount, c.minTotal);
  }

  // ----------------------------------------------------------------- dedupe

  /** The `dedupe` object: its keys in insertion order and the option stored under each. */
  datatype Table = Table(keys: seq<string>, byCode: map<string, CouponOption>)

  /** `formatted.forEach((f) => { if (f.code) dedupe[f.code] = f; })` */
  function Dedupe(fs: seq<CouponOption>): (t: Table)
    ensures forall k :: k in t.keys <==> k in t.byCode
    decreases |fs|
  {
    if fs == [] then Table([], map[])
    else
      var t := Dedupe(fs[..|fs| - 1]);
      var f := fs[|fs| - 1];
      if f.code == "" then t
      else Table(if f.code in t.byCode then t.keys else t.keys + [f.code], t.byCode[f.code := f])
  }

  /** The last option in `fs` with code `code`. */
  function LastWithCode(fs: seq<CouponOption>, code: string): (r: Option<CouponOption>)
    ensures r.Some? ==> r.value.code == code
    decreases |fs|
  {
    if fs == [] then None
    else if fs[|fs| - 1].code == code then Some(fs[|fs| - 1])
    else LastWithCode(fs[..|fs| - 1], code)
  }

  lemma {:induction false} LastWithCodeFound(fs: seq<CouponOption>, j: nat)
    requires j < |fs|
    ensures LastWithCode(fs, fs[j].code).Some?
    decreases |fs|
  {
    if j < |fs| - 1 && fs[|fs| - 1].code != fs[j].code {
      LastWithCodeFound(fs[..|fs| - 1], j);
    }
  }

  /** The table has each non-empty code once, holding the last option with that code. */
  lemma {:induction false} DedupeSpec(fs: seq<CouponOption>)
    ensures Distinct(Dedupe(fs).keys)
    ensures forall k :: k in Dedupe(fs).byCode <==> k != "" && LastWithCode(fs, k).Some?
    ensures forall k :: k in Dedupe(fs).byCode ==> LastWithCode(fs, k) == Some(Dedupe(fs).byCode[k])
    decreases |fs|
  {
    if fs != [] {
      DedupeSpec(fs[..|fs| - 1]);
    }
  }

  /** An integer-like key: the canonical decimal text of an array index (below 2^32 - 1). */
  predicate IsIndexKey(k: string) {
    AllDigits(k) && (k[0] != '0' || |k| == 1) && DigitsValue(k) < 0xFFFF_FFFF
  }

  predicate NotIndexKey(k: string) {
    !IsIndexKey(k)
  }

  /** The number an index key stands for. */
  function KeyValue(k: string): nat {
    if AllDigits(k) then DigitsValue(k) else 0
  }

  predicate ByKeyValue(a: string, b: string) {
    KeyValue(a) < KeyValue(b)
  }

  lemma ByKeyValueWeak()
    ensures Weak(ByKeyValue)
  {
  }

  /** The order of an object's own keys: index keys ascending, then the other keys in insertion order. */
  function PropertyOrder(keys: seq<string>): seq<string> {
    SortBy(Filter(keys, IsIndexKey), ByKeyValue) + Filter(keys, NotIndexKey)
  }

  lemma PropertyOrderSpec(keys: seq<string>)
    ensures forall k :: k in PropertyOrder(keys) <==> k in keys
    ensures Distinct(keys) ==> Distinct(PropertyOrder(keys))
    ensures forall i, j :: 0 <= i < j < |PropertyOrder(keys)| && IsIndexKey(PropertyOrder(keys)[j]) ==>
              IsIndexKey(PropertyOrder(keys)[i]) && KeyValue(PropertyOrder(keys)[i]) <= KeyValue(PropertyOrder(keys)[j])
  {
    var a := Filter(keys, IsIndexKey);
    var sa := SortBy(a, ByKeyValue);
    var b := Filter(keys, NotIndexKey);
    assert PropertyOrder(keys) == sa + b;
    assert Sorted(sa, ByKeyValue) by {
      ByKeyValueWeak();
      SortBySorted(a, ByKeyValue);
    }
    SortedKeys(sa, a, b);
    if Distinct(keys) {
      FilterDistinct(keys, IsIndexKey);
      FilterDistinct(keys, NotIndexKey);
      DistinctPermutation(sa, a);
      DistinctKeys(sa, b);
    }
  }

  lemma SortedKeys(sa: seq<string>, a: seq<string>, b: seq<string>)
    requires multiset(sa) == multiset(a) && Sorted(sa, ByKeyValue)
    requires forall k :: k in a ==> IsIndexKey(k)
    requires forall k :: k in b ==> !IsIndexKey(k)
    ensures forall k :: k in sa <==> k in a
    ensures forall k :: k in sa + b <==> k in a || k in b
    ensures forall i, j :: 0 <= i < j < |sa + b| && IsIndexKey((sa + b)[j]) ==>
              IsIndexKey((sa + b)[i]) && KeyValue((sa + b)[i]) <= KeyValue((sa + b)[j])
  {
    var r := sa + b;
    assert forall k :: k in sa <==> k in multiset(sa);
    assert forall k :: k in a <==> k in multiset(a);
    forall i, j | 0 <= i < j < |r| && IsIndexKey(r[j])
      ensures IsIndexKey(r[i]) && KeyValue(r[i]) <= KeyValue(r[j])
    {
      assert forall k :: |sa| <= k < |r| ==> r[k] == b[k - |sa|];
      assert j < |sa|;
      assert r[i] == sa[i] && r[j] == sa[j];
      assert sa[i] in sa;
    }
  }

  lemma DistinctKeys(sa: seq<string>, b: seq<string>)
    requires Distinct(sa) && Distinct(b)
    requires forall k :: k in sa ==> IsIndexKey(k)
    requires forall k :: k in b ==> !IsIndexKey(k)
    ensures Distinct(sa + b)
  {
    var r := sa + b;
    forall i, j | 0 <= i < j < |r|
      ensures r[i] != r[j]
    {
      if i < |sa| && j >= |sa| {
        assert r[i] in sa && r[j] in b;
      } else if i >= |sa| {
        assert r[i] == b[i - |sa|] && r[j] == b[j - |sa|];
      }
    }
  }

  /** `Object.values(dedupe)` */
  function Unique(fs: seq<CouponOption>): seq<CouponOption> {
    var t := Dedupe(fs);
    var order := PropertyOrder(t.keys);
    PropertyOrderSpec(t.keys);
    seq(|order|, i requires 0 <= i < |order| => t.byCode[order[i]])
  }

  /** The list `setCoupons` receives: the placeholder, then one option per code. */
  function CouponList(fs: seq<CouponOption>): seq<CouponOption> {
    [Sentinel] + Unique(fs)
  }

  /** Position `i` of `Object.values(dedupe)` holds the option stored under the `i`-th key. */
  lemma UniqueAt(fs: seq<CouponOption>)
    ensures |Unique(fs)| == |PropertyOrder(Dedupe(fs).keys)|
    ensures forall i :: 0 <= i < |Unique(fs)| ==>
              PropertyOrder(Dedupe(fs).keys)[i] in Dedupe(fs).byCode
              && Unique(fs)[i] == Dedupe(fs).byCode[PropertyOrder(Dedupe(fs).keys)[i]]
  {
    PropertyOrderSpec(Dedupe(fs).keys);
  }

  /**
   * After the placeholder, the select lists every non-empty code of the
   * stored coupons exactly once, with the fields of the last coupon that
   * carries it; integer-like codes come first, in ascending order.
   */
  lemma UniqueSpec(fs: seq<CouponOption>)
    ensures forall i, j :: 0 <= i < j < |Unique(fs)| ==> Unique(fs)[i].code != Unique(fs)[j].code
    ensures forall i :: 0 <= i < |Unique(fs)| ==>
              Unique(fs)[i].code != "" && LastWithCode(fs, Unique(fs)[i].code) == Some(Unique(fs)[i])
    ensures forall j :: 0 <= j < |fs| && fs[j].code != "" ==>
              exists i :: 0 <= i < |Unique(fs)| && Unique(fs)[i].code == fs[j].code
    ensures forall i, j :: 0 <= i < j < |Unique(fs)| && IsIndexKey(Unique(fs)[j].code) ==>
              IsIndexKey(Unique(fs)[i].code) && KeyValue(Unique(fs)[i].code) <= KeyValue(Unique(fs)[j].code)
  {
    var t := Dedupe(fs);
    var order := PropertyOrder(t.keys);
    var u := Unique(fs);
    DedupeSpec(fs);
    PropertyOrderSpec(t.keys);
    UniqueAt(fs);
    assert forall i :: 0 <= i < |u| ==> u[i].code == order[i];
    forall j | 0 <= j < |fs| && fs[j].code != ""
      ensures exists i :: 0 <= i < |u| && u[i].code == fs[j].code
    {
      LastWithCodeFound(fs, j);
      var k := fs[j].code;
      assert k in order;
      var i :| 0 <= i < |order| && order[i] == k;
      assert u[i].code == k;
    }
  }

  // ---------------------------------------------------------------- loading

  /** What `loadCoupons` leaves in the page's state. */
  datatype Loaded = Loaded(coupons: seq<CouponOption>, selected: Value, applied: Value)

  /** The `catch` branch: only the placeholder, nothing selected or applied. */
  const Fallback := Loaded([Sentinel], Str("NONE"), Cleared)

  /** `(raw ? JSON.parse(raw) : []) || []` as far as `.map` gets: `None` when parsing or mapping throws. */
  function StoredList(admin: Slot): Option<seq<Value>> {
    match admin
    case Missing => Some([])
    case Corrupt => None
    case Stored(v) => if !Truthy(v) then Some([]) else if v.Arr? then Some(v.elems) else None
  }

  /** `rawApplied ? JSON.parse(rawApplied) : { code: "NONE", discount: 0 }` */
  function StoredApplied(slot: Slot): Option<Value> {
    match slot
    case Missing => Some(Cleared)
    case Corrupt => None
    case Stored(v) => Some(v)
  }

  /** `loadCoupons` reading the admin key and the applied-coupon key. */
  function LoadCoupons(admin: Slot, applied: Slot): (r: Loaded)
    ensures r.coupons != [] && r.coupons[0] == Sentinel
    ensures StoredList(admin).None? || StoredApplied(applied).None? ==> r == Fallback
    ensures StoredList(admin).Some? && FormatAll(StoredList(admin).value).None? ==> r == Fallback
    ensures StoredList(admin).Some? && FormatAll(StoredList(admin).value).Some? && StoredApplied(applied).Some? ==>
              && r.coupons == CouponList(FormatAll(StoredList(admin).value).value)
              && r.applied == StoredApplied(applied).value
              && r.selected == Or(Get(r.applied, "code"), Str("NONE"))
  {
    match StoredList(admin)
    case None => Fallback
    case Some(xs) =>
      match FormatAll(xs)
      case None => Fallback
      case Some(fs) =>
        match StoredApplied(applied)
        case None => Fallback
        case Some(v) => Loaded(CouponList(fs), Or(Get(v, "code"), Str("NONE")), v)
  }

  /** After seeding, the admin list always parses, so only a bad element or a bad applied key reaches the `catch`. */
  lemma SeededParses(admin: Slot, uid: nat -> string)
    ensures StoredList(Seeded(admin, uid)).Some?
    ensures !(admin.Stored? && admin.value.Arr?) ==> FormatAll(StoredList(Seeded(admin, uid)).value).Some?
  {
  }

  // --------------------------------------------------------------- applying

  /** The first option whose code is `selected` (`c.code === selectedCoupon`), from `from` on. */
  function FindOption(coupons: seq<CouponOption>, selected: Value, from: nat): (r: Option<nat>)
    requires from <= |coupons|
    ensures r.Some? ==> from <= r.value < |coupons| && selected == Str(coupons[r.value].code)
    ensures r.Some? ==> forall j :: from <= j < r.value ==> selected != Str(coupons[j].code)
    ensures r.None? ==> forall j :: from <= j < |coupons| ==> selected != Str(coupons[j].code)
    decreases |coupons| - from
  {
    if from == |coupons| then None
    else if StrictEq(Str(coupons[from].code), selected) then Some(from)
    else FindOption(coupons, selected, from + 1)
  }

  /** What `applyCoupon` does with the selection. */
  datatype Decision = Clear | NotListed | NeedsMinimum(minTotal: int) | Apply(option: CouponOption)

  /**
   * `applyCoupon`: "NONE" clears; otherwise the first option with the
   * selected code is applied unless it has a minimum the subtotal is below.
   */
  function Decide(coupons: seq<CouponOption>, selected: Value, subtotal: Value): (d: Decision)
    requires IsNumber(subtotal)
    ensures d.Clear? <==> selected == Str("NONE")
    ensures d.NotListed? <==> selected != Str("NONE") && forall j :: 0 <= j < |coupons| ==> selected != Str(coupons[j].code)
    ensures d.Apply? ==> d.option in coupons && selected == Str(d.option.code) && d.option.code != "NONE"
    ensures d.Apply? ==> d.option.minTotal == 0 || !Less(subtotal, Num(d.option.minTotal))
    ensures d.NeedsMinimum? ==> d.minTotal != 0 && Less(subtotal, Num(d.minTotal))
    ensures (d.Apply? || d.NeedsMinimum?) ==>
              exists k :: 0 <= k < |coupons| && selected == Str(coupons[k].code) && (forall j :: 0 <= j < k ==> selected != Str(coupons[j].code))
                && (d.Apply? ==> d.option == coupons[k]) && (d.NeedsMinimum? ==> d.minTotal == coupons[k].minTotal)
  {
    if StrictEq(selected, Str("NONE")) then Clear
    else match FindOption(coupons, selected, 0)
      case None => NotListed
      case Some(k) =>
        var found := coupons[k];
        if found.minTotal != 0 && Less(subtotal, Num(found.minTotal)) then NeedsMinimum(found.minTotal)
        else Apply(found)
  }

  /** `{ code: found.code, discount: found.discount }` */
  function AppliedValue(o: CouponOption): Value {
    Obj(map["code" := Str(o.code), "discount" := Num(o.discount)])
  }

  /**
   * The cart and the admin page agree on a saved flat coupon that is not
   * switched off: it applies in both exactly when the subtotal reaches its
   * minimum, and the cart's total is then the admin page's new total.
   */
  lemma FlatCouponAgrees(c: AdminCoupons.Coupon, coupons: seq<CouponOption>, lines: seq<CartLines.Line>, t: int)
    requires AdminCoupons.IsCanonicalCode(c.code) && c.code != "NONE"
    requires c.kind == AdminCoupons.Flat && c.active
    requires CartLines.Subtotal(lines) == Num(t) && t >= 0
    requires FindOption(coupons, Str(c.code), 0).Some?
    requires coupons[FindOption(coupons, Str(c.code), 0).value] == Format(AdminCoupons.Encode(c))
    ensures Decide(coupons, Str(c.code), Num(t)).Apply? <==> AdminCoupons.Expected(c, t).success
    ensures Decide(coupons, Str(c.code), Num(t)).Apply? ==>
              CartLines.Total(lines, AppliedValue(Decide(coupons, Str(c.code), Num(t)).option)) == AdminCoupons.Expected(c, t).newTotal
  {
    FormatSaved(c);
  }

  /**
   * A percent coupon is a flat amount in the cart: 30 off a subtotal of
   * 1000 leaves 970 there, where the admin page's rule leaves 700.
   */
  lemma PercentTakenAsFlat(lines: seq<CartLines.Line>, uid: nat -> string)
    requires CartLines.Subtotal(lines) == Num(1000)
    ensures var festive := AdminCoupons.DefaultRecords(uid)[2];
      var option := Format(AdminCoupons.Encode(festive));
      && CartLines.Total(lines, AppliedValue(option)) == Num(970)
      && AdminCoupons.Expected(festive, 1000).newTotal == Num(700)
  {
    var festive := AdminCoupons.DefaultRecords(uid)[2];
    assert AdminCoupons.IsCanonicalCode(festive.code) by {
      assert NoSpaceAtEnds("FESTIVE30");
    }
    FormatSaved(festive);
  }
}
