/**
 * The admin coupon page: the exported discount calculation `applyCoupon`
 * and the page's list of coupons, which `saveCoupon` and `deleteCoupon`
 * edit (src/Admin/Pages/Coupons.jsx). The list is what the page keeps in
 * its `coupons` state and writes to storage after every change, so
 * `ApplyCoupon` reads it as `Stored(Arr(coupons))`.
 */
module AdminCoupons {
  import opened Options
  import opened Text
  import opened Js

  /** Why `applyCoupon` did or did not discount: the `message` of its result. */
  datatype Outcome = NotFound | Inactive | BelowMinimum(minTotal: int) | Applied | Failed

  /** `{ success, amount, newTotal, message, coupon }` */
  datatype CouponResult = CouponResult(success: bool, amount: Value, newTotal: Value, outcome: Outcome, coupon: Option<Value>)

  /** The answer to every refusal: nothing off, total unchanged. */
  function Refused(cartTotal: int, why: Outcome): CouponResult {
    CouponResult(false, Num(0), Num(cartTotal), why, None)
  }

  /** `(v || "").toString().trim().toUpperCase()`: the form in which codes are compared. */
  function LookupKey(v: Value): string {
    Upper(Trim(ToStr(Or(v, Str("")))))
  }

  /** How `list.find` ends: reading `.code` of a null entry throws, else the first match or none. */
  datatype Search = Throws(at: nat) | NoMatch | Match(at: nat)

  /** Whether entry `c` of the list, already known not to be null, has code `key`. */
  predicate HasCode(c: Value, key: string) {
    LookupKey(Get(c, "code")) == key
  }

  /**
   * A scan of `xs` from index `from` that ends at the first entry on which
   * `throws` holds (the callback throws) or `hit` holds (the entry is found).
   */
  function Scan<T>(xs: seq<T>, throws: T -> bool, hit: T -> bool, from: nat): (r: Search)
    requires from <= |xs|
    ensures r.Match? ==> from <= r.at < |xs| && !throws(xs[r.at]) && hit(xs[r.at])
    ensures r.Throws? ==> from <= r.at < |xs| && throws(xs[r.at])
    ensures r.NoMatch? ==> forall j :: from <= j < |xs| ==> !throws(xs[j]) && !hit(xs[j])
    ensures !r.NoMatch? ==> forall j :: from <= j < r.at ==> !throws(xs[j]) && !hit(xs[j])
    decreases |xs| - from
  {
    if from == |xs| then NoMatch
    else if throws(xs[from]) then Throws(from)
    else if hit(xs[from]) then Match(from)
    else Scan(xs, throws, hit, from + 1)
  }

  /** `list.find((c) => LookupKey(c.code) === key)`: the first entry that is null (and throws) or has the code. */
  function FindCoupon(list: seq<Value>, key: string): (r: Search)
    ensures r.Match? ==> r.at < |list| && !IsNullish(list[r.at]) && HasCode(list[r.at], key)
    ensures r.Throws? ==> r.at < |list| && IsNullish(list[r.at])
    ensures r.NoMatch? ==> forall j :: 0 <= j < |list| ==> !IsNullish(list[j]) && !HasCode(list[j], key)
    ensures !r.NoMatch? ==> forall j :: 0 <= j < r.at ==> !IsNullish(list[j]) && !HasCode(list[j], key)
  {
    Scan(list, IsNullish, c => HasCode(c, key), 0)
  }

  /** `Math.round((p / 100) * t)`, on the exact share `p * t / 100`; see `PercentRounding`. */
  function PercentOf(p: Value, t: int): (r: Value)
    requires IsNumber(p)
    ensures IsNumber(r)
  {
    if p.Num? then Num((p.n * t + 50) / 100) else NaN
  }

  /** The share is NaN for a NaN percentage, and otherwise the integer nearest `p * t / 100`, halves rounded up. */
  lemma PercentRounding(p: Value, t: int)
    requires IsNumber(p)
    ensures p.NaN? ==> PercentOf(p, t).NaN?
    ensures p.Num? ==> PercentOf(p, t).Num? && 100 * PercentOf(p, t).n - 50 <= p.n * t < 100 * PercentOf(p, t).n + 50
  {
  }

  /** The checks and the arithmetic `applyCoupon` performs once a coupon has been found. */
  function Evaluate(c: Value, cartTotal: int): (r: CouponResult)
    ensures r.success <==> r.outcome == Applied
    ensures !r.success ==> r.amount == Num(0) && r.newTotal == Num(cartTotal) && r.coupon == None
    ensures r.success ==> IsNumber(r.amount) && (r.amount.NaN? <==> r.newTotal.NaN?)
    ensures r.success && r.amount.Num? ==>
              r.amount.n <= cartTotal && r.newTotal.Num? && r.newTotal.n >= 0 && r.amount.n + r.newTotal.n == cartTotal
  {
    if !Truthy(c) then Refused(cartTotal, NotFound)
    else if StrictEq(Get(c, "active"), Bool(false)) then Refused(cartTotal, Inactive)
    else
      var minTotal := ToNumber(Or(Get(c, "minTotal"), Num(0)));
      if minTotal.Num? && cartTotal < minTotal.n then Refused(cartTotal, BelowMinimum(minTotal.n))
      else
        var d := ToNumber(Or(Get(c, "discount"), Num(0)));
        var raw := if StrictEq(Get(c, "type"), Str("percent")) then PercentOf(d, cartTotal) else d;
        var amount := if raw.Num? && raw.n > cartTotal then Num(cartTotal) else raw;
        CouponResult(true, amount, MaxZero(Minus(Num(cartTotal), amount)), Applied, Some(c))
  }

  /**
   * `applyCoupon(code, cartTotal)` against the coupon list in storage.
   * A refusal never discounts; a success never discounts more than the
   * total, and what it takes off plus what is left is the total.
   */
  function ApplyCoupon(code: Value, cartTotal: int, stored: Slot): (r: CouponResult)
    ensures r.success <==> r.outcome == Applied
    ensures !r.success ==> r.amount == Num(0) && r.newTotal == Num(cartTotal) && r.coupon == None
    ensures r.success ==> IsNumber(r.amount) && (r.amount.NaN? <==> r.newTotal.NaN?)
    ensures r.success && r.amount.Num? ==>
              r.amount.n <= cartTotal && r.newTotal.Num? && r.newTotal.n >= 0 && r.amount.n + r.newTotal.n == cartTotal
  {
    if stored.Corrupt? then Refused(cartTotal, Failed)
    else
      var list := if stored.Missing? then Arr([]) else stored.value;
      if !list.Arr? then Refused(cartTotal, Failed)
      else
        match FindCoupon(list.elems, LookupKey(code))
        case Throws(_) => Refused(cartTotal, Failed)
        case NoMatch => Refused(cartTotal, NotFound)
        case Match(k) => Evaluate(list.elems[k], cartTotal)
  }

  /** The `type` a saved coupon carries. */
  datatype Kind = Flat | Percent

  /** A coupon as `saveCoupon` writes it. */
  datatype Coupon = Coupon(
    id: Value, title: string, code: string, description: string,
    discount: int, minTotal: int, kind: Kind, active: bool)

  /** The stored object for a saved coupon. */
  function Encode(c: Coupon): (v: Value)
    ensures v.Obj?
  {
    Obj(map[
      "id" := c.id, "title" := Str(c.title), "code" := Str(c.code), "description" := Str(c.description),
      "discount" := Num(c.discount), "minTotal" := Num(c.minTotal),
      "type" := Str(if c.kind == Percent then "percent" else "flat"), "active" := Bool(c.active)])
  }

  /** The stored list for a list of saved coupons. */
  function EncodeAll(cs: seq<Coupon>): seq<Value> {
    seq(|cs|, i requires 0 <= i < |cs| => Encode(cs[i]))
  }

  /** The three coupons the page writes when storage holds none; `uid` supplies the ids `uid()` returns. */
  function DefaultRecords(uid: nat -> string): seq<Coupon> {
    [ Coupon(Str(uid(0)), "Welcome Coupon", "WELCOME50", "Get flat ₹50 OFF on your first order!", 50, 0, Flat, true),
      Coupon(Str(uid(1)), "₹500+ Purchase Coupon", "SAVE500", "Save ₹75 when your order is above ₹500.", 75, 500, Flat, true),
      Coupon(Str(uid(2)), "Festive 30% Off", "FESTIVE30", "Enjoy 30% off during festival season.", 30, 0, Percent, true) ]
  }

  function DefaultCoupons(uid: nat -> string): seq<Value> {
    EncodeAll(DefaultRecords(uid))
  }

  /**
   * The page's first list: the parsed stored list, or the defaults when
   * nothing (or nothing parseable) is stored. A stored value that is not
   * an array leaves the page unable to render its table (None).
   */
  function InitialCoupons(stored: Slot, uid: nat -> string): (r: Option<seq<Value>>)
    ensures stored.Missing? || stored.Corrupt? ==> r == Some(DefaultCoupons(uid))
    ensures stored.Stored? ==> (r.Some? <==> stored.value.Arr?)
    ensures stored.Stored? && stored.value.Arr? ==> r == Some(stored.value.elems)
  {
    match stored
    case Stored(v) => if v.Arr? then Some(v.elems) else None
    case _ => Some(DefaultCoupons(uid))
  }

  /** The modal's fields when the admin presses Save. */
  datatype CouponForm = CouponForm(
    title: string, code: string, description: string,
    discount: Value, minTotal: Value, kind: string, active: Value)

  /** A code as `saveCoupon` stores it: upper case, no surrounding white space. */
  predicate IsCanonicalCode(s: string) {
    NoSpaceAtEnds(s) && NoLower(s)
  }

  /** A stored canonical code is its own lookup key. */
  lemma CanonicalIsOwnKey(s: string)
    requires IsCanonicalCode(s)
    ensures LookupKey(Str(s)) == s
  {
    if s != "" {
      assert ToStr(Or(Str(s), Str(""))) == s;
      TrimFixesNoSpaceAtEnds(s);
      UpperFixesNoLower(s);
    }
  }

  /** `code.toUpperCase().trim()` is canonical, and is the key `applyCoupon` computes from the code as typed. */
  lemma SavedCode(code: string)
    ensures IsCanonicalCode(Trim(Upper(code)))
    ensures code != "" ==> LookupKey(Str(code)) == Trim(Upper(code))
  {
    TrimmedHasNoSpaceAtEnds(Upper(code));
    UpperNoLower(code);
    TrimNoLower(Upper(code));
    TrimUpper(code);
    if code != "" {
      assert ToStr(Or(Str(code), Str(""))) == code;
    }
  }

  /**
   * The record `saveCoupon` stores for `form` under `id`: the code upper-cased
   * and trimmed (so that `applyCoupon` finds it under the code as typed),
   * the type restricted to flat or percent, `active` a boolean, and the two
   * amounts numbers defaulting to 0.
   */
  function Normalize(form: CouponForm, id: Value): (c: Coupon)
    ensures c.id == id && c.title == form.title && c.description == form.description
    ensures IsCanonicalCode(c.code) && LookupKey(Str(c.code)) == c.code
    ensures form.code != "" ==> LookupKey(Str(form.code)) == c.code
    ensures c.kind == Percent <==> form.kind == "percent"
    ensures c.active <==> Truthy(form.active)
    ensures c.discount == NumberOr(form.discount, 0) && c.minTotal == NumberOr(form.minTotal, 0)
  {
    var code := Trim(Upper(form.code));
    SavedCode(form.code);
    CanonicalIsOwnKey(code);
    Coupon(id, form.title, code, form.description,
           NumberOr(form.discount, 0), NumberOr(form.minTotal, 0),
           if form.kind == "percent" then Percent else Flat, Truthy(form.active))
  }

  /**
   * What applying a saved coupon means, stated on the typed record: an
   * inactive coupon is refused, then a total below the minimum, and
   * otherwise the discount (a rounded share of the total for a percent
   * coupon) is capped at the total and taken off it, never going below 0.
   */
  function Expected(c: Coupon, t: int): (r: CouponResult) {
    if !c.active then Refused(t, Inactive)
    else if t < c.minTotal then Refused(t, BelowMinimum(c.minTotal))
    else
      var raw := if c.kind == Percent then (c.discount * t + 50) / 100 else c.discount;
      var amount := if raw > t then t else raw;
      CouponResult(true, Num(amount), Num(if t - amount < 0 then 0 else t - amount), Applied, Some(Encode(c)))
  }

  /** On a saved coupon, the untyped checks of `applyCoupon` agree with `Expected`. */
  lemma EvaluateSaved(c: Coupon, t: int)
    ensures Evaluate(Encode(c), t) == Expected(c, t)
  {
    var v := Encode(c);
    assert Get(v, "active") == Bool(c.active);
    assert ToNumber(Or(Get(v, "minTotal"), Num(0))) == Num(c.minTotal);
    assert ToNumber(Or(Get(v, "discount"), Num(0))) == Num(c.discount);
    assert StrictEq(Get(v, "type"), Str("percent")) <==> c.kind == Percent;
  }

  /** A saved coupon has the code it was saved under. */
  lemma HasCodeSaved(c: Coupon, key: string)
    requires IsCanonicalCode(c.code)
    ensures HasCode(Encode(c), key) <==> c.code == key
  {
    assert Get(Encode(c), "code") == Str(c.code);
    CanonicalIsOwnKey(c.code);
  }

  /** No entry of a stored list of saved coupons is null. */
  lemma SavedAreObjects(cs: seq<Coupon>)
    ensures forall j :: 0 <= j < |EncodeAll(cs)| ==> EncodeAll(cs)[j].Obj?
  {
  }

  /** `applyCoupon` over a stored list of saved coupons finds the FIRST coupon carrying the code and judges it by `Expected`. */
  lemma ApplyToSaved(cs: seq<Coupon>, code: Value, t: int, k: nat)
    requires forall i :: 0 <= i < |cs| ==> IsCanonicalCode(cs[i].code)
    requires k < |cs| && cs[k].code == LookupKey(code)
    requires forall i :: 0 <= i < k ==> cs[i].code != LookupKey(code)
    ensures ApplyCoupon(code, t, Stored(Arr(EncodeAll(cs)))) == Expected(cs[k], t)
  {
    var key := LookupKey(code);
    var list := EncodeAll(cs);
    SavedAreObjects(cs);
    HasCodeSaved(cs[k], key);
    assert list[k] == Encode(cs[k]);
    assert HasCode(list[k], key);
    var r := FindCoupon(list, key);
    assert !r.NoMatch?;
    assert !r.Throws?;
    assert r.at <= k;
    HasCodeSaved(cs[r.at], key);
    assert r.at == k;
    EvaluateSaved(cs[k], t);
  }

  /** A code that no saved coupon carries is not found. */
  lemma ApplyToSavedUnknown(cs: seq<Coupon>, code: Value, t: int)
    requires forall i :: 0 <= i < |cs| ==> IsCanonicalCode(cs[i].code)
    requires forall i :: 0 <= i < |cs| ==> cs[i].code != LookupKey(code)
    ensures ApplyCoupon(code, t, Stored(Arr(EncodeAll(cs)))) == Refused(t, NotFound)
  {
    var key := LookupKey(code);
    var list := EncodeAll(cs);
    SavedAreObjects(cs);
    var r := FindCoupon(list, key);
    if r.Match? {
      HasCodeSaved(cs[r.at], key);
    }
  }

  /** A coupon saved under a code no other coupon has is then applied by `applyCoupon` under that code, as typed. */
  lemma SavedCouponApplies(cs: seq<Coupon>, form: CouponForm, id: Value, t: int)
    requires forall i :: 0 <= i < |cs| ==> IsCanonicalCode(cs[i].code)
    requires form.code != ""
    requires forall i :: 0 <= i < |cs| ==> cs[i].code != Normalize(form, id).code
    ensures ApplyCoupon(Str(form.code), t, Stored(Arr(EncodeAll(cs) + [Encode(Normalize(form, id))])))
            == Expected(Normalize(form, id), t)
  {
    var c := Normalize(form, id);
    var all := cs + [c];
    assert EncodeAll(all) == EncodeAll(cs) + [Encode(c)];
    ApplyToSaved(all, Str(form.code), t, |cs|);
  }

  /** The codes of the default coupons are stored in canonical form. */
  lemma DefaultsCanonical(uid: nat -> string)
    ensures forall i :: 0 <= i < 3 ==> IsCanonicalCode(DefaultRecords(uid)[i].code)
  {
  }

  /** The code typed as `welcome50` is looked up as WELCOME50. */
  lemma TypedInLowerCase(typed: string)
    requires typed == "welcome50"
    ensures LookupKey(Str(typed)) == "WELCOME50"
  {
    UpperAt(typed);
    assert Upper(typed) == "WELCOME50";
    TrimFixesNoSpaceAtEnds(typed);
  }

  /** Scenario: WELCOME50 (typed in any case, see `TypedInLowerCase`) on a 520 order takes 50 off, leaving 470. */
  lemma WelcomeScenario(uid: nat -> string, code: Value)
    requires LookupKey(code) == "WELCOME50"
    ensures ApplyCoupon(code, 520, Stored(Arr(DefaultCoupons(uid))))
              .(coupon := None) == CouponResult(true, Num(50), Num(470), Applied, None)
  {
    DefaultsCanonical(uid);
    ApplyToSaved(DefaultRecords(uid), code, 520, 0);
  }

  /** Scenario: SAVE500 on a 450 order is refused for the 500 minimum and the total stays 450. */
  lemma MinimumScenario(uid: nat -> string, code: Value)
    requires LookupKey(code) == "SAVE500"
    ensures ApplyCoupon(code, 450, Stored(Arr(DefaultCoupons(uid))))
            == Refused(450, BelowMinimum(500))
  {
    DefaultsCanonical(uid);
    ApplyToSaved(DefaultRecords(uid), code, 450, 1);
  }

  /** Scenario: FESTIVE30 takes 300 off a 1000 order. */
  lemma PercentScenario(uid: nat -> string, code: Value)
    requires LookupKey(code) == "FESTIVE30"
    ensures ApplyCoupon(code, 1000, Stored(Arr(DefaultCoupons(uid))))
              .(coupon := None) == CouponResult(true, Num(300), Num(700), Applied, None)
  {
    FestiveApplies(uid, code, 1000);
    var festive := DefaultRecords(uid)[2];
    assert festive.active && festive.minTotal == 0 && festive.kind == Percent && festive.discount == 30;
    assert (30 * 1000 + 50) / 100 == 300;
    assert Expected(festive, 1000) == CouponResult(true, Num(300), Num(700), Applied, Some(Encode(festive)));
  }

  /** FESTIVE30 is found as the third default coupon and judged by its record. */
  lemma FestiveApplies(uid: nat -> string, code: Value, t: int)
    requires LookupKey(code) == "FESTIVE30"
    ensures ApplyCoupon(code, t, Stored(Arr(DefaultCoupons(uid)))) == Expected(DefaultRecords(uid)[2], t)
  {
    var cs := DefaultRecords(uid);
    FestiveIsThird(uid, LookupKey(code));
    DefaultsCanonical(uid);
    ApplyToSaved(cs, code, t, 2);
  }

  /** Of the default codes, only the third is FESTIVE30. */
  lemma FestiveIsThird(uid: nat -> string, key: string)
    requires key == "FESTIVE30"
    ensures |DefaultRecords(uid)| == 3 && DefaultRecords(uid)[2].code == key
    ensures forall i :: 0 <= i < 2 ==> DefaultRecords(uid)[i].code != key
  {
    assert "WELCOME50"[0] != key[0];
    assert "SAVE500"[0] != key[0];
  }

  /** Scenario: 30% of a total of 1 rounds down to nothing. */
  lemma PercentRoundsDown(uid: nat -> string, code: Value)
    requires LookupKey(code) == "FESTIVE30"
    ensures ApplyCoupon(code, 1, Stored(Arr(DefaultCoupons(uid))))
              .(coupon := None) == CouponResult(true, Num(0), Num(1), Applied, None)
  {
    FestiveApplies(uid, code, 1);
    var festive := DefaultRecords(uid)[2];
    assert festive.active && festive.minTotal == 0 && festive.kind == Percent && festive.discount == 30;
    assert (30 * 1 + 50) / 100 == 0;
    assert Expected(festive, 1) == CouponResult(true, Num(0), Num(1), Applied, Some(Encode(festive)));
  }

  /** Scenario: a code the list does not have is not found. */
  lemma UnknownScenario(uid: nat -> string, code: Value)
    requires LookupKey(code) == "BOGUS"
    ensures ApplyCoupon(code, 300, Stored(Arr(DefaultCoupons(uid)))) == Refused(300, NotFound)
  {
    DefaultsCanonical(uid);
    ApplyToSavedUnknown(DefaultRecords(uid), code, 300);
  }

  /** Scenario: once WELCOME50 is switched off in the admin page it is refused as inactive. */
  lemma InactiveScenario(uid: nat -> string, code: Value)
    requires LookupKey(code) == "WELCOME50"
    ensures ApplyCoupon(code, 520,
              Stored(Arr(EncodeAll(DefaultRecords(uid)[0 := DefaultRecords(uid)[0].(active := false)]))))
            == Refused(520, Inactive)
  {
    var cs := DefaultRecords(uid)[0 := DefaultRecords(uid)[0].(active := false)];
    DefaultsCanonical(uid);
    ApplyToSaved(cs, code, 520, 0);
  }

  /** Floor division by 100 grows by at most `k` when its argument grows by at most `100 * k`. */
  lemma DivHundredStep(x: int, y: int, k: int)
    requires x <= y + 100 * k
    ensures x / 100 <= y / 100 + k
  {
    assert y + 100 * k == (y / 100 + k) * 100 + y % 100;
  }

  /** A share of at most 100% of a larger total never rounds up by more than the totals differ. */
  lemma PercentStep(d: int, t1: int, t2: int)
    requires 0 <= d <= 100 && t1 <= t2
    ensures (d * t2 + 50) / 100 - (d * t1 + 50) / 100 <= t2 - t1
    ensures 0 <= t1 ==> 0 <= (d * t1 + 50) / 100 <= t1
  {
    var delta := t2 - t1;
    assert d * t2 == d * t1 + d * delta;
    assert d * delta <= 100 * delta;
    DivHundredStep(d * t2 + 50, d * t1 + 50, delta);
    if 0 <= t1 {
      assert d * t1 <= 100 * t1;
      DivHundredStep(d * t1 + 50, 50, t1);
    }
  }

  /**
   * Above its minimum, a coupon never makes a larger order cheaper than a
   * smaller one (for percent coupons, with a share between 0 and 100).
   */
  lemma NewTotalMonotone(c: Coupon, t1: int, t2: int)
    requires c.active && c.minTotal <= t1 <= t2 && 0 <= t1
    requires c.kind == Percent ==> 0 <= c.discount <= 100
    ensures Expected(c, t1).newTotal.n <= Expected(c, t2).newTotal.n
  {
    if c.kind == Percent {
      PercentStep(c.discount, t1, t2);
      PercentStep(c.discount, t2, t2);
    }
  }

  /** At the minimum the order flips: 499 is charged 499 under SAVE500, 500 only 425. */
  lemma MinimumBreaksMonotonicity(uid: nat -> string)
    ensures Expected(DefaultRecords(uid)[1], 499).newTotal == Num(499)
    ensures Expected(DefaultRecords(uid)[1], 500).newTotal == Num(425)
  {
  }

  /** The admin page's coupon list (its `coupons` state, mirrored to storage after each change). */
  class CouponsPage {
    var coupons: seq<Value>

    constructor (initial: seq<Value>)
      ensures coupons == initial
    {
      coupons := initial;
    }

    /**
     * `saveCoupon`: nothing happens without a code and a title; otherwise
     * the normalised record replaces entry `editIndex` (keeping its id) or,
     * for a new coupon, is appended under the uid id.
     */
    method SaveCoupon(form: CouponForm, editIndex: Option<nat>, freshId: string) returns (saved: bool)
      requires editIndex.Some? ==> editIndex.value < |coupons|
      modifies this
      ensures saved <==> form.code != "" && form.title != ""
      ensures !saved ==> coupons == old(coupons)
      ensures saved && editIndex.None? ==> coupons == old(coupons) + [Encode(Normalize(form, Str(freshId)))]
      ensures saved && editIndex.Some? ==>
                var i := editIndex.value;
                coupons == old(coupons)[i := Encode(Normalize(form, Get(old(coupons)[i], "id")))]
    {
      if form.code == "" || form.title == "" {
        return false;
      }
      var id := if editIndex.Some? then Get(coupons[editIndex.value], "id") else Str(freshId);
      var normalized := Encode(Normalize(form, id));
      if editIndex.Some? {
        coupons := coupons[editIndex.value := normalized];
      } else {
        coupons := coupons + [normalized];
      }
      saved := true;
    }

    /** `deleteCoupon(index)` once the admin confirms: only entry `index` goes. */
    method DeleteCoupon(index: nat, confirmed: bool)
      modifies this
      ensures !confirmed || index >= |old(coupons)| ==> coupons == old(coupons)
      ensures confirmed && index < |old(coupons)| ==> coupons == old(coupons)[..index] + old(coupons)[index + 1..]
    {
      if confirmed && index < |coupons| {
        coupons := coupons[..index] + coupons[index + 1..];
      }
    }

    /** The "Reset Demo" button: back to the three default coupons. */
    method ResetDemo(uid: nat -> string)
      modifies this
      ensures coupons == DefaultCoupons(uid)
    {
      coupons := DefaultCoupons(uid);
    }
  }
}
