/**
 * The admin's product manager (src/Admin/Pages/Products.jsx): the product
 * list read from storage (or the demo list), adding, editing and deleting
 * products, the product form's checks and payload, the category choices
 * offered by the form, the search box and the category headings of the list.
 *
 * The list is the parsed stored value as it is: the page works on whatever
 * the key held, so `products` is a `Value`, and the list operations apply
 * when it is an array.
 */
module AdminProducts {
  import opened Options
  import opened Text
  import opened Js
  import opened Order
  import opened Categories
  import AdminCategories
  import Storefront

  // ------------------------------------------------------------ demo products

  /** The six categories of the demo list, in its order. */
  const SampleCategories: seq<string> := ["Starters", "Pizzas", "Burgers", "Biryani", "Desserts", "Drinks"]

  /** The `i`-th demo product of category `c`, `suffix` being the random part of `uid("demo")`. */
  function SampleProduct(c: string, i: nat, suffix: string): Value {
    Obj(map[
      "id" := Str("demo_" + suffix),
      "title" := Str(c + " Demo " + NatToString(i + 1)),
      "desc" := Str("Delicious and freshly prepared."),
      "img" := Str(""),
      "price" := Num(120 + (i + 1) * 50),
      "original" := Num(160 + (i + 1) * 50),
      "category" := Str(c),
      "featured" := Bool(i == 0)])
  }

  /** `sampleProducts()`: three products per category, the `k`-th product taking `suffixes(k)`. */
  function SampleProducts(suffixes: nat -> string): seq<Value> {
    seq(18, k requires 0 <= k < 18 => SampleProduct(SampleCategories[k / 3], k % 3, suffixes(k)))
  }

  /**
   * `readStorage()`: a stored value that parses is the list, whatever it is;
   * nothing stored or text that does not parse gives the demo list.
   */
  function InitialAdminProducts(slot: Slot, suffixes: nat -> string): Value {
    if slot.Stored? then slot.value else Arr(SampleProducts(suffixes))
  }

  /** The badge of a card: `Math.max(0, (p.original || p.price) - p.price)`. */
  function Save(p: Value): (r: Value)
    ensures IsNumber(r) && (r.Num? ==> r.n >= 0)
  {
    MaxZero(Minus(Or(Get(p, "original"), Get(p, "price")), Get(p, "price")))
  }

  /** Each demo product is one of three in its category, the first of them featured, and saves ₹40. */
  lemma SampleProductsSpec(suffixes: nat -> string)
    ensures |SampleProducts(suffixes)| == 18
    ensures forall k :: 0 <= k < 18 ==>
              var p := SampleProducts(suffixes)[k];
              && Get(p, "category") == Str(SampleCategories[k / 3])
              && Get(p, "featured") == Bool(k % 3 == 0)
              && Get(p, "price") == Num(170 + (k % 3) * 50)
              && Save(p) == Num(40)
  {
    forall k | 0 <= k < 18
      ensures var p := SampleProducts(suffixes)[k];
              && Get(p, "category") == Str(SampleCategories[k / 3])
              && Get(p, "featured") == Bool(k % 3 == 0)
              && Get(p, "price") == Num(170 + (k % 3) * 50)
              && Save(p) == Num(40)
    {
      SampleSaves(SampleCategories[k / 3], k % 3, suffixes(k));
    }
  }

  lemma SampleSaves(c: string, i: nat, suffix: string)
    ensures Get(SampleProduct(c, i, suffix), "price") == Num(170 + i * 50)
    ensures Get(SampleProduct(c, i, suffix), "category") == Str(c)
    ensures Get(SampleProduct(c, i, suffix), "featured") == Bool(i == 0)
    ensures Save(SampleProduct(c, i, suffix)) == Num(40)
  {
    var p := SampleProduct(c, i, suffix);
    assert Get(p, "original") == Num(210 + i * 50);
  }

  /** With numeric prices the badge is how far the price is below the original, and 0 without an original. */
  lemma SaveSpec(p: Value, price: int, original: int)
    requires Get(p, "price") == Num(price) && Get(p, "original") == Num(original)
    ensures original != 0 ==> Save(p) == Num(if original < price then 0 else original - price)
    ensures original == 0 ==> Save(p) == Num(0)
  {
  }

  // ---------------------------------------------------------- list operations

  /** `{...it, ...data}`: the fields of `data` over those of `it`. */
  function Merge(it: Value, data: Value): Value {
    Obj(Spread(it) + Spread(data))
  }

  predicate NoNullItem(items: seq<Value>) {
    forall i :: 0 <= i < |items| ==> !IsNullish(items[i])
  }

  /**
   * `update(id, data)`: `cur.map(it => it.id === id ? {...it, ...data} : it)`;
   * `None` when it throws, on a null or undefined item.
   */
  function Updated(items: seq<Value>, id: Value, data: Value): Option<seq<Value>> {
    if !NoNullItem(items) then None
    else Some(seq(|items|, i requires 0 <= i < |items| =>
      if StrictEq(Get(items[i], "id"), id) then Merge(items[i], data) else items[i]))
  }

  /** `remove(id)`: `cur.filter(it => it.id !== id)`; `None` when it throws, on a null or undefined item. */
  function Removed(items: seq<Value>, id: Value): Option<seq<Value>> {
    if !NoNullItem(items) then None
    else Some(Filter(items, (it: Value) => !StrictEq(Get(it, "id"), id)))
  }

  /**
   * An edit keeps the list's length and order, leaves the items with another
   * id as they are, and gives the items with that id every field of `data`
   * while keeping their other fields.
   */
  lemma UpdatedSpec(items: seq<Value>, id: Value, data: Value)
    ensures Updated(items, id, data).Some? <==> NoNullItem(items)
    ensures Updated(items, id, data).Some? ==>
              var r := Updated(items, id, data).value;
              && |r| == |items|
              && (forall i :: 0 <= i < |items| && !StrictEq(Get(items[i], "id"), id) ==> r[i] == items[i])
              && (forall i, k :: 0 <= i < |items| && StrictEq(Get(items[i], "id"), id) && k in Spread(data) ==>
                    Get(r[i], k) == Spread(data)[k])
              && (forall i, k :: 0 <= i < |items| && StrictEq(Get(items[i], "id"), id) && k !in Spread(data) ==>
                    Get(r[i], k) == Get(items[i], k))
  {
  }

  /** Saving an edit whose data carries the same id leaves every id of the list as it was. */
  lemma EditKeepsIds(items: seq<Value>, id: Value, data: Value)
    requires NoNullItem(items) && data.Obj? && Get(data, "id") == id
    ensures var r := Updated(items, id, data).value;
            |r| == |items| && forall i :: 0 <= i < |items| ==> Get(r[i], "id") == Get(items[i], "id")
  {
    var r := Updated(items, id, data).value;
    forall i | 0 <= i < |items|
      ensures Get(r[i], "id") == Get(items[i], "id")
    {
      if StrictEq(Get(items[i], "id"), id) && "id" in Spread(data) {
        assert Get(r[i], "id") == Spread(data)["id"];
      }
    }
  }

  /** A deletion keeps exactly the items with another id, in their order; nothing with that id is left. */
  lemma RemovedSpec(items: seq<Value>, id: Value)
    ensures Removed(items, id).Some? <==> NoNullItem(items)
    ensures Removed(items, id).Some? ==>
              && (forall p :: p in Removed(items, id).value <==> p in items && !StrictEq(Get(p, "id"), id))
              && |Removed(items, id).value| <= |items|
  {
  }

  /** Deleting a product just added, by an id no other product has, gives back the list before. */
  lemma RemoveUndoesAdd(items: seq<Value>, p: Value)
    requires NoNullItem(items) && !IsNullish(p) && StrictEq(Get(p, "id"), Get(p, "id"))
    requires forall i :: 0 <= i < |items| ==> !StrictEq(Get(items[i], "id"), Get(p, "id"))
    ensures Removed([p] + items, Get(p, "id")) == Some(items)
  {
    var keep := (it: Value) => !StrictEq(Get(it, "id"), Get(p, "id"));
    NoNullCons(p, items);
    FilterDropsFirst(p, items, keep);
  }

  lemma NoNullCons(p: Value, items: seq<Value>)
    requires NoNullItem(items) && !IsNullish(p)
    ensures NoNullItem([p] + items)
  {
    var all := [p] + items;
    forall i | 0 <= i < |all|
      ensures !IsNullish(all[i])
    {
      if i > 0 {
        assert all[i] == items[i - 1];
      }
    }
  }

  // ------------------------------------------------------------ product form

  /** `Number(form.price) <= 0`, which is false for `NaN`. */
  predicate NotPositive(n: Value) {
    n.Num? && n.n <= 0
  }

  /**
   * `submit` of the product form: a title that is not text or trims to
   * nothing, and a falsy price or one that is a number of at most 0, are
   * refused; otherwise the payload is the form with a numeric price, the
   * original defaulting to the price, and the id of the product being edited
   * (`initialId`) or a fresh `p_<suffix>` one.
   */
  function FormPayload(form: Value, initialId: Value, suffix: string): Option<Value> {
    var t := Get(form, "title");
    var price := Get(form, "price");
    if !t.Str? || Trim(t.s) == "" then None
    else if !Truthy(price) || NotPositive(ToNumber(price)) then None
    else
      Some(Obj(Spread(form)["price" := ToNumber(price)]
                           ["original" := ToNumber(Or(Get(form, "original"), price))]
                           ["id" := Or(initialId, Str("p_" + suffix))]))
  }

  /**
   * The form refuses exactly a blank title and an unusable price; a payload
   * has a price that is a positive number or `NaN`, an original read from the
   * form's original (the price when that is falsy), the edited product's id
   * when it has one, and else every field of the form.
   */
  lemma FormPayloadSpec(form: Value, initialId: Value, suffix: string)
    ensures FormPayload(form, initialId, suffix).None? <==>
              !Get(form, "title").Str? || Trim(Get(form, "title").s) == "" ||
              !Truthy(Get(form, "price")) || NotPositive(ToNumber(Get(form, "price")))
    ensures FormPayload(form, initialId, suffix).Some? ==>
              var p, price := FormPayload(form, initialId, suffix).value, Get(form, "price");
              && p.Obj?
              && IsNumber(Get(p, "price")) && (Get(p, "price").Num? ==> Get(p, "price").n > 0)
              && Get(p, "original") == ToNumber(if Truthy(Get(form, "original")) then Get(form, "original") else price)
              && Get(p, "id") == (if Truthy(initialId) then initialId else Str("p_" + suffix))
              && forall k :: k in Spread(form) && k != "price" && k != "original" && k != "id" ==> Get(p, k) == Get(form, k)
  {
  }

  // -------------------------------------------------------- category choices

  /** An entry of the categories key as the form offers it: a string, else `c.title || c.name || ""`. */
  function TitleOf(c: Value): Value {
    if c.Str? then c else Or(Get(c, "title"), Or(Get(c, "name"), Str("")))
  }

  /**
   * `loadCategoriesFromStorage()`: nothing stored, text that does not parse,
   * a value that is not an array, or a null or undefined entry (which throws)
   * give `[]`; else the titles of the entries, without the falsy ones.
   */
  function LoadCategoryTitles(slot: Slot): seq<Value> {
    if !(slot.Stored? && slot.value.Arr?) || !NoNullItem(slot.value.elems) then []
    else
      var xs := slot.value.elems;
      Filter(seq(|xs|, i requires 0 <= i < |xs| => TitleOf(xs[i])), Truthy)
  }

  const DefaultTitles: seq<Value> := [Str("Starters"), Str("Pizzas"), Str("Burgers"), Str("Biryani"), Str("Desserts"), Str("Drinks")]

  /** The categories the form offers: the loaded titles, or the six defaults when there are none. */
  function FormCategories(loaded: seq<Value>): seq<Value> {
    if |loaded| > 0 then loaded else DefaultTitles
  }

  /** Every loaded title is truthy and is the title of some stored entry; unreadable storage gives none. */
  lemma LoadCategoryTitlesSpec(slot: Slot)
    ensures forall t :: t in LoadCategoryTitles(slot) ==> Truthy(t)
    ensures forall t :: t in LoadCategoryTitles(slot) ==> exists i :: 0 <= i < |slot.value.elems| && TitleOf(slot.value.elems[i]) == t
    ensures !(slot.Stored? && slot.value.Arr?) ==> LoadCategoryTitles(slot) == []
    ensures FormCategories(LoadCategoryTitles(slot)) != []
  {
    if slot.Stored? && slot.value.Arr? && NoNullItem(slot.value.elems) {
      var xs := slot.value.elems;
      var ts := seq(|xs|, i requires 0 <= i < |xs| => TitleOf(xs[i]));
      forall t | t in LoadCategoryTitles(slot)
        ensures exists i :: 0 <= i < |xs| && TitleOf(xs[i]) == t
      {
        assert t in ts;
        var i :| 0 <= i < |ts| && ts[i] == t;
        assert TitleOf(xs[i]) == t;
      }
    }
  }

  /**
   * The product form offers exactly the titles of the categories the category
   * manager saved, in their order.
   */
  lemma ManagedTitlesOffered(cats: seq<Category>)
    requires AdminCategories.Titled(cats)
    ensures LoadCategoryTitles(AdminCategories.Saved(cats)) == seq(|cats|, i requires 0 <= i < |cats| => cats[i].title)
  {
    var xs := EncodeAll(cats);
    var ts := seq(|xs|, i requires 0 <= i < |xs| => TitleOf(xs[i]));
    forall i | 0 <= i < |xs|
      ensures !IsNullish(xs[i]) && ts[i] == cats[i].title && Truthy(ts[i])
    {
      assert xs[i] == Encode(cats[i]);
    }
    FilterAll(ts, Truthy);
    assert ts == seq(|cats|, i requires 0 <= i < |cats| => cats[i].title);
  }

  // ---------------------------------------------------- search and headings

  /** The debounced query: `searchTerm.trim().toLowerCase()`. */
  function Query(searchTerm: string): string {
    Lower(Trim(searchTerm))
  }

  /** `(p[key] || "").toLowerCase()` */
  function FieldText(p: Value, key: string): string {
    Lower(ToStr(Or(Get(p, key), Str(""))))
  }

  predicate ProductMatches(p: Value, q: string) {
    Contains(FieldText(p, "title"), q) || Contains(FieldText(p, "desc"), q) || Contains(FieldText(p, "category"), q)
  }

  /**
   * `filtered`: the whole list for an empty query, else the products whose
   * title, description or category contains it; `None` when it throws, on a
   * null or undefined product.
   */
  function Filtered(items: seq<Value>, q: string): Option<seq<Value>> {
    if q == "" then Some(items)
    else if !NoNullItem(items) then None
    else Some(Filter(items, (p: Value) => ProductMatches(p, q)))
  }

  /** The search keeps, in order, exactly the matching products, and an empty query keeps them all. */
  lemma FilteredSpec(items: seq<Value>, q: string)
    ensures q == "" ==> Filtered(items, q) == Some(items)
    ensures q != "" ==> (Filtered(items, q).Some? <==> NoNullItem(items))
    ensures q != "" && Filtered(items, q).Some? ==>
              && (forall p :: p in Filtered(items, q).value <==> p in items && ProductMatches(p, q))
              && |Filtered(items, q).value| <= |items|
  {
  }

  /** `filtered.map(p => p.category)` */
  function CategoriesOf(items: seq<Value>): (r: seq<Value>)
    ensures |r| == |items| && forall i :: 0 <= i < |items| ==> r[i] == Get(items[i], "category")
  {
    seq(|items|, i requires 0 <= i < |items| => Get(items[i], "category"))
  }

  /** No two elements are SameValueZero: what a `Set` holds. */
  predicate Apart(s: seq<Value>) {
    forall i, j :: 0 <= i < j < |s| ==> !SameValueZero(s[i], s[j])
  }

  /**
   * What `new Set(s)` iterates: each element whose SameValueZero equal is
   * not already in the set, in order, so every object or array is kept.
   */
  function SetOrder(s: seq<Value>): (r: seq<Value>)
    ensures forall x :: x in r <==> x in s
    ensures Apart(r)
    decreases |s|
  {
    if s == [] then []
    else
      var n := |s| - 1;
      var prev := SetOrder(s[..n]);
      assert s == s[..n] + [s[n]];
      if !IsReference(s[n]) && s[n] in prev then prev else prev + [s[n]]
  }

  /** The set keeps every object and array of the sequence, in order. */
  lemma {:induction false} SetOrderKeepsReferences(s: seq<Value>)
    ensures Filter(SetOrder(s), IsReference) == Filter(s, IsReference)
    decreases |s|
  {
    if s != [] {
      var n := |s| - 1;
      var front, x := s[..n], s[n];
      assert s == front + [x];
      var prev := SetOrder(front);
      SetOrderKeepsReferences(front);
      FilterSnoc(front, x, IsReference);
      if !IsReference(x) && x in prev {
        assert SetOrder(s) == prev;
      } else {
        assert SetOrder(s) == prev + [x];
        FilterSnoc(prev, x, IsReference);
      }
    }
  }

  /** Filtering keeps elements that are pairwise not SameValueZero apart. */
  lemma {:induction false} FilterApart(s: seq<Value>, keep: Value -> bool)
    requires Apart(s)
    ensures Apart(Filter(s, keep))
    decreases |s|
  {
    if s != [] {
      var n := |s| - 1;
      var front := s[..n];
      assert Apart(front) by {
        assert forall i :: 0 <= i < |front| ==> front[i] == s[i];
      }
      FilterApart(front, keep);
      var f := Filter(front, keep);
      forall i | 0 <= i < |f|
        ensures !SameValueZero(f[i], s[n])
      {
        assert f[i] in front;
        var k :| 0 <= k < |front| && front[k] == f[i];
        assert s[k] == f[i];
      }
      if keep(s[n]) {
        assert Filter(s, keep) == f + [s[n]];
        ApartSnoc(f, s[n]);
      } else {
        assert Filter(s, keep) == f;
      }
    }
  }

  lemma ApartSnoc(f: seq<Value>, x: Value)
    requires Apart(f) && forall i :: 0 <= i < |f| ==> !SameValueZero(f[i], x)
    ensures Apart(f + [x])
  {
    var r := f + [x];
    forall i, j | 0 <= i < j < |r|
      ensures !SameValueZero(r[i], r[j])
    {
      assert r[i] == f[i];
      if j < |f| {
        assert r[j] == f[j];
      }
    }
  }

  predicate Defined(v: Value) {
    !v.Undefined?
  }

  /** The categories of the shown products other than `undefined`, as the set keeps them, in the order they first occur. */
  function DefinedCategories(filtered: seq<Value>): seq<Value> {
    Filter(SetOrder(CategoriesOf(filtered)), Defined)
  }

  /**
   * `categoriesFromProducts`: the categories as `new Set` keeps them,
   * sorted with `(a, b) => a.localeCompare(b)`. `sort` leaves `undefined` out of the
   * comparisons and puts it last; `localeCompare` is only a method of text,
   * so comparing two defined categories throws when one of them is not text.
   * `None` when it throws: on a null or undefined product, or in that case.
   */
  function CategoriesFromProducts(filtered: seq<Value>): Option<seq<Value>> {
    if !NoNullItem(filtered) then None
    else
      var defined := DefinedCategories(filtered);
      if |defined| >= 2 && exists i :: 0 <= i < |defined| && !defined[i].Str? then None
      else Some(SortBy(defined, Storefront.TextBelow) + (if Undefined in CategoriesOf(filtered) then [Undefined] else []))
  }

  /**
   * The headings throw exactly on a null product or on two defined
   * categories of which one is not text; otherwise they name every category
   * of the shown products once, the defined ones in text order and
   * `undefined` last.
   */
  lemma CategoriesFromProductsSpec(filtered: seq<Value>)
    ensures var defined := DefinedCategories(filtered);
            CategoriesFromProducts(filtered).Some? <==>
              NoNullItem(filtered) && (|defined| < 2 || forall i :: 0 <= i < |defined| ==> defined[i].Str?)
    ensures CategoriesFromProducts(filtered).Some? ==>
              var r := CategoriesFromProducts(filtered).value;
              && Distinct(r)
              && (forall c :: c in r <==> c in CategoriesOf(filtered))
              && (forall i, j :: 0 <= i < j < |r| && r[j] != Undefined ==> r[i] != Undefined && !Storefront.TextBelow(r[j], r[i]))
  {
    if CategoriesFromProducts(filtered).Some? {
      var defined := DefinedCategories(filtered);
      var sorted := SortBy(defined, Storefront.TextBelow);
      var hasUndefined := Undefined in CategoriesOf(filtered);
      assert CategoriesFromProducts(filtered).value == sorted + (if hasUndefined then [Undefined] else []);
      DefinedCategoriesSpec(filtered);
      Storefront.TextBelowWeak();
      SortBySorted(defined, Storefront.TextBelow);
      HeadingsShape(defined, sorted, hasUndefined);
    }
  }

  /**
   * No two defined categories are SameValueZero, and they are the categories
   * of the shown products other than `undefined`; when they are all text,
   * they are distinct.
   */
  lemma DefinedCategoriesSpec(filtered: seq<Value>)
    ensures var defined := DefinedCategories(filtered);
            && Apart(defined)
            && (forall i :: 0 <= i < |defined| ==> Defined(defined[i]))
            && (forall c :: c in defined <==> c in CategoriesOf(filtered) && Defined(c))
            && ((|defined| < 2 || forall i :: 0 <= i < |defined| ==> defined[i].Str?) ==> Distinct(defined))
  {
    var kept := SetOrder(CategoriesOf(filtered));
    var defined := DefinedCategories(filtered);
    assert defined == Filter(kept, Defined);
    FilterApart(kept, Defined);
    forall i | 0 <= i < |defined|
      ensures Defined(defined[i])
    {
      assert defined[i] in defined;
    }
    if forall i :: 0 <= i < |defined| ==> defined[i].Str? {
      forall i, j | 0 <= i < j < |defined|
        ensures defined[i] != defined[j]
      {
        assert !SameValueZero(defined[i], defined[j]) && defined[i].Str?;
      }
    }
  }

  /**
   * Two products whose categories are objects, however alike, give the set
   * two entries, and sorting them calls `localeCompare` on an object.
   */
  lemma ObjectCategoriesThrow(a: Value, b: Value)
    requires !IsNullish(a) && !IsNullish(b)
    requires IsReference(Get(a, "category")) && IsReference(Get(b, "category"))
    ensures CategoriesFromProducts([a, b]) == None
  {
    var filtered := [a, b];
    assert NoNullItem(filtered) by {
      assert filtered[0] == a && filtered[1] == b;
    }
    TwoReferenceCategories(filtered);
    NonTextCategoryThrows(filtered, 0);
  }

  /** Two products with object or array categories keep both in the set. */
  lemma TwoReferenceCategories(filtered: seq<Value>)
    requires |filtered| == 2
    requires IsReference(Get(filtered[0], "category")) && IsReference(Get(filtered[1], "category"))
    ensures DefinedCategories(filtered) == [Get(filtered[0], "category"), Get(filtered[1], "category")]
  {
    var x, y := Get(filtered[0], "category"), Get(filtered[1], "category");
    var cats := CategoriesOf(filtered);
    assert cats == [x, y];
    SetOfTwoReferences(x, y);
    FilterAll([x, y], Defined);
  }

  /** A defined category other than text among two or more makes the sort throw. */
  lemma NonTextCategoryThrows(filtered: seq<Value>, k: int)
    requires NoNullItem(filtered)
    requires 0 <= k < |DefinedCategories(filtered)| && |DefinedCategories(filtered)| >= 2
    requires !DefinedCategories(filtered)[k].Str?
    ensures CategoriesFromProducts(filtered) == None
  {
  }

  lemma SetOfTwoReferences(x: Value, y: Value)
    requires IsReference(x) && IsReference(y)
    ensures SetOrder([x, y]) == [x, y]
  {
    assert SetOrder([x]) == [x] by {
      assert [x][..0] == [];
    }
    assert [x, y][..1] == [x];
  }

  /** The sorted defined categories followed by `undefined` when it occurs: distinct, the same members, defined ones in order. */
  lemma HeadingsShape(defined: seq<Value>, sorted: seq<Value>, hasUndefined: bool)
    requires Distinct(defined) && forall i :: 0 <= i < |defined| ==> Defined(defined[i])
    requires multiset(sorted) == multiset(defined) && Sorted(sorted, Storefront.TextBelow)
    ensures var r := sorted + (if hasUndefined then [Undefined] else []);
            && Distinct(r)
            && (forall c :: c in r <==> c in defined || (hasUndefined && c == Undefined))
            && (forall i, j :: 0 <= i < j < |r| && r[j] != Undefined ==> r[i] != Undefined && !Storefront.TextBelow(r[j], r[i]))
  {
    var tail: seq<Value> := if hasUndefined then [Undefined] else [];
    var r := sorted + tail;
    DistinctPermutation(sorted, defined);
    forall c
      ensures c in sorted <==> c in defined
    {
      assert c in sorted <==> c in multiset(sorted);
      assert c in defined <==> c in multiset(defined);
    }
    assert Undefined !in defined;
    forall i, j | 0 <= i < j < |r|
      ensures r[i] != r[j]
    {
      if j >= |sorted| {
        assert r[i] == sorted[i] && r[j] == Undefined;
        assert sorted[i] in defined;
      } else {
        assert r[i] == sorted[i] && r[j] == sorted[j];
      }
    }
    forall i, j | 0 <= i < j < |r| && r[j] != Undefined
      ensures r[i] != Undefined && !Storefront.TextBelow(r[j], r[i])
    {
      assert j < |sorted|;
      assert r[i] == sorted[i] && r[j] == sorted[j];
      assert sorted[i] in defined;
    }
  }

  // ------------------------------------------------------------------ the page

  class ProductManager {
    var products: Value
    var categories: seq<Value>
    var store: map<string, Slot>

    /** The list from storage (the demo list, also written back, when there is none) and the form's categories. */
    constructor (initial: map<string, Slot>, suffixes: nat -> string)
      ensures products == InitialAdminProducts(SlotOf(initial, Storefront.ProductsKey), suffixes)
      ensures categories == FormCategories(LoadCategoryTitles(SlotOf(initial, CategoriesKey)))
      ensures store == if SlotOf(initial, Storefront.ProductsKey).Stored? then initial
                       else initial[Storefront.ProductsKey := Stored(products)]
    {
      var slot := SlotOf(initial, Storefront.ProductsKey);
      products := InitialAdminProducts(slot, suffixes);
      categories := FormCategories(LoadCategoryTitles(SlotOf(initial, CategoriesKey)));
      store := if slot.Stored? then initial else initial[Storefront.ProductsKey := Stored(InitialAdminProducts(slot, suffixes))];
    }

    /** The categories key changed: the form's choices are read again. */
    method ReloadCategories()
      modifies this
      ensures categories == FormCategories(LoadCategoryTitles(SlotOf(store, CategoriesKey)))
      ensures products == old(products) && store == old(store)
    {
      categories := FormCategories(LoadCategoryTitles(SlotOf(store, CategoriesKey)));
    }

    /**
     * The `storage` event of another tab that wrote `slot` under `key`: a
     * change of the categories key reloads the form's choices, and an array
     * written under the products key becomes the list (saved again as it is).
     */
    method StorageChanged(key: string, slot: Slot)
      modifies this
      ensures store == old(store)[key := slot]
      ensures key == CategoriesKey ==> categories == FormCategories(LoadCategoryTitles(slot))
      ensures key != CategoriesKey ==> categories == old(categories)
      ensures key == Storefront.ProductsKey && slot.Stored? && slot.value.Arr? ==> products == slot.value
      ensures !(key == Storefront.ProductsKey && slot.Stored? && slot.value.Arr?) ==> products == old(products)
    {
      store := store[key := slot];
      if key == CategoriesKey {
        ReloadCategories();
      }
      if key == Storefront.ProductsKey && slot.Stored? && slot.value.Arr? {
        products := slot.value;
        store := store[Storefront.ProductsKey := Stored(products)];
      }
    }

    /** `add(p)`: the product goes in front, and the new list is saved. */
    method Add(p: Value)
      modifies this
      ensures old(products).Arr? ==> products == Arr([p] + old(products).elems) && store == old(store)[Storefront.ProductsKey := Stored(products)]
      ensures !old(products).Arr? ==> products == old(products) && store == old(store)
      ensures categories == old(categories)
    {
      if products.Arr? {
        products := Arr([p] + products.elems);
        store := store[Storefront.ProductsKey := Stored(products)];
      }
    }

    method Update(id: Value, data: Value)
      modifies this
      ensures old(products).Arr? && Updated(old(products).elems, id, data).Some? ==>
                products == Arr(Updated(old(products).elems, id, data).value) &&
                store == old(store)[Storefront.ProductsKey := Stored(products)]
      ensures !(old(products).Arr? && Updated(old(products).elems, id, data).Some?) ==>
                products == old(products) && store == old(store)
      ensures categories == old(categories)
    {
      if products.Arr? {
        var r := Updated(products.elems, id, data);
        if r.Some? {
          products := Arr(r.value);
          store := store[Storefront.ProductsKey := Stored(products)];
        }
      }
    }

    method Remove(id: Value)
      modifies this
      ensures old(products).Arr? && Removed(old(products).elems, id).Some? ==>
                products == Arr(Removed(old(products).elems, id).value) &&
                store == old(store)[Storefront.ProductsKey := Stored(products)]
      ensures !(old(products).Arr? && Removed(old(products).elems, id).Some?) ==>
                products == old(products) && store == old(store)
      ensures categories == old(categories)
    {
      if products.Arr? {
        var r := Removed(products.elems, id);
        if r.Some? {
          products := Arr(r.value);
          store := store[Storefront.ProductsKey := Stored(products)];
        }
      }
    }

    /** "Reset Demo": the demo list replaces the products and is saved. */
    method ResetDemo(suffixes: nat -> string)
      modifies this
      ensures products == Arr(SampleProducts(suffixes)) && store == old(store)[Storefront.ProductsKey := Stored(products)]
      ensures categories == old(categories)
    {
      products := Arr(SampleProducts(suffixes));
      store := store[Storefront.ProductsKey := Stored(products)];
    }

    /**
     * The form's `submit` followed by `onFormSubmit`: a refused form changes
     * nothing; a payload updates the product being edited (`editing`, null
     * when adding) by its id, or is added in front.
     */
    method SubmitForm(editing: Value, form: Value, suffix: string) returns (accepted: bool)
      modifies this
      ensures accepted <==> FormPayload(form, Get(editing, "id"), suffix).Some?
      ensures !accepted ==> products == old(products) && store == old(store)
      ensures accepted && Truthy(editing) ==>
                var r := if old(products).Arr? then Updated(old(products).elems, Get(editing, "id"), FormPayload(form, Get(editing, "id"), suffix).value) else None;
                && (r.Some? ==> products == Arr(r.value) && store == old(store)[Storefront.ProductsKey := Stored(products)])
                && (r.None? ==> products == old(products) && store == old(store))
      ensures accepted && !Truthy(editing) && old(products).Arr? ==>
                products == Arr([FormPayload(form, Get(editing, "id"), suffix).value] + old(products).elems) &&
                store == old(store)[Storefront.ProductsKey := Stored(products)]
      ensures accepted && !Truthy(editing) && !old(products).Arr? ==> products == old(products) && store == old(store)
      ensures categories == old(categories)
    {
      var payload := FormPayload(form, Get(editing, "id"), suffix);
      if payload.None? {
        return false;
      }
      accepted := true;
      if Truthy(editing) {
        Update(Get(editing, "id"), payload.value);
      } else {
        Add(payload.value);
      }
    }

    /** `confirmDelete`: a product without a truthy id is not deleted; else every product with its id is. */
    method ConfirmDelete(product: Value)
      modifies this
      ensures !Truthy(Get(product, "id")) ==> products == old(products) && store == old(store)
      ensures Truthy(Get(product, "id")) ==>
                var r := if old(products).Arr? then Removed(old(products).elems, Get(product, "id")) else None;
                && (r.Some? ==> products == Arr(r.value) && store == old(store)[Storefront.ProductsKey := Stored(products)])
                && (r.None? ==> products == old(products) && store == old(store))
      ensures categories == old(categories)
    {
      var id := Get(product, "id");
      if Truthy(id) {
        Remove(id);
      }
    }
  }
}
