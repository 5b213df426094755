/**
 * The shop's products page (src/Pages/Productspage.jsx): the catalogue read
 * from the admin's storage key, its grouping into categories, the category a
 * `/category/<slug>` route selects, and adding a product to the cart.
 */
module Storefront {
  import opened Options
  import opened Text
  import opened Js
  import opened Order
  import opened Slugs
  import opened CartLines
  import opened CartAdd

  const ProductsKey := "admin_products_v1"

  /** A catalogue entry as the page holds it. */
  datatype Product = Product(id: Value, title: Value, desc: Value, img: Value, price: Value,
                             original: Value, category: Value, featured: Value)

  // ------------------------------------------------------ reading the catalogue

  /** `typeof v === "number" ? v : Number(v) || d` */
  function NumberField(v: Value, d: int): (r: Value)
    ensures IsNumber(r)
  {
    if IsNumber(v) then v else Num(NumberOr(v, d))
  }

  /** One stored entry, filled in as `normaliseStoredProducts` does for position `idx`; the entry is not null or undefined. */
  function NormaliseProduct(p: Value, idx: nat): Product {
    Product(
      Coalesce(Get(p, "id"), Str("p_" + NatToString(idx))),
      Coalesce(Get(p, "title"), Coalesce(Get(p, "name"), Str("Item " + NatToString(idx + 1)))),
      Coalesce(Get(p, "desc"), Str("")),
      Coalesce(Get(p, "img"), Coalesce(Get(p, "image"), Str("/images/default-" + NatToString(idx % 6 + 1) + ".jpg"))),
      NumberField(Get(p, "price"), 0),
      NumberField(Get(p, "original"), NumberOr(Get(p, "price"), 0)),
      Coalesce(Get(p, "category"), Str("Uncategorized")),
      Bool(Truthy(Get(p, "featured"))))
  }

  /**
   * `normaliseStoredProducts(raw)`: `None` (the function's `null`) when the
   * text does not parse, is not an array, or holds a null or undefined entry
   * (reading its `id` throws inside the `try`).
   */
  function NormaliseStoredProducts(slot: Slot): Option<seq<Product>> {
    if !slot.Stored? || !slot.value.Arr? then None
    else
      var xs := slot.value.elems;
      if exists i :: 0 <= i < |xs| && IsNullish(xs[i]) then None
      else Some(seq(|xs|, i requires 0 <= i < |xs| => NormaliseProduct(xs[i], i)))
  }

  /**
   * The outcome of reading the catalogue: it keeps length and position, gives
   * missing ids `p_<idx>` and missing categories "Uncategorized", reads prices
   * as numbers, defaults `original` to the price, and makes `featured` a boolean.
   */
  lemma NormaliseSpec(slot: Slot)
    ensures NormaliseStoredProducts(slot).Some? <==>
              slot.Stored? && slot.value.Arr? && forall i :: 0 <= i < |slot.value.elems| ==> !IsNullish(slot.value.elems[i])
    ensures NormaliseStoredProducts(slot).Some? ==>
              var xs, ps := slot.value.elems, NormaliseStoredProducts(slot).value;
              && |ps| == |xs|
              && (forall i :: 0 <= i < |ps| ==>
                    && (IsNullish(Get(xs[i], "id")) ==> ps[i].id == Str("p_" + NatToString(i)))
                    && (!IsNullish(Get(xs[i], "id")) ==> ps[i].id == Get(xs[i], "id"))
                    && !IsNullish(ps[i].id) && IsNumber(ps[i].price) && IsNumber(ps[i].original)
                    && (Get(xs[i], "price").Num? ==> ps[i].price == Get(xs[i], "price"))
                    && (!IsNumber(Get(xs[i], "price")) && !Truthy(ToNumber(Get(xs[i], "price"))) ==> ps[i].price == Num(0))
                    && (!IsNumber(Get(xs[i], "original")) && !Truthy(ToNumber(Get(xs[i], "original"))) ==>
                          ps[i].original == Num(NumberOr(Get(xs[i], "price"), 0)))
                    && (IsNullish(Get(xs[i], "category")) ==> ps[i].category == Str("Uncategorized"))
                    && ps[i].featured.Bool?)
  {
  }

  /** The six demo categories, and the order the page lists categories in. */
  const Preferred: seq<string> := ["Starters", "Pizzas", "Burgers", "Biryani", "Desserts", "Drinks"]

  /** Demo item `i` (0 to 5) of category `c`; `featured` is absent. */
  function SampleProduct(c: string, i: nat, id: string): Product {
    Product(
      Str(id),
      Str(c + " Item " + NatToString(i + 1)),
      Str(if i % 2 == 0 then "Crispy, fresh and delicious." else "Rich flavour, best served hot."),
      Str("/images/" + Lower(c) + "-" + NatToString(i % 6 + 1) + ".jpg"),
      Num(120 + (i + 1) * 30),
      Num(150 + (i + 1) * 30),
      Str(c),
      Undefined)
  }

  /** `sampleProducts()`: six items for each demo category, in order; `uid(k)` is the fresh id of the `k`-th. */
  function SampleProducts(uid: nat -> string): (r: seq<Product>)
    ensures |r| == 36
    ensures forall k :: 0 <= k < 36 ==> r[k].category == Str(Preferred[SampleCategory(k)]) && r[k].id == Str(uid(k))
    ensures forall k :: 0 <= k < 36 ==> r[k].price.Num? && r[k].original.Num? && r[k].original.n == r[k].price.n + 30
  {
    var r := seq(36, k requires 0 <= k < 36 => SampleProduct(Preferred[SampleCategory(k)], k % 6, uid(k)));
    assert forall k :: 0 <= k < 36 ==> r[k] == SampleProduct(Preferred[SampleCategory(k)], k % 6, uid(k));
    r
  }

  function SampleCategory(k: nat): (c: nat)
    requires k < 36
    ensures c < 6 && c == k / 6
  {
    k / 6
  }

  /** The catalogue the page starts with: the stored one when it reads as a non-empty list, else the demo items. */
  function InitialProducts(slot: Slot, uid: nat -> string): (r: seq<Product>)
    ensures NormaliseStoredProducts(slot).Some? && NormaliseStoredProducts(slot).value != [] ==>
              r == NormaliseStoredProducts(slot).value
    ensures !(NormaliseStoredProducts(slot).Some? && NormaliseStoredProducts(slot).value != []) ==>
              r == SampleProducts(uid)
  {
    var parsed := NormaliseStoredProducts(slot);
    if parsed.Some? && parsed.value != [] then parsed.value else SampleProducts(uid)
  }

  /** The "Save" badge: `Math.max(0, (original || price) - price)`. */
  function Save(p: Product): (r: Value)
    ensures IsNumber(r) && (r.Num? ==> r.n >= 0)
  {
    MaxZero(Minus(Or(p.original, p.price), p.price))
  }

  /** With numeric prices the badge shows how far the price is below the original, and 0 without an original. */
  lemma SaveAmount(p: Product, price: int, original: int)
    requires p.price == Num(price) && p.original == Num(original)
    ensures original != 0 ==> Save(p) == Num(if original - price < 0 then 0 else original - price)
    ensures original == 0 ==> Save(p) == Num(0)
  {
  }

  // ------------------------------------------------------ grouping by category

  datatype Group = Group(name: Value, items: seq<Product>)

  /** `p.category || "Uncategorized"` */
  function CategoryOf(p: Product): Value {
    Or(p.category, Str("Uncategorized"))
  }

  /** The distinct categories, in order of first appearance (the insertion order of the page's `Map`). */
  function Names(ps: seq<Product>): seq<Value>
    decreases |ps|
  {
    if ps == [] then []
    else
      var n := |ps| - 1;
      var prev := Names(ps[..n]);
      var c := CategoryOf(ps[n]);
      if c in prev then prev else prev + [c]
  }

  /** Each category occurs once among the names, and the names are exactly the products' categories. */
  lemma {:induction false} NamesSpec(ps: seq<Product>)
    ensures Distinct(Names(ps))
    ensures forall i :: 0 <= i < |ps| ==> CategoryOf(ps[i]) in Names(ps)
    ensures forall c :: c in Names(ps) ==> exists i :: 0 <= i < |ps| && CategoryOf(ps[i]) == c
    decreases |ps|
  {
    if ps != [] {
      var n := |ps| - 1;
      var prev, c := Names(ps[..n]), CategoryOf(ps[n]);
      NamesSpec(ps[..n]);
      assert forall i :: 0 <= i < n ==> ps[..n][i] == ps[i];
      if c !in prev {
        DistinctSnoc(prev, c);
      }
    }
  }

  lemma DistinctSnoc(s: seq<Value>, x: Value)
    requires Distinct(s) && x !in s
    ensures Distinct(s + [x])
  {
    var t := s + [x];
    forall i, j | 0 <= i < j < |t|
      ensures t[i] != t[j]
    {
      if j == |s| {
        assert t[i] == s[i];
      }
    }
  }

  /** The products of category `c`, in catalogue order. */
  function Members(ps: seq<Product>, c: Value): seq<Product>
    decreases |ps|
  {
    if ps == [] then []
    else
      var n := |ps| - 1;
      Members(ps[..n], c) + (if CategoryOf(ps[n]) == c then [ps[n]] else [])
  }

  lemma MembersSnoc(ps: seq<Product>, p: Product)
    ensures forall c :: Members(ps + [p], c) == Members(ps, c) + (if CategoryOf(p) == c then [p] else [])
  {
    assert (ps + [p])[..|ps|] == ps;
  }

  /** A category no product has has no members. */
  lemma MembersOutside(ps: seq<Product>, c: Value)
    requires c !in Names(ps)
    ensures Members(ps, c) == []
  {
    NamesSpec(ps);
    MembersSpec(ps, c);
  }

  lemma {:induction false} MembersSpec(ps: seq<Product>, c: Value)
    ensures forall p :: p in Members(ps, c) <==> p in ps && CategoryOf(p) == c
    decreases |ps|
  {
    if ps != [] {
      var n := |ps| - 1;
      MembersSpec(ps[..n], c);
      assert ps == ps[..n] + [ps[n]];
    }
  }

  predicate IsPreferred(c: Value) {
    c.Str? && c.s in Preferred
  }

  predicate NotPreferred(c: Value) {
    !IsPreferred(c)
  }

  /** The preferred names as the `Map`'s keys. */
  const PreferredKeys: seq<Value> := seq(|Preferred|, i requires 0 <= i < |Preferred| => Str(Preferred[i]))

  /** A category's place in the preferred order; 6 for all the others. */
  function Rank(c: Value): nat {
    if c == Str("Starters") then 0
    else if c == Str("Pizzas") then 1
    else if c == Str("Burgers") then 2
    else if c == Str("Biryani") then 3
    else if c == Str("Desserts") then 4
    else if c == Str("Drinks") then 5
    else 6
  }

  /** The candidates that occur among `names`, in the candidates' order. */
  function Present(cands: seq<Value>, names: seq<Value>): (r: seq<Value>)
    ensures forall c :: c in r <==> c in cands && c in names
    decreases |cands|
  {
    if cands == [] then []
    else
      var n := |cands| - 1;
      assert cands == cands[..n] + [cands[n]];
      Present(cands[..n], names) + (if cands[n] in names then [cands[n]] else [])
  }

  predicate Ranked(s: seq<Value>) {
    forall i, j :: 0 <= i < j < |s| ==> Rank(s[i]) < Rank(s[j])
  }

  lemma {:induction false} PresentRanked(cands: seq<Value>, names: seq<Value>)
    requires Ranked(cands)
    ensures Ranked(Present(cands, names))
    decreases |cands|
  {
    if cands != [] {
      var n := |cands| - 1;
      assert Ranked(cands[..n]);
      PresentRanked(cands[..n], names);
      var front := Present(cands[..n], names);
      forall i | 0 <= i < |front|
        ensures Rank(front[i]) < Rank(cands[n])
      {
        assert front[i] in cands[..n];
      }
    }
  }

  lemma PreferredRanked()
    ensures Ranked(PreferredKeys)
    ensures forall c :: c in PreferredKeys <==> IsPreferred(c)
    ensures forall c :: IsPreferred(c) <==> Rank(c) < 6
  {
    assert forall i :: 0 <= i < 6 ==> Rank(PreferredKeys[i]) == i;
    forall c | IsPreferred(c)
      ensures c in PreferredKeys
    {
      var i :| 0 <= i < |Preferred| && Preferred[i] == c.s;
      assert PreferredKeys[i] == c;
    }
  }

  /** `.sort()` compares the `String` forms of the keys. */
  predicate TextBelow(a: Value, b: Value) {
    Below(ToStr(a), ToStr(b))
  }

  lemma TextBelowWeak()
    ensures Weak(TextBelow)
  {
    forall a, b | TextBelow(a, b)
      ensures !TextBelow(b, a)
    {
      if TextBelow(b, a) {
        BelowTransitive(ToStr(a), ToStr(b), ToStr(a));
        BelowIrreflexive(ToStr(a));
      }
    }
    forall a, b, c | !TextBelow(a, b) && !TextBelow(b, c)
      ensures !TextBelow(a, c)
    {
      NotBelowTransitive(ToStr(a), ToStr(b), ToStr(c));
    }
  }

  /** The order of the groups: the preferred names that occur, then all other names sorted. */
  function GroupOrder(names: seq<Value>): seq<Value> {
    Present(PreferredKeys, names) + SortBy(Filter(names, NotPreferred), TextBelow)
  }

  function GroupsFor(names: seq<Value>, ps: seq<Product>): (r: seq<Group>)
    ensures |r| == |names|
    ensures forall i :: 0 <= i < |names| ==> r[i] == Group(names[i], Members(ps, names[i]))
  {
    seq(|names|, i requires 0 <= i < |names| => Group(names[i], Members(ps, names[i])))
  }

  lemma GroupsForAppend(a: seq<Value>, b: seq<Value>, ps: seq<Product>)
    ensures GroupsFor(a + b, ps) == GroupsFor(a, ps) + GroupsFor(b, ps)
  {
  }

  /** The category list the page renders. */
  function Grouped(ps: seq<Product>): seq<Group> {
    GroupsFor(GroupOrder(Names(ps)), ps)
  }

  /** The map of the loop as it leaves `products[..i]` behind. */
  ghost predicate Buckets(b: map<Value, seq<Product>>, keys: seq<Value>, ps: seq<Product>) {
    && (forall c :: c in b <==> c in keys)
    && (forall c :: c in b ==> b[c] == Members(ps, c))
  }

  /** The first pass of the `categories` memo: `map.set(cat, [])` for a new category, then `map.get(cat).push(p)`. */
  method FillBuckets(products: seq<Product>) returns (keys: seq<Value>, buckets: map<Value, seq<Product>>)
    ensures keys == Names(products)
    ensures Buckets(buckets, keys, products)
  {
    keys, buckets := [], map[];
    var i := 0;
    while i < |products|
      invariant 0 <= i <= |products|
      invariant keys == Names(products[..i])
      invariant Buckets(buckets, keys, products[..i])
    {
      var p := products[i];
      var cat := CategoryOf(p);
      assert products[..i + 1] == products[..i] + [p];
      assert (products[..i] + [p])[..i] == products[..i];
      MembersSnoc(products[..i], p);
      if cat !in buckets {
        MembersOutside(products[..i], cat);
        buckets := buckets[cat := []];
        keys := keys + [cat];
      }
      buckets := buckets[cat := buckets[cat] + [p]];
      i := i + 1;
    }
    assert products[..|products|] == products;
  }

  /** How far the second pass has got: the groups of the first `j` preferred names, and the map without them. */
  ghost predicate Taken(seen: seq<Value>, names: seq<Value>, products: seq<Product>, groups: seq<Group>, buckets: map<Value, seq<Product>>) {
    && groups == GroupsFor(Present(seen, names), products)
    && (forall c :: c in buckets <==> c in names && c !in seen)
    && (forall c :: c in buckets ==> buckets[c] == Members(products, c))
  }

  /** The second pass: each preferred name the map has becomes a group and leaves the map. */
  method TakePreferred(names: seq<Value>, products: seq<Product>, buckets0: map<Value, seq<Product>>)
    returns (groups: seq<Group>, buckets: map<Value, seq<Product>>)
    requires Buckets(buckets0, names, products)
    ensures groups == GroupsFor(Present(PreferredKeys, names), products)
    ensures forall c :: c in buckets <==> c in names && !IsPreferred(c)
    ensures forall c :: c in buckets ==> buckets[c] == Members(products, c)
  {
    groups, buckets := [], buckets0;
    var j := 0;
    while j < |Preferred|
      invariant 0 <= j <= |Preferred|
      invariant Taken(PreferredKeys[..j], names, products, groups, buckets)
    {
      var o := Str(Preferred[j]);
      TakeStep(j, names, products, groups, buckets);
      if o in buckets {
        groups := groups + [Group(o, buckets[o])];
        buckets := buckets - {o};
      }
      j := j + 1;
    }
    TakeDone(names, products, groups, buckets);
  }

  lemma TakeStep(j: nat, names: seq<Value>, products: seq<Product>, groups: seq<Group>, buckets: map<Value, seq<Product>>)
    requires j < |Preferred| && Taken(PreferredKeys[..j], names, products, groups, buckets)
    ensures var o := Str(Preferred[j]);
            if o in buckets then Taken(PreferredKeys[..j + 1], names, products, groups + [Group(o, buckets[o])], buckets - {o})
            else Taken(PreferredKeys[..j + 1], names, products, groups, buckets)
  {
    PreferredStep(j, names);
    TakeOne(PreferredKeys[..j], PreferredKeys[j], names, products, groups, buckets);
  }

  /** Considering one more name that has not been considered before. */
  lemma TakeOne(seen: seq<Value>, o: Value, names: seq<Value>, products: seq<Product>, groups: seq<Group>, buckets: map<Value, seq<Product>>)
    requires o !in seen && Taken(seen, names, products, groups, buckets)
    ensures if o in buckets then Taken(seen + [o], names, products, groups + [Group(o, buckets[o])], buckets - {o})
            else Taken(seen + [o], names, products, groups, buckets)
  {
    TakeGroups(seen, o, names, products, groups);
    if o in buckets {
      var rest := buckets - {o};
      assert forall c :: c in rest ==> c in buckets && rest[c] == buckets[c];
    }
  }

  lemma TakeDone(names: seq<Value>, products: seq<Product>, groups: seq<Group>, buckets: map<Value, seq<Product>>)
    requires Taken(PreferredKeys[..|Preferred|], names, products, groups, buckets)
    ensures groups == GroupsFor(Present(PreferredKeys, names), products)
    ensures forall c :: c in buckets <==> c in names && !IsPreferred(c)
  {
    assert PreferredKeys[..|Preferred|] == PreferredKeys;
    PreferredRanked();
  }

  lemma PresentSnoc(cands: seq<Value>, x: Value, names: seq<Value>)
    ensures Present(cands + [x], names) == Present(cands, names) + (if x in names then [x] else [])
  {
    assert (cands + [x])[..|cands|] == cands;
  }

  lemma TakeGroups(cands: seq<Value>, o: Value, names: seq<Value>, products: seq<Product>, groups: seq<Group>)
    requires groups == GroupsFor(Present(cands, names), products)
    ensures (if o in names then groups + [Group(o, Members(products, o))] else groups)
            == GroupsFor(Present(cands + [o], names), products)
  {
    var a := Present(cands, names);
    PresentSnoc(cands, o, names);
    if o in names {
      GroupsForAppend(a, [o], products);
      assert GroupsFor([o], products) == [Group(o, Members(products, o))];
    }
  }

  /** One more preferred name considered. */
  lemma PreferredStep(j: nat, names: seq<Value>)
    requires j < |Preferred|
    ensures PreferredKeys[j] == Str(Preferred[j])
    ensures PreferredKeys[j] !in PreferredKeys[..j]
    ensures PreferredKeys[..j + 1] == PreferredKeys[..j] + [PreferredKeys[j]]
    ensures forall c :: c in PreferredKeys[..j + 1] <==> c in PreferredKeys[..j] || c == PreferredKeys[j]
  {
    PreferredRanked();
    assert PreferredKeys[..j + 1] == PreferredKeys[..j] + [PreferredKeys[j]];
  }

  /** The last pass: the names left in the map, sorted, each with its products. */
  method AppendRest(front: seq<Group>, rest: seq<Value>, products: seq<Product>, buckets: map<Value, seq<Product>>)
    returns (groups: seq<Group>)
    requires forall c :: c in rest ==> c in buckets && buckets[c] == Members(products, c)
    ensures groups == front + GroupsFor(rest, products)
  {
    groups := front;
    var m := 0;
    while m < |rest|
      invariant 0 <= m <= |rest|
      invariant groups == front + GroupsFor(rest[..m], products)
    {
      assert rest[m] in rest;
      assert rest[..m + 1] == rest[..m] + [rest[m]];
      GroupsForAppend(rest[..m], [rest[m]], products);
      groups := groups + [Group(rest[m], buckets[rest[m]])];
      m := m + 1;
    }
    assert rest[..|rest|] == rest;
  }

  /** The page's `categories` memo: fill the `Map`, move the preferred names to the front, then the rest sorted. */
  method GroupByCategory(products: seq<Product>) returns (groups: seq<Group>)
    ensures groups == Grouped(products)
  {
    var keys, buckets := FillBuckets(products);
    var front, left := TakePreferred(keys, products, buckets);
    var rest := SortBy(Filter(keys, NotPreferred), TextBelow);
    RestInBuckets(keys, rest);
    groups := AppendRest(front, rest, products, left);
    GroupsForAppend(Present(PreferredKeys, keys), rest, products);
  }

  lemma RestInBuckets(names: seq<Value>, rest: seq<Value>)
    requires rest == SortBy(Filter(names, NotPreferred), TextBelow)
    ensures forall c :: c in rest ==> c in names && !IsPreferred(c)
  {
    forall c | c in rest
      ensures c in names && !IsPreferred(c)
    {
      assert c in multiset(rest);
      assert c in Filter(names, NotPreferred);
    }
  }

  /** The two parts of the group order: the preferred names present, ranked, and the others, sorted; no name twice. */
  lemma GroupOrderSpec(names: seq<Value>)
    requires Distinct(names)
    ensures var p, rest := Present(PreferredKeys, names), SortBy(Filter(names, NotPreferred), TextBelow);
            && GroupOrder(names) == p + rest
            && Ranked(p) && Sorted(rest, TextBelow)
            && (forall c :: c in p <==> c in names && IsPreferred(c))
            && (forall c :: c in rest <==> c in names && !IsPreferred(c))
            && Distinct(GroupOrder(names))
  {
    var p, kept := Present(PreferredKeys, names), Filter(names, NotPreferred);
    var rest := SortBy(kept, TextBelow);
    PreferredRanked();
    PresentRanked(PreferredKeys, names);
    TextBelowWeak();
    SortBySorted(kept, TextBelow);
    FilterDistinct(names, NotPreferred);
    DistinctPermutation(rest, kept);
    forall c
      ensures c in rest <==> c in kept
    {
      assert c in rest <==> c in multiset(rest);
      assert c in kept <==> c in multiset(kept);
    }
    var order := p + rest;
    forall i, j | 0 <= i < j < |order|
      ensures order[i] != order[j]
    {
      if j < |p| {
        assert Rank(p[i]) < Rank(p[j]);
      } else if i >= |p| {
        assert order[i] == rest[i - |p|] && order[j] == rest[j - |p|];
      } else {
        assert order[i] in p && order[j] == rest[j - |p|] && order[j] in rest;
      }
    }
  }

  /** Every name in the group order is a category some product has. */
  lemma GroupOrderNames(ps: seq<Product>)
    ensures Distinct(GroupOrder(Names(ps)))
    ensures forall c :: c in GroupOrder(Names(ps)) <==> c in Names(ps)
  {
    var names := Names(ps);
    NamesSpec(ps);
    GroupOrderSpec(names);
    var p := Present(PreferredKeys, names);
    var rest := SortBy(Filter(names, NotPreferred), TextBelow);
    assert forall c :: c in GroupOrder(names) <==> c in p || c in rest;
  }

  /**
   * The page's category list, group by group: names are distinct and each
   * group holds exactly the products of its category, in catalogue order, so
   * no group is empty.
   */
  lemma GroupedGroups(ps: seq<Product>)
    ensures var g := Grouped(ps);
            && (forall i, j :: 0 <= i < j < |g| ==> g[i].name != g[j].name)
            && (forall i :: 0 <= i < |g| ==> g[i].items == Members(ps, g[i].name) && g[i].items != [])
            && (forall i, p :: 0 <= i < |g| ==> (p in g[i].items <==> p in ps && CategoryOf(p) == g[i].name))
  {
    var g := Grouped(ps);
    var order := GroupOrder(Names(ps));
    GroupOrderNames(ps);
    NamesSpec(ps);
    forall i | 0 <= i < |g|
      ensures g[i].items != []
      ensures forall x :: x in g[i].items <==> x in ps && CategoryOf(x) == g[i].name
    {
      MembersSpec(ps, order[i]);
      assert order[i] in Names(ps);
      var k :| 0 <= k < |ps| && CategoryOf(ps[k]) == order[i];
      assert ps[k] in g[i].items;
    }
  }

  /** Every product's category names a group, so every product is shown in exactly one group. */
  lemma GroupedCovers(ps: seq<Product>)
    ensures forall k :: 0 <= k < |ps| ==> exists i :: 0 <= i < |Grouped(ps)| && Grouped(ps)[i].name == CategoryOf(ps[k])
  {
    var g := Grouped(ps);
    var order := GroupOrder(Names(ps));
    GroupOrderNames(ps);
    NamesSpec(ps);
    forall k | 0 <= k < |ps|
      ensures exists i :: 0 <= i < |g| && g[i].name == CategoryOf(ps[k])
    {
      var c := CategoryOf(ps[k]);
      assert c in order;
      var i :| 0 <= i < |order| && order[i] == c;
      assert g[i].name == c;
    }
  }

  /**
   * The order of the page's category list: the first `f` groups are exactly
   * the preferred ones, in their fixed order; the others follow sorted by
   * their text.
   */
  lemma GroupedOrder(ps: seq<Product>)
    ensures var g, f := Grouped(ps), |Present(PreferredKeys, Names(ps))|;
            && f <= |g|
            && (forall i :: 0 <= i < |g| ==> (i < f <==> IsPreferred(g[i].name)))
            && (forall i, j :: 0 <= i < j < f ==> Rank(g[i].name) < Rank(g[j].name))
            && (forall i, j :: f <= i < j < |g| ==> !TextBelow(g[j].name, g[i].name))
  {
    var names := Names(ps);
    NamesSpec(ps);
    GroupOrderSpec(names);
    SplitOrder(Present(PreferredKeys, names), SortBy(Filter(names, NotPreferred), TextBelow), ps);
  }

  /** Groups for a ranked run of preferred names followed by a sorted run of the others. */
  lemma SplitOrder(p: seq<Value>, rest: seq<Value>, ps: seq<Product>)
    requires Ranked(p) && Sorted(rest, TextBelow)
    requires forall c :: c in p ==> IsPreferred(c)
    requires forall c :: c in rest ==> !IsPreferred(c)
    ensures var g, f := GroupsFor(p + rest, ps), |p|;
            && f <= |g|
            && (forall i :: 0 <= i < |g| ==> (i < f <==> IsPreferred(g[i].name)))
            && (forall i, j :: 0 <= i < j < f ==> Rank(g[i].name) < Rank(g[j].name))
            && (forall i, j :: f <= i < j < |g| ==> !TextBelow(g[j].name, g[i].name))
  {
    var order := p + rest;
    var g := GroupsFor(order, ps);
    forall i | 0 <= i < |g|
      ensures i < |p| <==> IsPreferred(g[i].name)
    {
      if i < |p| {
        assert order[i] == p[i] && p[i] in p;
      } else {
        assert order[i] == rest[i - |p|] && rest[i - |p|] in rest;
      }
    }
    forall i, j | |p| <= i < j < |g|
      ensures !TextBelow(g[j].name, g[i].name)
    {
      assert order[i] == rest[i - |p|] && order[j] == rest[j - |p|];
    }
  }

  // ------------------------------------------------------ the route's category

  /**
   * The outcome of `categories.find(c => key(c.name) === slug)`: the group
   * found, none, or a throw, since `normalizeForMatch` calls `.trim()` on a
   * name that is not a string (an undefined one defaults to "") and so
   * throws on it.
   */
  datatype Lookup = Found(group: Group) | NotFound | LookupThrows

  /** A name the key function can be called on: text, or undefined, which the parameter's default turns into "". */
  predicate Keyable(g: Group) {
    g.name.Str? || g.name.Undefined?
  }

  /** The text the key function receives for a name. */
  function KeyText(g: Group): string
    requires Keyable(g)
  {
    if g.name.Str? then g.name.s else ""
  }

  /** The group is passed over: its name can be keyed, and its key is not `slug`. */
  predicate PassedOver(g: Group, slug: string, key: string -> string) {
    Keyable(g) && key(KeyText(g)) != slug
  }

  /**
   * `find` from position `from`: the first group whose name is neither
   * text nor undefined throws, and otherwise the first group whose name, put through `key`, is
   * `slug` is found.
   */
  function FirstGroup(groups: seq<Group>, slug: string, key: string -> string, from: nat): (r: Lookup)
    requires from <= |groups|
    ensures r.Found? ==> exists k :: from <= k < |groups| && groups[k] == r.group && Keyable(r.group) && key(KeyText(r.group)) == slug
                                     && forall j :: from <= j < k ==> PassedOver(groups[j], slug, key)
    ensures r.LookupThrows? ==> exists k :: from <= k < |groups| && !Keyable(groups[k])
                                      && forall j :: from <= j < k ==> PassedOver(groups[j], slug, key)
    ensures r.NotFound? <==> forall j :: from <= j < |groups| ==> PassedOver(groups[j], slug, key)
    decreases |groups| - from
  {
    if from == |groups| then NotFound
    else if !Keyable(groups[from]) then LookupThrows
    else if key(KeyText(groups[from])) == slug then Found(groups[from])
    else FirstGroup(groups, slug, key, from + 1)
  }

  /**
   * `activeCategory`: no route parameter (or an empty one) selects nothing;
   * otherwise the first group whose `normalizeForMatch` form is the slug.
   * The parameter is taken as already URI-decoded.
   */
  function ActiveCategory(groups: seq<Group>, slug: Option<string>): Lookup {
    if slug.None? || slug.value == "" then NotFound else FirstGroup(groups, slug.value, NormalizeForMatch, 0)
  }

  /** The lookup as the categories page's links need it: compare `slugify` forms. */
  function ActiveCategoryFixed(groups: seq<Group>, slug: Option<string>): Lookup {
    if slug.None? || slug.value == "" then NotFound else FirstGroup(groups, slug.value, Slugify, 0)
  }

  /** The categories page links "A - B" to `a-b`; the products page does not find that category. */
  lemma SlugLinkMissed(items: seq<Product>)
    ensures ActiveCategory([Group(Str("A - B"), items)], Some(Slugify("A - B"))) == NotFound
  {
    SpacedDashTitle();
    var groups := [Group(Str("A - B"), items)];
    assert groups[0].name.s == "A - B";
    assert "a---b"[2] != "a-b"[2];
    assert forall j :: 0 <= j < |groups| ==> PassedOver(groups[j], "a-b", NormalizeForMatch);
  }

  /**
   * With the corrected lookup every category a link can name is found, as
   * the first group with that slug, when the groups up to it are named by
   * text.
   */
  lemma SlugLinkFound(groups: seq<Group>, i: nat)
    requires i < |groups| && Keyable(groups[i]) && forall j :: 0 <= j < i ==> Keyable(groups[j])
    requires Slugify(KeyText(groups[i])) != ""
    ensures var found := ActiveCategoryFixed(groups, Some(Slugify(KeyText(groups[i]))));
            && found.Found?
            && Keyable(found.group) && Slugify(KeyText(found.group)) == Slugify(KeyText(groups[i]))
            && exists k :: 0 <= k <= i && groups[k] == found.group
  {
  }

  /** The lookup as written still finds every category whose normal form has no two dashes in a row. */
  lemma PlainSlugFound(groups: seq<Group>, i: nat)
    requires i < |groups| && Keyable(groups[i]) && forall j :: 0 <= j < i ==> Keyable(groups[j])
    requires Slugify(KeyText(groups[i])) != ""
    requires NoDoubleDash(NormalizeForMatch(KeyText(groups[i])))
    ensures ActiveCategory(groups, Some(Slugify(KeyText(groups[i])))).Found?
  {
    SlugAgreement(KeyText(groups[i]));
  }

  /** A group named by null, a number, a boolean, an array or an object ahead of any match makes the lookup throw. */
  lemma NonTextNameThrows(groups: seq<Group>, i: nat, slug: string)
    requires i < |groups| && !Keyable(groups[i]) && slug != ""
    requires forall j :: 0 <= j < i ==> PassedOver(groups[j], slug, NormalizeForMatch)
    ensures ActiveCategory(groups, Some(slug)) == LookupThrows
  {
    FirstGroupThrowsAt(groups, slug, NormalizeForMatch, 0, i);
  }

  lemma {:induction false} FirstGroupThrowsAt(groups: seq<Group>, slug: string, key: string -> string, from: nat, i: nat)
    requires from <= i < |groups| && !Keyable(groups[i])
    requires forall j :: from <= j < i ==> PassedOver(groups[j], slug, key)
    ensures FirstGroup(groups, slug, key, from) == LookupThrows
    decreases i - from
  {
    if from < i {
      assert PassedOver(groups[from], slug, key);
      FirstGroupThrowsAt(groups, slug, key, from + 1, i);
    }
  }

  // ------------------------------------------------------ the page

  /** The cart line for a catalogue product: its title is the line's name. */
  function CartItemFor(p: Product): Value {
    NewItem(p.id, p.title, p.price, p.img)
  }

  /** What `addToCart` writes to the cart key, or `None` when it throws. */
  function AddedTo(store: map<string, Slot>, p: Product): Option<seq<Value>> {
    match Current(SlotOf(store, CartKey))
    case None => None
    case Some(current) => Added(current, CartItemFor(p))
  }

  /** Every product the page can show has an id, so the cart merge sees a real one. */
  lemma InitialIds(slot: Slot, uid: nat -> string)
    ensures forall k :: 0 <= k < |InitialProducts(slot, uid)| ==> HasId(CartItemFor(InitialProducts(slot, uid)[k]))
  {
    NormaliseSpec(slot);
  }

  /**
   * An entry of the list the `products-updated` event carries, filled in as
   * the handler does: as a stored entry, except that a missing title and name
   * give the empty title.
   */
  function EventProduct(p: Value, idx: nat): Product {
    NormaliseProduct(p, idx).(title := Coalesce(Get(p, "title"), Coalesce(Get(p, "name"), Str(""))))
  }

  /** The list the handler sets from the event; `None` when it throws, on a null or undefined entry. */
  function EventProducts(xs: seq<Value>): Option<seq<Product>> {
    if exists i :: 0 <= i < |xs| && IsNullish(xs[i]) then None
    else Some(seq(|xs|, i requires 0 <= i < |xs| => EventProduct(xs[i], i)))
  }

  /** A catalogue that reads as a non-empty list, or `None`: the `parsed && parsed.length` test. */
  function NonEmpty(parsed: Option<seq<Product>>): Option<seq<Product>> {
    if parsed.Some? && parsed.value != [] then parsed else None
  }

  /**
   * The list the admin sends with the event and the same list read back from
   * storage agree entry by entry, except that an entry without title and name
   * is titled "" from the event and `Item <idx + 1>` from storage.
   */
  lemma EventVersusStorage(xs: seq<Value>)
    requires forall i :: 0 <= i < |xs| ==> !IsNullish(xs[i])
    ensures EventProducts(xs).Some? && NormaliseStoredProducts(Stored(Arr(xs))).Some?
    ensures var e, s := EventProducts(xs).value, NormaliseStoredProducts(Stored(Arr(xs))).value;
            && |e| == |s| == |xs|
            && (forall i :: 0 <= i < |xs| && (!IsNullish(Get(xs[i], "title")) || !IsNullish(Get(xs[i], "name"))) ==> e[i] == s[i])
            && (forall i :: 0 <= i < |xs| && IsNullish(Get(xs[i], "title")) && IsNullish(Get(xs[i], "name")) ==>
                  e[i] == s[i].(title := Str("")) && s[i].title == Str("Item " + NatToString(i + 1)))
  {
    assert !exists i :: 0 <= i < |xs| && IsNullish(xs[i]);
  }

  class ProductsPage {
    var products: seq<Product>
    var justAdded: Value
    var store: map<string, Slot>

    constructor (initial: map<string, Slot>, uid: nat -> string)
      ensures products == InitialProducts(SlotOf(initial, ProductsKey), uid)
      ensures justAdded == Null && store == initial
    {
      products := InitialProducts(SlotOf(initial, ProductsKey), uid);
      justAdded := Null;
      store := initial;
    }

    /** The `categories` memo over the current catalogue. */
    method Categories() returns (groups: seq<Group>)
      ensures groups == Grouped(products)
    {
      groups := GroupByCategory(products);
    }

    /**
     * The `products-updated` handler: a list sent with the event replaces the
     * catalogue (a null entry throws and leaves it); without one, the stored
     * catalogue replaces it when it reads as a non-empty list.
     */
    method OnProductsUpdated(detail: Value)
      modifies this
      ensures detail.Arr? && EventProducts(detail.elems).Some? ==> products == EventProducts(detail.elems).value
      ensures detail.Arr? && EventProducts(detail.elems).None? ==> products == old(products)
      ensures !detail.Arr? && NonEmpty(NormaliseStoredProducts(SlotOf(store, ProductsKey))).Some? ==>
                products == NormaliseStoredProducts(SlotOf(store, ProductsKey)).value
      ensures !detail.Arr? && NonEmpty(NormaliseStoredProducts(SlotOf(store, ProductsKey))).None? ==> products == old(products)
      ensures justAdded == old(justAdded) && store == old(store)
    {
      var parsed := if detail.Arr? then EventProducts(detail.elems) else NonEmpty(NormaliseStoredProducts(SlotOf(store, ProductsKey)));
      if parsed.Some? {
        products := parsed.value;
      }
    }

    /**
     * The `storage` event of another tab that wrote `newValue` under `key`: a
     * new catalogue that reads as a non-empty list replaces the current one.
     */
    method OnStorage(key: string, newValue: Slot)
      modifies this
      ensures store == old(store)[key := newValue] && justAdded == old(justAdded)
      ensures key == ProductsKey && NonEmpty(NormaliseStoredProducts(newValue)).Some? ==> products == NormaliseStoredProducts(newValue).value
      ensures !(key == ProductsKey && NonEmpty(NormaliseStoredProducts(newValue)).Some?) ==> products == old(products)
    {
      store := store[key := newValue];
      if key == ProductsKey {
        var parsed := NonEmpty(NormaliseStoredProducts(newValue));
        if parsed.Some? {
          products := parsed.value;
        }
      }
    }

    /**
     * `addToCart(product)`: the merged cart is written back and the product
     * marked as just added; when reading the cart throws, nothing changes.
     * The returned list is the event's detail.
     */
    method AddToCart(p: Product) returns (detail: Option<seq<Value>>)
      modifies this
      ensures detail == AddedTo(old(store), p)
      ensures products == old(products)
      ensures detail.Some? ==> store == old(store)[CartKey := Stored(Arr(detail.value))] && justAdded == p.id
      ensures detail.None? ==> store == old(store) && justAdded == old(justAdded)
    {
      detail := AddedTo(store, p);
      if detail.Some? {
        store := store[CartKey := Stored(Arr(detail.value))];
        justAdded := p.id;
      }
    }
  }
}
