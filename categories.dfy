/**
 * The shop's categories page (src/Pages/Categories.jsx): the category list
 * read from the admin's storage key (also in its older formats), the built-in
 * fallback list, the search box, and the `/category/<slug>` links.
 */
module Categories {
  import opened Options
  import opened Text
  import opened Js
  import opened Order
  import opened Slugs

  const CategoriesKey := "admin_categories_v1"

  datatype Category = Category(id: Value, title: Value, image: Value)

  /** `c_<idx>`, the id a category without one gets. */
  function PlaceholderId(idx: nat): Value {
    Str("c_" + NatToString(idx))
  }

  /** `{id: c.id ?? c_<idx>, title: c.title ?? c.name ?? "", image: c.image ?? c.img ?? ""}` for a `c` that is not null or undefined. */
  function ObjectCategory(c: Value, idx: nat): Category {
    Category(
      Coalesce(Get(c, "id"), PlaceholderId(idx)),
      Coalesce(Get(c, "title"), Coalesce(Get(c, "name"), Str(""))),
      Coalesce(Get(c, "image"), Coalesce(Get(c, "img"), Str(""))))
  }

  /** One stored entry: a bare string is the title of the older format. */
  function NormaliseCategory(c: Value, idx: nat): Category {
    if c.Str? then Category(PlaceholderId(idx), c, Str("")) else ObjectCategory(c, idx)
  }

  /**
   * `raw ? normaliseStoredCategories(raw) : null`: `None` when nothing is
   * stored, the text does not parse, the value is not an array, or an entry
   * is null or undefined (reading its `id` throws inside the `try`). The
   * final `.filter(Boolean)` keeps every entry, all of them being objects.
   */
  function NormaliseStoredCategories(slot: Slot): Option<seq<Category>> {
    if !slot.Stored? || !slot.value.Arr? then None
    else
      var xs := slot.value.elems;
      if exists i :: 0 <= i < |xs| && IsNullish(xs[i]) then None
      else Some(seq(|xs|, i requires 0 <= i < |xs| => NormaliseCategory(xs[i], i)))
  }

  /** Every field of a normalised category is set: none is null or undefined. */
  predicate Complete(c: Category) {
    !IsNullish(c.id) && !IsNullish(c.title) && !IsNullish(c.image)
  }

  /**
   * Reading the stored list keeps its length and order; strings become
   * `{c_<idx>, s, ""}`, and objects keep their id when they have one and take
   * their title from `title` then `name`, their image from `image` then `img`.
   */
  lemma NormaliseCategoriesSpec(slot: Slot)
    ensures NormaliseStoredCategories(slot).Some? <==>
              slot.Stored? && slot.value.Arr? && forall i :: 0 <= i < |slot.value.elems| ==> !IsNullish(slot.value.elems[i])
    ensures NormaliseStoredCategories(slot).Some? ==>
              var xs, cs := slot.value.elems, NormaliseStoredCategories(slot).value;
              && |cs| == |xs|
              && (forall i :: 0 <= i < |cs| ==> Complete(cs[i]))
              && (forall i :: 0 <= i < |cs| && xs[i].Str? ==> cs[i] == Category(PlaceholderId(i), xs[i], Str("")))
              && (forall i :: 0 <= i < |cs| && !xs[i].Str? ==>
                    && cs[i].id == (if IsNullish(Get(xs[i], "id")) then PlaceholderId(i) else Get(xs[i], "id"))
                    && cs[i].title == (if !IsNullish(Get(xs[i], "title")) then Get(xs[i], "title")
                                       else if !IsNullish(Get(xs[i], "name")) then Get(xs[i], "name") else Str(""))
                    && cs[i].image == (if !IsNullish(Get(xs[i], "image")) then Get(xs[i], "image")
                                       else if !IsNullish(Get(xs[i], "img")) then Get(xs[i], "img") else Str("")))
  {
  }

  function FallbackCategory(id: int, title: string, image: string): Category {
    Category(Num(id), Str(title), Str(image))
  }

  /** `FALLBACK_CATEGORIES` */
  const Fallback: seq<Category> := [
    FallbackCategory(1, "Starters", "/images/Starters.jpg"),
    FallbackCategory(2, "Pizzas", "/images/Pizza.jpg"),
    FallbackCategory(3, "Burgers", "/images/burgers.jpg"),
    FallbackCategory(4, "Biryani", "/images/Biryani.jpg"),
    FallbackCategory(5, "Desserts", "/images/desserts.jpg"),
    FallbackCategory(6, "Drinks", "/images/Drinks.jpg")
  ]

  /** A stored list is taken when it reads as a non-empty list. */
  predicate Usable(parsed: Option<seq<Category>>) {
    parsed.Some? && parsed.value != []
  }

  /** The list the page starts with: the stored one when usable, else the fallback. */
  function InitialCategories(slot: Slot): seq<Category> {
    var parsed := NormaliseStoredCategories(slot);
    if Usable(parsed) then parsed.value else Fallback
  }

  /** The page never starts with an empty list, and falls back exactly when the stored one is not usable. */
  lemma InitialNeverEmpty(slot: Slot)
    ensures InitialCategories(slot) != []
    ensures InitialCategories(slot) == Fallback <==> !Usable(NormaliseStoredCategories(slot)) || NormaliseStoredCategories(slot).value == Fallback
  {
  }

  /**
   * The `categories-updated` handler: a non-empty list in the event is read
   * in the object format (it throws, leaving the list, on a null entry);
   * otherwise the stored list replaces the current one when usable.
   */
  function OnCategoriesUpdated(cats: seq<Category>, detail: Value, store: map<string, Slot>): seq<Category> {
    if detail.Arr? && detail.elems != [] then
      var xs := detail.elems;
      if exists i :: 0 <= i < |xs| && IsNullish(xs[i]) then cats
      else seq(|xs|, i requires 0 <= i < |xs| => ObjectCategory(xs[i], i))
    else
      var parsed := NormaliseStoredCategories(SlotOf(store, CategoriesKey));
      if Usable(parsed) then parsed.value else cats
  }

  /** The `storage` handler: a usable new value of the categories key replaces the list. */
  function OnStorage(cats: seq<Category>, key: string, newValue: Slot): seq<Category> {
    var parsed := if key == CategoriesKey then NormaliseStoredCategories(newValue) else None;
    if Usable(parsed) then parsed.value else cats
  }

  /** A category as it is stored: `{id, title, image}`. */
  function Encode(c: Category): Value {
    Obj(map["id" := c.id, "title" := c.title, "image" := c.image])
  }

  /** The event carries the list the admin saved, so a list of complete categories arrives unchanged. */
  lemma EventKeepsCompleteList(cats: seq<Category>, saved: seq<Category>, store: map<string, Slot>)
    requires saved != [] && forall i :: 0 <= i < |saved| ==> Complete(saved[i])
    ensures OnCategoriesUpdated(cats, Arr(EncodeAll(saved)), store) == saved
  {
    var xs := EncodeAll(saved);
    assert forall i :: 0 <= i < |xs| ==> xs[i] == Encode(saved[i]);
  }

  function EncodeAll(cs: seq<Category>): (xs: seq<Value>)
    ensures |xs| == |cs| && forall i :: 0 <= i < |cs| ==> xs[i] == Encode(cs[i])
  {
    seq(|cs|, i requires 0 <= i < |cs| => Encode(cs[i]))
  }

  /** A stored list of complete categories reads back as itself. */
  lemma StoredRoundTrip(saved: seq<Category>)
    requires forall i :: 0 <= i < |saved| ==> Complete(saved[i])
    ensures NormaliseStoredCategories(Stored(Arr(EncodeAll(saved)))) == Some(saved)
  {
    var xs := EncodeAll(saved);
    forall i | 0 <= i < |xs|
      ensures !IsNullish(xs[i]) && NormaliseCategory(xs[i], i) == saved[i]
    {
      assert xs[i] == Encode(saved[i]);
    }
    assert !exists i :: 0 <= i < |xs| && IsNullish(xs[i]);
    var cs := seq(|xs|, i requires 0 <= i < |xs| => NormaliseCategory(xs[i], i));
    assert cs == saved;
  }

  /** The search box: `c.title.toLowerCase().includes(query.trim().toLowerCase())`. */
  predicate TitleMatches(c: Category, query: string) {
    Contains(Lower(ToStr(c.title)), Lower(Trim(query)))
  }

  function Search(cats: seq<Category>, query: string): seq<Category> {
    Filter(cats, c => TitleMatches(c, query))
  }

  /** The search keeps exactly the matching categories, and a blank query keeps the whole list. */
  lemma SearchSpec(cats: seq<Category>, query: string)
    ensures forall c :: c in Search(cats, query) <==> c in cats && TitleMatches(c, query)
    ensures Trim(query) == "" ==> Search(cats, query) == cats
  {
    if Trim(query) == "" {
      forall i | 0 <= i < |cats|
        ensures TitleMatches(cats[i], query)
      {
        assert [] <= Lower(ToStr(cats[i].title));
      }
      FilterAll(cats, c => TitleMatches(c, query));
    }
  }

  /** The route parameter a category's card links to (`encodeURIComponent` leaves `[a-z0-9-]` as it is). */
  function LinkSlug(c: Category): string {
    Slugify(ToStr(c.title))
  }

  /** The fallback titles are plain words, so both lookups find them: their slug is their match form. */
  lemma FallbackLinksAgree()
    ensures forall i :: 0 <= i < |Fallback| ==>
              LinkSlug(Fallback[i]) == NormalizeForMatch(ToStr(Fallback[i].title)) == Lower(ToStr(Fallback[i].title))
  {
    forall i | 0 <= i < |Fallback|
      ensures LinkSlug(Fallback[i]) == NormalizeForMatch(ToStr(Fallback[i].title)) == Lower(ToStr(Fallback[i].title))
    {
      PlainTitle(ToStr(Fallback[i].title));
    }
  }
}
