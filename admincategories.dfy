/**
 * The admin's category manager (src/Admin/Pages/Categories.jsx): the list it
 * starts from (migrating the older all-strings format and filling in missing
 * fields), adding, renaming and deleting categories, the form's checks, and
 * the copy it saves under the key the shop's categories page reads.
 */
module AdminCategories {
  import opened Options
  import opened Text
  import opened Js
  import opened Order
  import opened Categories

  /** `uid(prefix)` with its random part given: `<prefix>_<suffix>`, the prefix defaulting to `c` when undefined. */
  function Uid(prefix: Value, suffix: string): Value {
    Str((if prefix.Undefined? then "c" else ToStr(prefix)) + "_" + suffix)
  }

  /** `DEFAULT_CATEGORIES`: titles and images, without ids. */
  const Defaults: seq<(string, string)> := [
    ("Starters", "/images/Starters.jpg"),
    ("Pizzas", "/images/Pizza.jpg"),
    ("Burgers", "/images/burgers.jpg"),
    ("Biryani", "/images/Biryani.jpg"),
    ("Desserts", "/images/desserts.jpg"),
    ("Drinks", "/images/Drinks.jpg")
  ]

  /** The defaults with a fresh id each, the random part of the `i`-th id being `suffixes(i)`. */
  function DefaultCategories(suffixes: nat -> string): seq<Category> {
    seq(|Defaults|, i requires 0 <= i < |Defaults| =>
      Category(Uid(Str(Defaults[i].0), suffixes(i)), Str(Defaults[i].0), Str(Defaults[i].1)))
  }

  /** An entry of the older format: `{id: uid(t), title: t, image: ""}`. */
  function LegacyCategory(t: Value, suffix: string): Category {
    Category(Uid(t, suffix), t, Str(""))
  }

  /** An entry of the object format: `{id: c.id || uid(c.title), title: c.title || "", image: c.image || ""}`. */
  function StoredCategory(c: Value, suffix: string): Category {
    Category(Or(Get(c, "id"), Uid(Get(c, "title"), suffix)), Or(Get(c, "title"), Str("")), Or(Get(c, "image"), Str("")))
  }

  /**
   * The list the manager starts with: a stored array whose first element is a
   * string is read in the older format; any other stored array in the object
   * format, where a null or undefined entry throws and the defaults are taken;
   * anything else (nothing stored, text that does not parse, not an array)
   * gives the defaults.
   */
  function InitialAdminCategories(slot: Slot, suffixes: nat -> string): seq<Category> {
    if slot.Stored? && slot.value.Arr? then
      var xs := slot.value.elems;
      if |xs| > 0 && xs[0].Str? then seq(|xs|, i requires 0 <= i < |xs| => LegacyCategory(xs[i], suffixes(i)))
      else if exists i :: 0 <= i < |xs| && IsNullish(xs[i]) then DefaultCategories(suffixes)
      else seq(|xs|, i requires 0 <= i < |xs| => StoredCategory(xs[i], suffixes(i)))
    else DefaultCategories(suffixes)
  }

  predicate AllComplete(cats: seq<Category>) {
    forall i :: 0 <= i < |cats| ==> Complete(cats[i])
  }

  /** What the manager writes under the categories key: `JSON.stringify(cats)`. */
  function Saved(cats: seq<Category>): Slot {
    Stored(Arr(EncodeAll(cats)))
  }

  /** The category `add(title, image)` puts in front: `{id: uid(title), title, image}`. */
  function NewCategory(title: string, image: string, suffix: string): Category {
    Category(Uid(Str(title), suffix), Str(title), Str(image))
  }

  /** `update(id, title, image)`: the categories whose id is `id` take the new title and image. */
  function Updated(cats: seq<Category>, id: Value, title: string, image: string): seq<Category> {
    seq(|cats|, i requires 0 <= i < |cats| =>
      if StrictEq(cats[i].id, id) then Category(cats[i].id, Str(title), Str(image)) else cats[i])
  }

  /** `remove(id)`: `cats.filter(c => c.id !== id)`. */
  function Removed(cats: seq<Category>, id: Value): seq<Category> {
    Filter(cats, (c: Category) => !StrictEq(c.id, id))
  }

  /** The form's `submit`: a title that trims to nothing is refused, else the trimmed title and image are passed on. */
  function FormInput(title: string, image: string): Option<(string, string)> {
    var t := Trim(title);
    if t == "" then None else Some((t, Trim(image)))
  }

  class CategoryManager {
    var cats: seq<Category>
    var store: map<string, Slot>

    /** The initial list, which the saving effect writes back as soon as the page mounts. */
    constructor (initial: map<string, Slot>, suffixes: nat -> string)
      ensures cats == InitialAdminCategories(SlotOf(initial, CategoriesKey), suffixes)
      ensures store == initial[CategoriesKey := Saved(cats)]
    {
      cats := InitialAdminCategories(SlotOf(initial, CategoriesKey), suffixes);
      store := initial[CategoriesKey := Saved(InitialAdminCategories(SlotOf(initial, CategoriesKey), suffixes))];
    }

    method Add(title: string, image: string, suffix: string)
      modifies this
      ensures cats == [NewCategory(title, image, suffix)] + old(cats)
      ensures store == old(store)[CategoriesKey := Saved(cats)]
    {
      cats := [NewCategory(title, image, suffix)] + cats;
      store := store[CategoriesKey := Saved(cats)];
    }

    method Update(id: Value, title: string, image: string)
      modifies this
      ensures cats == Updated(old(cats), id, title, image)
      ensures store == old(store)[CategoriesKey := Saved(cats)]
    {
      cats := Updated(cats, id, title, image);
      store := store[CategoriesKey := Saved(cats)];
    }

    /** `remove(id)`, also what `confirmDelete` does with the category it asked about. */
    method Remove(id: Value)
      modifies this
      ensures cats == Removed(old(cats), id)
      ensures store == old(store)[CategoriesKey := Saved(cats)]
    {
      cats := Removed(cats, id);
      store := store[CategoriesKey := Saved(cats)];
    }

    /**
     * The form's `submit` followed by `onSubmit`: a blank title changes
     * nothing; otherwise the category being edited is updated, or a new one
     * is added in front.
     */
    method Submit(editing: Option<Category>, title: string, image: string, suffix: string) returns (accepted: bool)
      modifies this
      ensures accepted <==> Trim(title) != ""
      ensures !accepted ==> cats == old(cats) && store == old(store)
      ensures accepted && editing.Some? ==> cats == Updated(old(cats), editing.value.id, Trim(title), Trim(image))
      ensures accepted && editing.None? ==> cats == [NewCategory(Trim(title), Trim(image), suffix)] + old(cats)
      ensures accepted ==> store == old(store)[CategoriesKey := Saved(cats)]
    {
      var input := FormInput(title, image);
      if input.None? {
        return false;
      }
      accepted := true;
      if editing.Some? {
        Update(editing.value.id, input.value.0, input.value.1);
      } else {
        Add(input.value.0, input.value.1, suffix);
      }
    }
  }

  /** An array stored in the older format: every entry becomes the title of a category without an image. */
  lemma LegacyFormatSpec(xs: seq<Value>, suffixes: nat -> string)
    requires |xs| > 0 && xs[0].Str?
    ensures var cats := InitialAdminCategories(Stored(Arr(xs)), suffixes);
            |cats| == |xs| && forall i :: 0 <= i < |xs| ==> cats[i].title == xs[i] && cats[i].image == Str("")
  {
    var cats := InitialAdminCategories(Stored(Arr(xs)), suffixes);
    forall i | 0 <= i < |xs|
      ensures cats[i] == LegacyCategory(xs[i], suffixes(i))
    {
    }
  }

  /**
   * An array stored in the object format, without null or undefined entries:
   * every entry is kept in its place, a truthy id is kept, and every field
   * gets a value.
   */
  lemma ObjectFormatSpec(xs: seq<Value>, suffixes: nat -> string)
    requires !(|xs| > 0 && xs[0].Str?) && forall i :: 0 <= i < |xs| ==> !IsNullish(xs[i])
    ensures var cats := InitialAdminCategories(Stored(Arr(xs)), suffixes);
            && |cats| == |xs| && AllComplete(cats)
            && forall i :: 0 <= i < |xs| && Truthy(Get(xs[i], "id")) ==> cats[i].id == Get(xs[i], "id")
  {
    var cats := InitialAdminCategories(Stored(Arr(xs)), suffixes);
    assert !exists i :: 0 <= i < |xs| && IsNullish(xs[i]);
    forall i | 0 <= i < |xs|
      ensures cats[i] == StoredCategory(xs[i], suffixes(i)) && Complete(cats[i])
    {
    }
  }

  /** Without a stored array, or with a null entry in the object format, the manager starts from its defaults. */
  lemma DefaultsTaken(slot: Slot, suffixes: nat -> string)
    requires !(slot.Stored? && slot.value.Arr?) ||
             (!(|slot.value.elems| > 0 && slot.value.elems[0].Str?) &&
              exists i :: 0 <= i < |slot.value.elems| && IsNullish(slot.value.elems[i]))
    ensures InitialAdminCategories(slot, suffixes) == DefaultCategories(suffixes)
    ensures AllComplete(DefaultCategories(suffixes)) && |DefaultCategories(suffixes)| == 6
  {
    var d := DefaultCategories(suffixes);
    forall i | 0 <= i < |d|
      ensures Complete(d[i])
    {
      assert d[i] == Category(Uid(Str(Defaults[i].0), suffixes(i)), Str(Defaults[i].0), Str(Defaults[i].1));
    }
  }

  /** The admin's defaults have the titles and images of the shop's fallback list, in the same order. */
  lemma DefaultsMatchFallback(suffixes: nat -> string)
    ensures |DefaultCategories(suffixes)| == |Fallback|
    ensures forall i :: 0 <= i < |Fallback| ==>
              DefaultCategories(suffixes)[i].title == Fallback[i].title && DefaultCategories(suffixes)[i].image == Fallback[i].image
  {
  }

  /** A rename keeps every position and id, touches only the categories with that id, and is idempotent. */
  lemma UpdatedSpec(cats: seq<Category>, id: Value, title: string, image: string)
    ensures var r := Updated(cats, id, title, image);
            && |r| == |cats|
            && (forall i :: 0 <= i < |cats| ==> r[i].id == cats[i].id)
            && (forall i :: 0 <= i < |cats| && !StrictEq(cats[i].id, id) ==> r[i] == cats[i])
            && (forall i :: 0 <= i < |cats| && StrictEq(cats[i].id, id) ==> r[i].title == Str(title) && r[i].image == Str(image))
    ensures Updated(Updated(cats, id, title, image), id, title, image) == Updated(cats, id, title, image)
    ensures AllComplete(cats) ==> AllComplete(Updated(cats, id, title, image))
  {
    var r := Updated(cats, id, title, image);
    var rr := Updated(r, id, title, image);
    forall i | 0 <= i < |cats|
      ensures rr[i] == r[i]
    {
    }
  }

  /**
   * A deletion keeps exactly the categories with another id, in their order;
   * no category with that id is left, and a complete list stays complete.
   */
  lemma RemovedSpec(cats: seq<Category>, id: Value)
    ensures forall c :: c in Removed(cats, id) <==> c in cats && !StrictEq(c.id, id)
    ensures (forall i :: 0 <= i < |cats| ==> !StrictEq(cats[i].id, id)) ==> Removed(cats, id) == cats
    ensures AllComplete(cats) ==> AllComplete(Removed(cats, id))
  {
    var keep := (c: Category) => !StrictEq(c.id, id);
    if forall i :: 0 <= i < |cats| ==> !StrictEq(cats[i].id, id) {
      FilterAll(cats, keep);
    }
    var r := Removed(cats, id);
    if AllComplete(cats) {
      forall i | 0 <= i < |r|
        ensures Complete(r[i])
      {
        assert r[i] in cats;
      }
    }
  }

  /** Deleting a category just added, under an id no other category has, gives back the list before. */
  lemma RemoveUndoesAdd(cats: seq<Category>, title: string, image: string, suffix: string)
    requires forall i :: 0 <= i < |cats| ==> !StrictEq(cats[i].id, NewCategory(title, image, suffix).id)
    ensures Removed([NewCategory(title, image, suffix)] + cats, NewCategory(title, image, suffix).id) == cats
  {
    var c := NewCategory(title, image, suffix);
    var keep := (d: Category) => !StrictEq(d.id, c.id);
    FilterCons(c, cats, keep);
    FilterAll(cats, keep);
  }

  /** An added category is complete, so adding keeps a complete list complete. */
  lemma AddKeepsComplete(cats: seq<Category>, title: string, image: string, suffix: string)
    requires AllComplete(cats)
    ensures AllComplete([NewCategory(title, image, suffix)] + cats)
  {
    var r := [NewCategory(title, image, suffix)] + cats;
    forall i | 0 <= i < |r|
      ensures Complete(r[i])
    {
      if i > 0 {
        assert r[i] == cats[i - 1];
      }
    }
  }

  /** The form passes on a non-blank title with no white space at its ends, which a second trim leaves alone. */
  lemma FormInputSpec(title: string, image: string)
    ensures FormInput(title, image).None? <==> Trim(title) == ""
    ensures FormInput(title, image).Some? ==>
              var (t, img) := FormInput(title, image).value;
              t != "" && Trim(t) == t && NoSpaceAtEnds(t) && Trim(img) == img
  {
    TrimIdempotent(title);
    TrimIdempotent(image);
    TrimmedHasNoSpaceAtEnds(title);
  }

  /** Every category has a title that is non-empty text. */
  predicate Titled(cats: seq<Category>) {
    forall i :: 0 <= i < |cats| ==> cats[i].title.Str? && cats[i].title.s != ""
  }

  /**
   * Adding or renaming with what the form lets through, and deleting, keep
   * every title non-empty text.
   */
  lemma EditsKeepTitled(cats: seq<Category>, id: Value, title: string, image: string, suffix: string)
    requires Titled(cats) && FormInput(title, image).Some?
    ensures var (t, img) := FormInput(title, image).value;
            && Titled([NewCategory(t, img, suffix)] + cats)
            && Titled(Updated(cats, id, t, img))
            && Titled(Removed(cats, id))
  {
    var (t, img) := FormInput(title, image).value;
    var added := [NewCategory(t, img, suffix)] + cats;
    forall i | 0 <= i < |added|
      ensures added[i].title.Str? && added[i].title.s != ""
    {
      if i > 0 {
        assert added[i] == cats[i - 1];
      }
    }
    var r := Removed(cats, id);
    forall i | 0 <= i < |r|
      ensures r[i].title.Str? && r[i].title.s != ""
    {
      assert r[i] in cats;
    }
  }

  /**
   * What the manager saves, when every field is set, is what the shop's
   * categories page reads: on load (its fallback when the list is empty), on
   * the `categories-updated` event the save sends, and on the `storage` event
   * of another tab. An emptied list sent with the event leaves the shop's list
   * as it was.
   */
  lemma ShopSeesSaved(cats: seq<Category>, shown: seq<Category>, store: map<string, Slot>)
    requires AllComplete(cats)
    ensures NormaliseStoredCategories(Saved(cats)) == Some(cats)
    ensures InitialCategories(Saved(cats)) == if cats == [] then Fallback else cats
    ensures OnCategoriesUpdated(shown, Arr(EncodeAll(cats)), store[CategoriesKey := Saved(cats)]) ==
              if cats == [] then shown else cats
    ensures OnStorage(shown, CategoriesKey, Saved(cats)) == if cats == [] then shown else cats
  {
    StoredRoundTrip(cats);
    if cats != [] {
      EventKeepsCompleteList(shown, cats, store[CategoriesKey := Saved(cats)]);
    }
  }
}
