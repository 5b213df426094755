# TastyDelight storefront, modelled in Dafny

This project models the logic under the markup of the TastyDelight food-ordering site, a React single-page application. It then proves properties of that model. The site keeps all of its data in the browser's local storage.

The model covers these parts of the site:

- **Coupon manager** (module `AdminCoupons`). It holds the exported `applyCoupon` helper and the admin page's coupon list:
  - looking up a code;
  - the failure checks, in their order;
  - percent and flat amounts and the clamp;
  - saving, editing and deleting coupons.
- **Cart page** (modules `CartLines`, `CartCoupons` and `Cart`). It covers:
  - loading the cart and merging duplicate ids;
  - changing quantities and removing lines;
  - the subtotal and the clamped total;
  - the page's own coupon list and its own `applyCoupon`;
  - the two effects that reset the applied coupon.
- **Products page** (module `Storefront`). It covers:
  - reading the catalogue;
  - grouping products into categories in the page's order;
  - the category named by the route;
  - the catalogue updates the admin sends;
  - add-to-cart.

  Module `CartAdd` holds the cart merge that this page shares with the **Popular Foods** strip (module `PopularFoods`).
- **Header** (module `Header`): the cart badge and its two event handlers.
- **Checkout** (module `Checkout`): the cart the page starts from, the subtotal, and placing an order.
- **Shop's categories page** (module `Categories`), with the two slug functions in module `Slugs`.
- **Admin's category manager and product manager** (modules `AdminCategories` and `AdminProducts`).

Most pages read what another page saved. Several lemmas state that the two sides agree, for example that what the category manager saves is what the shop shows.

Values are modelled as follows:

- **JavaScript values.** They are the datatype `Js.Value`: undefined, null, booleans, integers, `NaN`, strings, arrays and objects. Module `Js` spells out the coercions the code leans on: `||`, `??`, `Number()`, `String()`, `+`, `-`, `*`, `Math.max` and `===`. Because they are modelled, the edge cases of hand-edited storage are modelled too.
- **Storage keys.** A key reads as `Js.Slot`. It is either missing (`null` or `""`), unparseable text (`JSON.parse` throws) or a parsed value.
- **Pages.** A page whose code updates React state step by step is a class. Its fields are the page's state and the storage map.
- **Throwing code.** An operation that would throw is a `None` result, or a method that changes nothing.
- **Numbers.** They are integers. A percentage share is the exact share `p * t / 100` rounded to the nearest integer, halves up; the double `p / 100 * t` is not modelled.
- **Text.** Case mapping and the regular expressions are restricted to ASCII.
- **Random ids.** `uid()`'s random part is a parameter.

## Model

| member | source | states |
|---|---|---|
| AdminCoupons.Scan | src/Admin/Pages/Coupons.jsx:43 | the scan ends at the first entry whose callback throws or matches; a no-match means no entry throws or matches; no entry before the stopping one throws or matches |
| AdminCoupons.FindCoupon | src/Admin/Pages/Coupons.jsx:42-43 | `list.find` on the normalised code: a match is a non-null entry with that lookup key, a throw is a null entry, and every entry before the stopping point is non-null and does not match |
| AdminCoupons.PercentOf | src/Admin/Pages/Coupons.jsx:60 | the rounded share of the total is a number or NaN, never another kind of value |
| AdminCoupons.PercentRounding | src/Admin/Pages/Coupons.jsx:60 | the rounded share is NaN for a NaN percentage, and otherwise the integer nearest to `p * t / 100`, halves rounded up |
| AdminCoupons.Evaluate | src/Admin/Pages/Coupons.jsx:45-70 | success exactly when the outcome is Applied; a refusal takes 0 off, leaves the total and carries no coupon; a numeric success never exceeds the total, leaves a non-negative total, and amount plus new total is the total |
| AdminCoupons.ApplyCoupon | src/Admin/Pages/Coupons.jsx:38-75 | the same guarantees for the exported helper, which also reads the list (a parse failure, a non-array list or a null entry fails) |
| AdminCoupons.Encode | src/Admin/Pages/Coupons.jsx:183-192 | a saved coupon is stored as an object |
| AdminCoupons.InitialCoupons | src/Admin/Pages/Coupons.jsx:90-137 | nothing stored or unparseable text gives the three defaults; a stored value is used exactly when it is an array |
| AdminCoupons.CanonicalIsOwnKey | src/Admin/Pages/Coupons.jsx:42-43 | a stored upper-case trimmed code is its own lookup key |
| AdminCoupons.SavedCode | src/Admin/Pages/Coupons.jsx:42 | `toUpperCase().trim()` gives a canonical code, and it is the key `applyCoupon` computes from the code as typed (see also src/Admin/Pages/Coupons.jsx:186) |
| AdminCoupons.Normalize | src/Admin/Pages/Coupons.jsx:183-192 | the record keeps id, title and description; its code is canonical and found under the typed code; its type is percent exactly when the form says percent; active is the truthiness of the form's flag; discount and minimum default to 0 |
| AdminCoupons.EvaluateSaved | src/Admin/Pages/Coupons.jsx:48-70 | on a saved record the untyped checks give the typed result: inactive first, then the minimum, then the capped discount |
| AdminCoupons.HasCodeSaved | src/Admin/Pages/Coupons.jsx:43 | a saved record matches exactly its own code |
| AdminCoupons.SavedAreObjects | src/Admin/Pages/Coupons.jsx:21-24 | no entry of a stored list of saved coupons is null |
| AdminCoupons.ApplyToSaved | src/Admin/Pages/Coupons.jsx:38-70 | over a saved list, `applyCoupon` judges the first coupon carrying the code |
| AdminCoupons.ApplyToSavedUnknown | src/Admin/Pages/Coupons.jsx:45-47 | a code no saved coupon carries is refused as not found, with the total unchanged |
| AdminCoupons.SavedCouponApplies | src/Admin/Pages/Coupons.jsx:177-197 | a coupon appended by the form with a new code is then applied under the code as typed (see also src/Admin/Pages/Coupons.jsx:38-70) |
| AdminCoupons.DefaultsCanonical | src/Admin/Pages/Coupons.jsx:98-129 | the default codes are stored upper-case and trimmed |
| AdminCoupons.TypedInLowerCase | src/Admin/Pages/Coupons.jsx:42 | `welcome50` is looked up as WELCOME50 |
| AdminCoupons.WelcomeScenario | src/Admin/Pages/Coupons.jsx:35-36 | WELCOME50 on a 520 order takes 50 off, leaving 470 (see also src/Admin/Pages/Coupons.jsx:98-108) |
| AdminCoupons.MinimumScenario | src/Admin/Pages/Coupons.jsx:52-55 | SAVE500 on a 450 order is refused for the 500 minimum, leaving 450 (see also src/Admin/Pages/Coupons.jsx:109-118) |
| AdminCoupons.PercentScenario | src/Admin/Pages/Coupons.jsx:58-60 | FESTIVE30 takes 300 off a 1000 order, leaving 700 (see also src/Admin/Pages/Coupons.jsx:119-128) |
| AdminCoupons.PercentRoundsDown | src/Admin/Pages/Coupons.jsx:60 | 30% of a total of 1 rounds to 0 |
| AdminCoupons.UnknownScenario | src/Admin/Pages/Coupons.jsx:45-47 | an unknown code is refused as not found |
| AdminCoupons.InactiveScenario | src/Admin/Pages/Coupons.jsx:48-50 | WELCOME50 switched off by an edit is refused as inactive (see also src/Admin/Pages/Coupons.jsx:194-196) |
| AdminCoupons.DivHundredStep | src/Admin/Pages/Coupons.jsx:60 | floor division by 100 grows by at most `k` when its argument grows by at most `100 * k` |
| AdminCoupons.PercentStep | src/Admin/Pages/Coupons.jsx:60 | a share of at most 100% rounds up by no more than the totals differ |
| AdminCoupons.NewTotalMonotone | src/Admin/Pages/Coupons.jsx:57-69 | above its minimum, a coupon never makes a larger order cheaper than a smaller one |
| AdminCoupons.MinimumBreaksMonotonicity | src/Admin/Pages/Coupons.jsx:52-55 | across the minimum the order flips: 499 pays 499 under SAVE500 and 500 pays 425 (see also src/Admin/Pages/Coupons.jsx:109-118) |
| AdminCoupons.CouponsPage.constructor | src/Admin/Pages/Coupons.jsx:139 | the page starts from the initial list |
| AdminCoupons.CouponsPage.SaveCoupon | src/Admin/Pages/Coupons.jsx:177-205 | saves exactly when code and title are non-empty; an edit replaces only entry `editIndex` and keeps its id; an add appends with the new id; a refusal leaves the list unchanged |
| AdminCoupons.CouponsPage.DeleteCoupon | src/Admin/Pages/Coupons.jsx:207-214 | a confirmed delete removes only entry `index` and keeps the others in order; otherwise nothing changes |
| AdminCoupons.CouponsPage.ResetDemo | src/Admin/Pages/Coupons.jsx:222-257 | the list becomes the three defaults |
| CartLines.IndexOf | src/Pages/Cart.jsx:90 | the position found is the first at or after `from` whose id is strictly equal to `id`; none means no such line |
| CartLines.LoadCart | src/Pages/Cart.jsx:84-111 | the loop over the stored items, with the id-to-line map as a ghost invariant, yields the merged lines; the cart is written back exactly when the stored array had a different length |
| CartLines.MergedStep | src/Pages/Cart.jsx:88-102 | one more item extends the merge by one `forEach` step |
| CartLines.IndexOfStrict | src/Pages/Cart.jsx:90 | with unique ids the line at `k` is the one the map finds for its id |
| CartLines.NotIndexed | src/Pages/Cart.jsx:90 | an id absent from the map has no line |
| CartLines.IndexedUpdate | src/Pages/Cart.jsx:91-92 | bumping a line's qty in place keeps the map valid |
| CartLines.IndexedAppend | src/Pages/Cart.jsx:93-100 | `map.set` of a new line keeps the map valid |
| CartLines.MergedUniqueIds | src/Pages/Cart.jsx:84-103 | the merged cart has one line per id and every id is truthy |
| CartLines.MergedFromFirst | src/Pages/Cart.jsx:93-100 | the merge is no longer than the input, and each line's name, price and image come from the first kept item with its id |
| CartLines.FirstWithIdExtends | src/Pages/Cart.jsx:90-93 | being the first item with an id survives appending more items |
| CartLines.FirstIsNew | src/Pages/Cart.jsx:93-100 | the last item starts a new line exactly when it is the first kept item with its id |
| CartLines.FirstKeptMissing | src/Pages/Cart.jsx:89-93 | an id the merged cart has no line for was on no kept item |
| CartLines.KeptIdHasLine | src/Pages/Cart.jsx:89-100 | every kept item's id has a line in the merged cart |
| CartLines.NumberOrQty | src/Pages/Cart.jsx:92 | a first occurrence's `Number(qty) \|\| 0` equals a later one's `qty \|\| 0` for numeric quantities (see also src/Pages/Cart.jsx:99) |
| CartLines.QtySumAbsent | src/Pages/Cart.jsx:89-92 | the quantities of an id that has no line sum to 0 |
| CartLines.MergedQty | src/Pages/Cart.jsx:91-99 | with primitive ids and numeric quantities, each line carries the sum of the quantities of all stored items with its id |
| CartLines.QtyAfter | src/Pages/Cart.jsx:188-189 | the new quantity is a number or NaN |
| CartLines.UpdateQty | src/Pages/Cart.jsx:182-197 | the `reduce` loop builds the list `QtyUpdated` defines |
| CartLines.AbsentIdUnchanged | src/Pages/Cart.jsx:182-202 | an id no line has leaves both operations without effect |
| CartLines.SplitOperations | src/Pages/Cart.jsx:182-202 | both operations distribute over concatenation, so order is kept |
| CartLines.AroundLine | src/Pages/Cart.jsx:182-202 | acting on the id of a line with a unique id touches that line alone |
| CartLines.QtyUpdatedAt | src/Pages/Cart.jsx:182-197 | with unique ids only line `k` changes: it takes the new quantity, or leaves the cart when that is 0 or less; every other line stays in order |
| CartLines.RemovedAt | src/Pages/Cart.jsx:199-202 | with unique ids removing line `k`'s id removes that line and keeps the rest in order |
| CartLines.RemovedSingle | src/Pages/Cart.jsx:200 | a one-line cart loses its line |
| CartLines.RemovedExactly | src/Pages/Cart.jsx:199-202 | no line with the id remains, the cart does not grow, and an id that is never strictly equal to itself (NaN, objects) removes nothing |
| CartLines.QtyNumber | src/Pages/Cart.jsx:206 | `Number(qty \|\| 0)` is a number or NaN |
| CartLines.LineAmount | src/Pages/Cart.jsx:206 | a line's amount is a number or NaN |
| CartLines.Subtotal | src/Pages/Cart.jsx:205-208 | the subtotal is a number or NaN |
| CartLines.SubtotalIsSum | src/Pages/Cart.jsx:205-208 | the subtotal is a number exactly when every quantity is, and then it is the sum of price × qty |
| CartLines.Total | src/Pages/Cart.jsx:210-211 | the total is never negative |
| CartLines.TotalClamped | src/Pages/Cart.jsx:210-211 | with a numeric discount `d` the total is the sum minus `d`, or 0 when that is negative |
| CartLines.SumOfProductsSplit | src/Pages/Cart.jsx:206 | the sum over two lists is the sum of their sums |
| CartLines.SumOfProductsAround | src/Pages/Cart.jsx:206 | the sum with one line singled out |
| CartLines.SubtotalAfterRemove | src/Pages/Cart.jsx:199-208 | removing a line takes exactly its price × qty off the subtotal |
| CartLines.CountableAround | src/Pages/Cart.jsx:206 | the lines on either side of a countable line are countable |
| CartLines.SubtotalAfterUpdate | src/Pages/Cart.jsx:182-208 | changing a line's quantity by `delta`, when it stays, moves the subtotal by price × delta |
| CartLines.UpdatedAround | src/Pages/Cart.jsx:182-195 | a line that stays is replaced by the same line with the new quantity, the rest kept |
| CartLines.SumAfterBump | src/Pages/Cart.jsx:193 | a line's quantity raised by `delta` raises the sum by price × delta (see also src/Pages/Cart.jsx:206) |
| CartLines.BumpedQty | src/Pages/Cart.jsx:188-193 | the bumped line's quantity reads as the old one plus `delta` |
| CartCoupons.FormatUpper | src/Pages/Cart.jsx:134 | every formatted code is upper case |
| CartCoupons.FormatRecord | src/Pages/Cart.jsx:133-140 | a stored object with text title and code and numeric amounts becomes the option with those values, labelled `title (code)` |
| CartCoupons.FormatSaved | src/Pages/Cart.jsx:133-140 | a coupon the admin page saved shows its own code, title and amounts in the cart (see also src/Admin/Pages/Coupons.jsx:183-192) |
| CartCoupons.Dedupe | src/Pages/Cart.jsx:143-146 | the table's key list and its map hold the same codes |
| CartCoupons.LastWithCode | src/Pages/Cart.jsx:145 | the option found carries the code asked for |
| CartCoupons.LastWithCodeFound | src/Pages/Cart.jsx:145 | every option's own code has a last occurrence |
| CartCoupons.DedupeSpec | src/Pages/Cart.jsx:143-146 | the table holds each non-empty code once, with the last option carrying that code |
| CartCoupons.ByKeyValueWeak | src/Pages/Cart.jsx:147 | comparing integer-like keys by value is a total preorder |
| CartCoupons.PropertyOrderSpec | src/Pages/Cart.jsx:147 | the object's key order has the same keys, no repeats when the insertion order has none, and integer-like keys first in ascending order |
| CartCoupons.SortedKeys | src/Pages/Cart.jsx:147 | sorted index keys followed by the other keys have the same members and put index keys first in order |
| CartCoupons.DistinctKeys | src/Pages/Cart.jsx:147 | the index keys and the other keys do not overlap, so their concatenation has no repeats |
| CartCoupons.UniqueAt | src/Pages/Cart.jsx:147 | position `i` of `Object.values` holds the option stored under the `i`-th key |
| CartCoupons.UniqueSpec | src/Pages/Cart.jsx:143-149 | after the placeholder the select lists every non-empty code exactly once, with the last coupon's fields, integer-like codes first in ascending order |
| CartCoupons.LoadCoupons | src/Pages/Cart.jsx:128-160 | the list always starts with the NONE placeholder; a parse or mapping failure gives the fallback state; otherwise the placeholder plus the deduplicated options, the stored applied coupon, and its code (or NONE) selected |
| CartCoupons.SeededParses | src/Pages/Cart.jsx:17-63 | after seeding, the admin list always parses, and a seeded list is formatted without failure |
| CartCoupons.FindOption | src/Pages/Cart.jsx:228 | the index found is the first option whose code is strictly equal to the selection; none means no option has it |
| CartCoupons.Decide | src/Pages/Cart.jsx:214-249 | NONE clears, no matter what is listed; an unlisted code leaves the coupon unchanged; a listed code applies the first option with it unless its minimum is non-zero and above the subtotal; type and active are never consulted |
| CartCoupons.FlatCouponAgrees | src/Pages/Cart.jsx:205-249 | on a saved active flat coupon the two apply functions agree on whether it applies and on the resulting total (see also src/Admin/Pages/Coupons.jsx:38-70) |
| CartCoupons.PercentTakenAsFlat | src/Pages/Cart.jsx:138 | FESTIVE30 takes 30 off a cart of 1000 (leaving 970), where the admin rule leaves 700 (see also src/Pages/Cart.jsx:210-211, src/Pages/Cart.jsx:240, src/Admin/Pages/Coupons.jsx:58-60, src/Admin/Pages/Coupons.jsx:119-128) |
| Cart.AddWritten | src/Pages/Cart.jsx:88-100 | a written line whose id the lines before it lack is read back by the load step as it was (see also src/Pages/Cart.jsx:113-117) |
| Cart.LineValuesPrefix | src/Pages/Cart.jsx:116 | writing a prefix of the cart writes the prefix of what is written |
| Cart.ReloadRoundTrip | src/Pages/Cart.jsx:84-117 | the page reads back the cart it wrote: loading it merges nothing and changes nothing |
| Cart.ReloadablePrefix | src/Pages/Cart.jsx:84-103 | a prefix of a reloadable cart is reloadable |
| Cart.ReloadStep | src/Pages/Cart.jsx:88-102 | once the front is read back, the last line is appended as it was |
| Cart.OperationsKeepReloadable | src/Pages/Cart.jsx:182-202 | `updateQty` and `removeItem` keep a cart that reloads unchanged |
| Cart.RemovedSubset | src/Pages/Cart.jsx:199-202 | `removeItem` keeps only original lines |
| Cart.UpdatedFromOriginals | src/Pages/Cart.jsx:182-195 | every line `updateQty` keeps is an original line, perhaps with a new qty |
| Cart.ReconcileSpec | src/Pages/Cart.jsx:252-282 | the two effects reset the applied coupon and the selection exactly in their two cases, leave cart and list alone, and change nothing when run again on their own result |
| Cart.NoneIsListed | src/Pages/Cart.jsx:253 | the cleared coupon is never taken for a removed one |
| Cart.MountForgetsCoupon | src/Pages/Cart.jsx:68-81 | as written, a fresh page clears the coupon applied on an earlier visit and overwrites the stored one, while the cart is still the merged stored cart (see also src/Pages/Cart.jsx:252-282) |
| Cart.MountKeepsCoupon | src/Pages/Cart.jsx:84-179 | with the effects judging the loaded state, the applied coupon is kept exactly when the cart has lines and the list still offers it, and is cleared otherwise (see also src/Pages/Cart.jsx:252-282) |
| Cart.CartPage.constructor | src/Pages/Cart.jsx:65-179 | the page mounts as `MountAsWritten` says: the loaded cart and coupon list, no coupon applied or selected, the cleared coupon stored, and the invariant holds (see also src/Pages/Cart.jsx:252-282) |
| Cart.CartPage.Select | src/Pages/Cart.jsx:72 | picking an entry changes the selection only |
| Cart.CartPage.ApplyCoupon | src/Pages/Cart.jsx:214-249 | the decision is `Decide` on the subtotal; only Clear and Apply change the applied coupon and its key; an empty cart (disabled button) changes nothing (see also src/Pages/Cart.jsx:386) |
| Cart.CartPage.Persist | src/Pages/Cart.jsx:113-121 | the cart becomes the new list and is stored; an empty list clears the coupon (see also src/Pages/Cart.jsx:271-282) |
| Cart.CartPage.UpdateQty | src/Pages/Cart.jsx:182-197 | the cart becomes `QtyUpdated`; the coupon stays while lines remain, even below its minimum; emptying the cart clears it (see also src/Pages/Cart.jsx:271-282) |
| Cart.CartPage.RemoveItem | src/Pages/Cart.jsx:199-202 | the cart becomes `Removed`; emptying the cart clears the coupon (see also src/Pages/Cart.jsx:271-282) |
| Cart.CartPage.Reload | src/Pages/Cart.jsx:128-161 | the list becomes the loaded one; a stored coupon the list lacks is cleared and its key rewritten, otherwise the loaded coupon and selection are taken (see also src/Pages/Cart.jsx:170, src/Pages/Cart.jsx:252-268) |
| Cart.CartPage.StorageChanged | src/Pages/Cart.jsx:163-168 | a write to another key changes only the store; a coupon key reloads the list from the written store |
| Cart.AppliedIsListed | src/Pages/Cart.jsx:240 | the coupon `applyCoupon` stores names an option of the list, so the effect keeps it (see also src/Pages/Cart.jsx:255) |
| Storefront.NumberField | src/Pages/Productspage.jsx:39-43 | the coerced price or original is a number or NaN |
| Storefront.NormaliseSpec | src/Pages/Productspage.jsx:30-50 | the catalogue reads exactly when the text parses to an array without null entries; it then keeps length and position, gives a missing id `p_<idx>`, keeps a given id, reads prices as numbers (0 when unreadable), defaults `original` to the price, defaults the category to "Uncategorized", and makes `featured` a boolean |
| Storefront.SampleProducts | src/Pages/Productspage.jsx:15-28 | 36 demo items, six per demo category in order, each with its fresh id, numeric prices and an original 30 above the price |
| Storefront.SampleCategory | src/Pages/Productspage.jsx:16-18 | item `k` belongs to demo category `k / 6` |
| Storefront.InitialProducts | src/Pages/Productspage.jsx:105-109 | the stored catalogue when it reads as a non-empty list, else the demo items |
| Storefront.Save | src/Pages/Productspage.jsx:61 | the badge amount is a number or NaN, and never negative |
| Storefront.SaveAmount | src/Pages/Productspage.jsx:61 | with numeric prices the badge shows how far the price is below the original (never below 0), and 0 when the original is 0 |
| Storefront.NamesSpec | src/Pages/Productspage.jsx:157-161 | the map's keys are distinct and are exactly the products' categories |
| Storefront.DistinctSnoc | src/Pages/Productspage.jsx:159 | a new key keeps the keys distinct |
| Storefront.MembersSnoc | src/Pages/Productspage.jsx:160 | one more product joins only its own category's list |
| Storefront.MembersOutside | src/Pages/Productspage.jsx:159 | a category no product has has no members |
| Storefront.MembersSpec | src/Pages/Productspage.jsx:157-161 | a category's list holds exactly the products of that category |
| Storefront.Present | src/Pages/Productspage.jsx:163-168 | the preferred names kept are exactly those that occur |
| Storefront.PresentRanked | src/Pages/Productspage.jsx:163-168 | the preferred names present keep the fixed order |
| Storefront.PreferredRanked | src/Pages/Productspage.jsx:156 | the fixed list is in rank order, and a category is preferred exactly when it is on it |
| Storefront.TextBelowWeak | src/Pages/Productspage.jsx:169 | `.sort()` on the keys' text is a total preorder |
| Storefront.GroupsFor | src/Pages/Productspage.jsx:165 | one group per name, holding that name's products (see also src/Pages/Productspage.jsx:169) |
| Storefront.GroupsForAppend | src/Pages/Productspage.jsx:162-169 | the groups of two runs of names are the groups of each |
| Storefront.FillBuckets | src/Pages/Productspage.jsx:155-161 | the first loop leaves the keys in order of first appearance and each key's list of products |
| Storefront.TakePreferred | src/Pages/Productspage.jsx:162-168 | the second loop makes one group per preferred name present, removing it from the map, and leaves the other names with their products |
| Storefront.TakeStep | src/Pages/Productspage.jsx:163-167 | one more iteration of the second loop keeps its invariant |
| Storefront.TakeOne | src/Pages/Productspage.jsx:164-166 | a name in the map becomes a group and leaves the map; one absent changes nothing |
| Storefront.TakeDone | src/Pages/Productspage.jsx:163-168 | after the fixed list the groups are those of the preferred names present and the map holds the others |
| Storefront.PresentSnoc | src/Pages/Productspage.jsx:163-168 | one more candidate adds itself exactly when it occurs |
| Storefront.TakeGroups | src/Pages/Productspage.jsx:165 | the group added for a present name holds its products |
| Storefront.PreferredStep | src/Pages/Productspage.jsx:156 | the fixed list has no repeats |
| Storefront.AppendRest | src/Pages/Productspage.jsx:169 | the last loop appends one group per remaining name, with its products |
| Storefront.GroupByCategory | src/Pages/Productspage.jsx:154-171 | the three loops compute `Grouped` |
| Storefront.RestInBuckets | src/Pages/Productspage.jsx:169 | the sorted remaining names are names of the catalogue that are not preferred |
| Storefront.GroupOrderSpec | src/Pages/Productspage.jsx:156-170 | the order is the preferred names present, ranked, then the others sorted; each part has exactly its names, and no name occurs twice |
| Storefront.GroupOrderNames | src/Pages/Productspage.jsx:154-170 | the group names are distinct and are exactly the catalogue's categories |
| Storefront.GroupedGroups | src/Pages/Productspage.jsx:154-171 | group names are distinct; each group holds exactly the products of its category in catalogue order, so none is empty |
| Storefront.GroupedCovers | src/Pages/Productspage.jsx:157-161 | every product's category names a group |
| Storefront.GroupedOrder | src/Pages/Productspage.jsx:162-169 | the first groups are exactly the preferred ones in the fixed order; the others follow sorted by their text |
| Storefront.SplitOrder | src/Pages/Productspage.jsx:162-169 | groups for a ranked run of preferred names then a sorted run of the others keep that split |
| Storefront.FirstGroup | src/Pages/Productspage.jsx:176 | `find` returns the first group whose key form equals the slug, after groups that were all keyed and differ; a group named by anything but text or undefined, reached first, throws; none exactly when every group is keyed and differs |
| Storefront.NonTextNameThrows | src/Pages/Productspage.jsx:176 | a group named by null, a number, a boolean, an array or an object, ahead of any match, makes the route lookup throw (see also src/Pages/Productspage.jsx:52-58) |
| Storefront.SlugLinkMissed | src/Pages/Productspage.jsx:52-58 | a category "A - B" linked as `a-b` is not found, since its match form is `a---b` (see also src/Pages/Productspage.jsx:173-178, src/Pages/Categories.jsx:41-49) |
| Storefront.SlugLinkFound | src/Pages/Productspage.jsx:173-178 | comparing slug forms, every category a link can name is found, as the first group with that slug |
| Storefront.PlainSlugFound | src/Pages/Productspage.jsx:173-178 | the lookup as written still finds every category whose match form has no two dashes in a row |
| Storefront.InitialIds | src/Pages/Productspage.jsx:35 | every product the page shows gives a cart line with a set id (see also src/Pages/Productspage.jsx:105-109, src/Pages/Productspage.jsx:196-197) |
| Storefront.ProductsPage.constructor | src/Pages/Productspage.jsx:105-111 | the catalogue starts as `InitialProducts`, nothing just added |
| Storefront.ProductsPage.Categories | src/Pages/Productspage.jsx:154-171 | the memo over the current catalogue is `Grouped` |
| Storefront.ProductsPage.AddToCart | src/Pages/Productspage.jsx:195-218 | the merged cart is written and the product marked as just added; when reading the cart throws nothing changes; the catalogue is untouched |
| Storefront.EventVersusStorage | src/Pages/Productspage.jsx:30-50 | the list sent with `products-updated` and the same list read from storage agree entry by entry, except that an entry without title or name is titled "" from the event and `Item <idx + 1>` from storage (see also src/Pages/Productspage.jsx:115-129) |
| Storefront.ProductsPage.OnProductsUpdated | src/Pages/Productspage.jsx:115-134 | a list in the event replaces the catalogue (unchanged when an entry is null); otherwise the stored catalogue replaces it when it reads as a non-empty list |
| Storefront.ProductsPage.OnStorage | src/Pages/Productspage.jsx:137-142 | a new value of the products key that reads as a non-empty list replaces the catalogue; anything else leaves it |
| CartAdd.Find | src/Pages/Productspage.jsx:207 | `find` stops at the first line with the id, reports absence only when no line has it and none is null, and throws only when a null element is reached (see also src/Pages/PopularFoods.jsx:63) |
| CartAdd.BumpEach | src/Pages/Productspage.jsx:210 | the `map` keeps the length, bumps exactly the lines with the id and leaves every other line as it was (see also src/Pages/PopularFoods.jsx:66) |
| CartAdd.AddedSpec | src/Pages/Productspage.jsx:204-213 | the merge succeeds exactly on an array without null elements; it then bumps the lines with the id when there is one and appends the new line at the end otherwise (see also src/Pages/PopularFoods.jsx:50-69) |
| CartAdd.BumpedSpec | src/Pages/Productspage.jsx:210 | a bumped line keeps every other property; its qty goes from `qty \|\| 0` to one more (see also src/Pages/PopularFoods.jsx:66) |
| CartAdd.BumpEachQtySum | src/Pages/Productspage.jsx:210 | bumping adds the number of matching lines to that id's quantity sum and leaves other ids' sums alone (see also src/Pages/Cart.jsx:91-92) |
| CartAdd.BumpedLine | src/Pages/Productspage.jsx:210 | one bumped line adds 1 to its own id's quantity only |
| CartAdd.AddedQty | src/Pages/Productspage.jsx:195-213 | as the cart page later merges it, adding a product raises its quantity by the number of lines with its id (or by 1 when it was absent) and leaves every other id's quantity unchanged (see also src/Pages/Cart.jsx:84-103) |
| CartAdd.BumpedQtySums | src/Pages/Productspage.jsx:210 | the bump's effect on every id's quantity sum |
| CartAdd.AppendedQtySums | src/Pages/Productspage.jsx:212 | the appended line adds 1 to its own id's sum only |
| CartAdd.MatchesPositive | src/Pages/Productspage.jsx:207-209 | a product found in the cart has at least one matching line |
| CartAdd.MatchesZero | src/Pages/Productspage.jsx:211-212 | a product not found has no matching line |
| PopularFoods.Strip.constructor | src/Pages/PopularFoods.jsx:46 | nothing is marked as just added |
| PopularFoods.Strip.AddToCart | src/Pages/PopularFoods.jsx:48-92 | the cart key always receives the new list; the merge branch marks the dish and sends the list with the event; the `catch` branch sends null; the merge branch is taken exactly when the cart reads and the merge succeeds |
| PopularFoods.CartAfterAddSpec | src/Pages/PopularFoods.jsx:48-91 | the written cart always has a line with the dish's id; it is the dish alone exactly when the cart is missing, unreadable, not an array or has a null element; otherwise it is the bumped or extended cart |
| PopularFoods.MergedHasFood | src/Pages/PopularFoods.jsx:63-69 | the merge, or its fallback, on the cart read leaves a line with the dish's id (see also src/Pages/PopularFoods.jsx:80-89) |
| PopularFoods.BadgeAfterAdd | src/Pages/PopularFoods.jsx:48-91 | on a readable cart the badge grows by the number of matching lines (or 1 when none); after the fallback it reads 1 (see also src/Components/Header.jsx:12-22) |
| Header.LineCountSpec | src/Components/Header.jsx:18 | a line whose qty is a non-zero number counts that many; a missing, zero or non-numeric qty counts 1 |
| Header.CountAtLeastLines | src/Components/Header.jsx:18 | with every line counting at least 1, the badge is at least the number of lines |
| Header.UnreadableCountsZero | src/Components/Header.jsx:13-21 | a missing, unparseable or non-array cart (or one whose reduce throws) counts 0 |
| Header.StorageAgreesWithRead | src/Components/Header.jsx:57-66 | the `storage` handler on the cart key counts exactly what `readCartCount` would read from the new value |
| Header.EventAgreesWithRead | src/Components/Header.jsx:43-54 | a list sent with the event counts what a fresh read of that list gives, and an event without a list re-reads storage |
| Header.CountSumAppend | src/Components/Header.jsx:18 | the count of two lists is the sum of their counts |
| Header.BumpEachCount | src/Components/Header.jsx:18 | bumping lines with positive quantities raises the count by the number of matching lines (see also src/Pages/Productspage.jsx:210) |
| Header.CountAfterAdd | src/Components/Header.jsx:18 | after adding a product to a readable cart, the cart stays readable and the badge grows by the number of its lines, or by 1 when it was absent (see also src/Pages/Productspage.jsx:204-213) |
| Header.BumpEachNoNullish | src/Pages/Productspage.jsx:210 | bumping introduces no null element |
| Checkout.InitialCart | src/Pages/Checkout.jsx:22-31 | the route state's cart when it is truthy; else the stored cart; else (nothing stored, or unparseable text) the empty list |
| Checkout.ItemAmount | src/Pages/Checkout.jsx:48 | a line's amount is a number or NaN |
| Checkout.ItemsSubtotal | src/Pages/Checkout.jsx:46-51 | when the `reduce` does not throw its result is a number or NaN |
| Checkout.CheckoutPage.constructor | src/Pages/Checkout.jsx:18-39 | the cart is `InitialCart`, the form is empty, no order is placed |
| Checkout.CheckoutPage.Change | src/Pages/Checkout.jsx:41-44 | only the named field of the form changes |
| Checkout.CheckoutPage.PlaceOrder | src/Pages/Checkout.jsx:53-75 | refused, with nothing changed, exactly when full name, mobile or street is blank after trimming; a subtotal that throws changes nothing; otherwise the order records the form, the items, the subtotal and COD, the page shows it, and the cart key is removed |
| Checkout.PlacedClearsBadge | src/Pages/Checkout.jsx:68 | once the cart key is removed a fresh `readCartCount`, as a header mounted afterwards does, gives 0 (see also src/Components/Header.jsx:14-15) |
| Checkout.PlacedBadgeStale | src/Pages/Checkout.jsx:68 | the header already on the success screen keeps a non-zero count that no longer matches storage, since no `cart-updated` is sent (see also src/Components/Header.jsx:33-66) |
| Checkout.PlacedWithEventClearsBadge | src/Components/Header.jsx:43-53 | a `cart-updated` with no list, sent after the key is removed, brings the badge to 0 |
| Checkout.RouteCartTaken | src/Pages/Checkout.jsx:22-27 | coming from the cart page the checkout uses the cart it was given, whatever coupon came with it (see also src/Pages/Cart.jsx:387-395) |
| Checkout.SubtotalAgrees | src/Pages/Checkout.jsx:46-51 | for lines with truthy quantities the checkout subtotal equals the cart page's subtotal (see also src/Pages/Cart.jsx:205-208) |
| Checkout.SubtotalStep | src/Pages/Checkout.jsx:48 | a line with a truthy quantity adds the same amount to both sums (see also src/Pages/Cart.jsx:206) |
| Checkout.FalsyQtyDiffers | src/Pages/Checkout.jsx:48 | a line whose quantity is 0 or missing counts once at checkout but not at all on the cart page (see also src/Pages/Cart.jsx:206) |
| Checkout.PayableIgnoresCoupon | src/Pages/Checkout.jsx:161 | the checkout charges the full sum while the cart page announced the sum minus the discount (see also src/Pages/Checkout.jsx:189-194, src/Pages/Cart.jsx:210-211, src/Pages/Cart.jsx:387-395) |
| Checkout.PayableCorrectedHonoursCoupon | src/Pages/Cart.jsx:210-211 | with the correction the checkout charges the cart page's total, coupon included and never below 0 (see also src/Pages/Cart.jsx:387-398) |
| Categories.NormaliseCategoriesSpec | src/Pages/Categories.jsx:20-38 | the list reads exactly when the text parses to an array without null entries; it then keeps length and order, every field is set, strings become `{c_<idx>, s, ""}`, and objects keep their id (else `c_<idx>`) and take title from `title` then `name`, image from `image` then `img` |
| Categories.InitialNeverEmpty | src/Pages/Categories.jsx:53-58 | the page never starts empty, and shows the fallback exactly when the stored list is not usable (or is the fallback) |
| Categories.EventKeepsCompleteList | src/Pages/Categories.jsx:62-73 | a non-empty list of complete categories sent with the event arrives unchanged |
| Categories.EncodeAll | src/Admin/Pages/Categories.jsx:76-85 | the stored list has one object per category, in order |
| Categories.StoredRoundTrip | src/Pages/Categories.jsx:20-38 | a stored list of complete categories reads back as itself (see also src/Admin/Pages/Categories.jsx:76-85) |
| Categories.SearchSpec | src/Pages/Categories.jsx:99-101 | the search keeps exactly the categories whose lower-case title contains the trimmed lower-case query; a blank query keeps the whole list in order |
| Categories.FallbackLinksAgree | src/Pages/Categories.jsx:11-18 | every fallback title slugifies and matches to its own lower-case form (see also src/Pages/Categories.jsx:41-49, src/Pages/Productspage.jsx:52-58) |
| Slugs.Strip | src/Pages/Categories.jsx:46 | removing characters never lengthens the text (see also src/Pages/Productspage.jsx:56) |
| Slugs.SkipRun | src/Pages/Categories.jsx:47-48 | skipping a run never lengthens the text |
| Slugs.StripSpec | src/Pages/Categories.jsx:46 | what is left is `[a-z0-9-]` or white space (see also src/Pages/Productspage.jsx:56) |
| Slugs.StripFixes | src/Pages/Categories.jsx:46 | text already of `[a-z0-9-]` loses nothing |
| Slugs.SkipRunSpec | src/Pages/Categories.jsx:47-48 | skipping removes exactly a leading run |
| Slugs.SqueezeChars | src/Pages/Categories.jsx:47-48 | squeezing keeps the non-run characters and writes `-` for each run (see also src/Pages/Productspage.jsx:57) |
| Slugs.SqueezeHead | src/Pages/Categories.jsx:47-48 | a text starting outside a run keeps its first character |
| Slugs.SqueezeDashes | src/Pages/Categories.jsx:48 | collapsing `-+` leaves no two dashes side by side |
| Slugs.SqueezeFixes | src/Pages/Categories.jsx:47-48 | text whose run characters are lone dashes is unchanged |
| Slugs.LowerFixesSlug | src/Pages/Categories.jsx:45 | lower-casing leaves `[a-z0-9-]` text alone |
| Slugs.NormalizeFixes | src/Pages/Productspage.jsx:52-58 | `[a-z0-9-]` text is its own normal form |
| Slugs.NormalizeForMatchChars | src/Pages/Productspage.jsx:52-58 | the match form has only `[a-z0-9-]`: lower case, no white space, so nothing to trim |
| Slugs.NormalizeForMatchIdempotent | src/Pages/Productspage.jsx:52-58 | normalising twice is normalising once |
| Slugs.SlugifyChars | src/Pages/Categories.jsx:41-49 | a slug is `[a-z0-9-]` only, lower case, without white space and without two dashes in a row |
| Slugs.SlugifyIdempotent | src/Pages/Categories.jsx:40-49 | `slugify` is stable: a slug slugifies to itself |
| Slugs.SlugIsNormal | src/Pages/Categories.jsx:41-49 | a slug is also its own match form (see also src/Pages/Productspage.jsx:52-58) |
| Slugs.SlugAgreement | src/Pages/Categories.jsx:41-49 | the two functions agree exactly on the titles whose match form has no two dashes in a row (see also src/Pages/Productspage.jsx:52-58) |
| Slugs.PlainTitle | src/Pages/Categories.jsx:41-49 | a title of letters and digits gives its lower-case form under both (see also src/Pages/Productspage.jsx:52-58) |
| Slugs.PlainHasNoSpaceAtEnds | src/Pages/Categories.jsx:44 | such a title has nothing to trim |
| Slugs.LowerPlain | src/Pages/Categories.jsx:45 | lower-casing it leaves lower-case letters and digits |
| Slugs.LowerCharPlain | src/Pages/Categories.jsx:45 | per character |
| Slugs.PlainFixed | src/Pages/Categories.jsx:46-48 | lower-case letters and digits pass every replace untouched |
| Slugs.SpacedTitleTrim | src/Pages/Categories.jsx:44 | "A - B" has nothing to trim |
| Slugs.SpacedTitleLower | src/Pages/Categories.jsx:45 | "A - B" lower-cases to "a - b" |
| Slugs.SpacedTitleStrip | src/Pages/Categories.jsx:46 | "a - b" keeps all its characters |
| Slugs.SpacedTitleSpaces | src/Pages/Categories.jsx:47 | each space becomes a dash: "a---b" |
| Slugs.SpacedTitleDashes | src/Pages/Categories.jsx:48 | the dash run collapses: "a-b" |
| Slugs.SpacedDashTitle | src/Pages/Categories.jsx:41-49 | "A - B" slugifies to `a-b` but matches as `a---b` (see also src/Pages/Productspage.jsx:52-58) |
| Text.Lower | src/Pages/Categories.jsx:45 | lower-casing keeps the length |
| Text.Upper | src/Admin/Pages/Coupons.jsx:42 | upper-casing keeps the length |
| Text.TrimStart | src/Admin/Pages/Coupons.jsx:42 | trimming never lengthens the text |
| Text.TrimEnd | src/Admin/Pages/Coupons.jsx:42 | trimming never lengthens the text |
| Text.LowerAt | src/Pages/Categories.jsx:45 | case mapping works character by character |
| Text.UpperAt | src/Admin/Pages/Coupons.jsx:42 | case mapping works character by character |
| Text.TrimStartSpec | src/Admin/Pages/Coupons.jsx:42 | exactly the leading white space is removed |
| Text.TrimEndSpec | src/Admin/Pages/Coupons.jsx:42 | exactly the trailing white space is removed |
| Text.NatToString | src/Pages/Productspage.jsx:35 | the decimal text of an index is non-empty and all digits (see also src/Pages/Categories.jsx:27) |
| Text.TrimmedHasNoSpaceAtEnds | src/Admin/Pages/Coupons.jsx:42 | trimmed text neither starts nor ends with white space |
| Text.UpperCharSpace | src/Admin/Pages/Coupons.jsx:42 | upper-casing maps white space to itself and nothing else to white space (see also src/Admin/Pages/Coupons.jsx:186) |
| Text.TrimStartUpper | src/Admin/Pages/Coupons.jsx:42 | trimming the front commutes with upper-casing (see also src/Admin/Pages/Coupons.jsx:186) |
| Text.TrimEndUpper | src/Admin/Pages/Coupons.jsx:42 | trimming the back commutes with upper-casing (see also src/Admin/Pages/Coupons.jsx:186) |
| Text.TrimUpper | src/Admin/Pages/Coupons.jsx:42 | `trim().toUpperCase()` equals `toUpperCase().trim()`, so saving and applying agree on codes (see also src/Admin/Pages/Coupons.jsx:186) |
| Text.TrimFixesNoSpaceAtEnds | src/Admin/Pages/Coupons.jsx:42 | text without white space at either end is left alone |
| Text.TrimIdempotent | src/Admin/Pages/Coupons.jsx:42 | trimming twice is trimming once |
| Text.UpperFixesNoLower | src/Admin/Pages/Coupons.jsx:42 | text without lower-case letters is unchanged by upper-casing |
| Text.TrimNoLower | src/Admin/Pages/Coupons.jsx:186 | trimming keeps text free of lower-case letters |
| Text.UpperNoLower | src/Admin/Pages/Coupons.jsx:186 | upper-cased text has no lower-case letters (see also src/Pages/Cart.jsx:134) |
| Js.Or | src/Pages/Cart.jsx:96-98 | `a \|\| b` is `a` when truthy, else `b` |
| Js.Coalesce | src/Pages/Categories.jsx:29-31 | `a ?? b` is `a` unless null or undefined, else `b` |
| Js.StrToNumber | src/Pages/Cart.jsx:97 | `Number` of text is a number or NaN |
| Js.ToNumber | src/Pages/Cart.jsx:97 | `Number(v)` is a number or NaN, and leaves numbers alone |
| Js.NumberOr | src/Pages/Cart.jsx:97-99 | `Number(v) \|\| d` is the number unless it is 0 or NaN, else `d` (see also src/Components/Header.jsx:18) |
| Js.Plus | src/Pages/Cart.jsx:92 | `a + b` adds two numbers |
| Js.PlusNumbers | src/Pages/Cart.jsx:206 | adding two numbers gives their sum, NaN staying NaN (see also src/Pages/Checkout.jsx:48) |
| Js.Minus | src/Pages/Cart.jsx:211 | a difference is a number or NaN |
| Js.Times | src/Pages/Cart.jsx:206 | a product is a number or NaN |
| Js.MaxZero | src/Pages/Cart.jsx:211 | `Math.max(0, v)` is never negative |
| Order.BelowIrreflexive | src/Pages/Productspage.jsx:169 | no text is below itself |
| Order.BelowTransitive | src/Pages/Productspage.jsx:169 | character order is transitive |
| Order.BelowTotal | src/Pages/Productspage.jsx:169 | two different texts are ordered one way or the other |
| Order.NotBelowTransitive | src/Pages/Productspage.jsx:169 | not being below is transitive |
| Order.Insert | src/Pages/Productspage.jsx:169 | inserting adds exactly the one element |
| Order.SortBy | src/Pages/Productspage.jsx:169 | sorting is a permutation (see also src/Admin/Pages/Products.jsx:371) |
| Order.InsertSorted | src/Pages/Productspage.jsx:169 | inserting into a sorted list keeps it sorted |
| Order.SortBySorted | src/Pages/Productspage.jsx:169 | the result of sorting is ordered and a permutation of the input (see also src/Admin/Pages/Products.jsx:371) |
| Order.DistinctCount | src/Pages/Productspage.jsx:169 | an element occurs at most once in a list without repeats |
| Order.TwiceCount | src/Pages/Productspage.jsx:169 | an element at two positions occurs at least twice |
| Order.DistinctPermutation | src/Pages/Productspage.jsx:169 | a rearrangement of a list without repeats has none |
| Order.Filter | src/Pages/Categories.jsx:99-101 | the filtered list is no longer and keeps exactly the elements that pass (see also src/Pages/Cart.jsx:200) |
| Order.FilterDistinct | src/Pages/Productspage.jsx:169 | filtering a list without repeats leaves none |
| Order.FilterAll | src/Pages/Categories.jsx:99-101 | a test every element passes keeps the whole list |
| Order.FilterSnoc | src/Pages/Categories.jsx:99-101 | filtering keeps order: the filtered front, then the last element if kept |
| Order.FilterCons | src/Admin/Pages/Products.jsx:94-96 | filtering a list with a first element gives that element if kept, then the filtered rest |
| Order.FilterDropsFirst | src/Admin/Pages/Products.jsx:86-96 | a rejected first element is dropped and a fully accepted rest kept |
| AdminCategories.CategoryManager.constructor | src/Admin/Pages/Categories.jsx:38-85 | the manager starts from the list read from the categories key (older format, object format or the defaults) and saves it straight back |
| AdminCategories.CategoryManager.Add | src/Admin/Pages/Categories.jsx:76-88 | `add` puts `{uid(title), title, image}` in front of the list and saves the new list |
| AdminCategories.CategoryManager.Update | src/Admin/Pages/Categories.jsx:76-85 | `update` renames the categories with that id and saves the new list (see also src/Admin/Pages/Categories.jsx:90-101) |
| AdminCategories.CategoryManager.Remove | src/Admin/Pages/Categories.jsx:76-85 | `remove` (and `confirmDelete`) drops the categories with that id and saves the new list (see also src/Admin/Pages/Categories.jsx:103, src/Admin/Pages/Categories.jsx:247-250) |
| AdminCategories.CategoryManager.Submit | src/Admin/Pages/Categories.jsx:157-162 | the form is accepted exactly when the title trims to something; then the edited category is renamed, or a new one added in front, with the trimmed title and image, and saved; a refusal changes nothing (see also src/Admin/Pages/Categories.jsx:252-257) |
| AdminCategories.LegacyFormatSpec | src/Admin/Pages/Categories.jsx:44-52 | a stored array whose first entry is a string keeps its length, each entry becoming the title of a category without image |
| AdminCategories.ObjectFormatSpec | src/Admin/Pages/Categories.jsx:53-58 | a stored array of objects keeps its length and order, keeps each truthy id and fills every field |
| AdminCategories.DefaultsTaken | src/Admin/Pages/Categories.jsx:29-36 | nothing readable stored, or a null entry in the object format, gives the six complete defaults (see also src/Admin/Pages/Categories.jsx:60-73) |
| AdminCategories.DefaultsMatchFallback | src/Admin/Pages/Categories.jsx:29-36 | the admin's defaults have the titles and images of the shop's fallback list, in order (see also src/Pages/Categories.jsx:11-18) |
| AdminCategories.UpdatedSpec | src/Admin/Pages/Categories.jsx:90-101 | a rename keeps positions and ids, changes only the categories with that id, is idempotent and keeps a complete list complete |
| AdminCategories.RemovedSpec | src/Admin/Pages/Categories.jsx:103 | a deletion keeps exactly the categories with another id, keeps a list without that id whole, and keeps a complete list complete |
| AdminCategories.RemoveUndoesAdd | src/Admin/Pages/Categories.jsx:87-88 | deleting a category just added under a new id gives back the list before (see also src/Admin/Pages/Categories.jsx:103) |
| AdminCategories.AddKeepsComplete | src/Admin/Pages/Categories.jsx:87-88 | adding keeps every field of every category set |
| AdminCategories.FormInputSpec | src/Admin/Pages/Categories.jsx:157-162 | the form refuses exactly a title that trims to nothing, and passes on a non-empty title and image with no white space at their ends |
| AdminCategories.EditsKeepTitled | src/Admin/Pages/Categories.jsx:87-103 | adding, renaming with what the form passes, and deleting keep every title non-empty text (see also src/Admin/Pages/Categories.jsx:157-162) |
| AdminCategories.ShopSeesSaved | src/Admin/Pages/Categories.jsx:76-85 | the saved list is what the shop's categories page reads on load (its fallback when empty), on the event and on the storage event; an emptied list in the event leaves the shop's list (see also src/Pages/Categories.jsx:20-38, src/Pages/Categories.jsx:53-58, src/Pages/Categories.jsx:62-90) |
| AdminProducts.Save | src/Admin/Pages/Products.jsx:116 | the badge is a number (or NaN), never negative |
| AdminProducts.SampleProductsSpec | src/Admin/Pages/Products.jsx:27-41 | the demo list has 18 products, three per category in order, the first of each featured, priced 170, 220, 270, each saving 40 |
| AdminProducts.SampleSaves | src/Admin/Pages/Products.jsx:30-39 | the `i`-th demo product of a category costs 170 + 50i, is featured exactly when first, and saves 40 (see also src/Admin/Pages/Products.jsx:116) |
| AdminProducts.SaveSpec | src/Admin/Pages/Products.jsx:116 | with numeric prices the badge is how far the price is below the original (0 above it), and 0 when the original is 0 |
| AdminProducts.UpdatedSpec | src/Admin/Pages/Products.jsx:90-92 | an edit throws exactly on a null item; otherwise it keeps length and order, leaves other ids alone, and gives the matching items every field of the data over their own |
| AdminProducts.EditKeepsIds | src/Admin/Pages/Products.jsx:90-92 | an edit whose payload carries the same id keeps every id of the list (see also src/Admin/Pages/Products.jsx:217-222, src/Admin/Pages/Products.jsx:387-389) |
| AdminProducts.RemovedSpec | src/Admin/Pages/Products.jsx:94-96 | a deletion throws exactly on a null item; otherwise it keeps exactly the items with another id |
| AdminProducts.RemoveUndoesAdd | src/Admin/Pages/Products.jsx:86-88 | deleting a product just added under a new id gives back the list before (see also src/Admin/Pages/Products.jsx:94-96) |
| AdminProducts.NoNullCons | src/Admin/Pages/Products.jsx:86-88 | adding a non-null product keeps the list free of null items |
| AdminProducts.FormPayloadSpec | src/Admin/Pages/Products.jsx:212-222 | the form refuses exactly a blank title and a falsy or non-positive price; a payload has a positive (or NaN) numeric price, the original or else the price, the edited id or a new `p_` one, and the form's other fields |
| AdminProducts.LoadCategoryTitlesSpec | src/Admin/Pages/Products.jsx:102-113 | loaded titles are truthy titles of stored entries, unreadable storage gives none, and the form always offers some category (see also src/Admin/Pages/Products.jsx:310-313) |
| AdminProducts.ManagedTitlesOffered | src/Admin/Pages/Products.jsx:102-113 | the form offers exactly the titles the category manager saved, in order (see also src/Admin/Pages/Categories.jsx:76-85) |
| AdminProducts.FilteredSpec | src/Admin/Pages/Products.jsx:359-367 | an empty query shows the whole list; otherwise it throws exactly on a null product, and keeps exactly the products whose title, description or category contains the query |
| AdminProducts.CategoriesOf | src/Admin/Pages/Products.jsx:371 | one category per product shown, in order |
| AdminProducts.SetOrder | src/Admin/Pages/Products.jsx:371 | `new Set` keeps exactly the members of the list, and no two of its entries are SameValueZero-equal (objects and arrays equal nothing) |
| AdminProducts.SetOrderKeepsReferences | src/Admin/Pages/Products.jsx:371 | every object and array category stays in the set, in order, however alike two of them look |
| AdminProducts.FilterApart | src/Admin/Pages/Products.jsx:371 | dropping `undefined` from the set keeps its entries pairwise apart |
| AdminProducts.DefinedCategoriesSpec | src/Admin/Pages/Products.jsx:371 | the defined entries of the set are pairwise apart, are the shown products' categories other than `undefined`, and are distinct when they are all text |
| AdminProducts.ObjectCategoriesThrow | src/Admin/Pages/Products.jsx:371 | two products with object or array categories, equal-looking or not, make the headings throw |
| AdminProducts.TwoReferenceCategories | src/Admin/Pages/Products.jsx:371 | two object or array categories both survive `new Set`, in product order |
| AdminProducts.NonTextCategoryThrows | src/Admin/Pages/Products.jsx:371 | among two or more defined categories, any one that is not text makes the sort throw |
| AdminProducts.CategoriesFromProductsSpec | src/Admin/Pages/Products.jsx:370-372 | the headings throw exactly on a null product or when the set's two or more defined entries include one that is not text; otherwise they name each category of the shown products exactly once, in text order, with undefined last |
| AdminProducts.ProductManager.constructor | src/Admin/Pages/Products.jsx:48-62 | the list is the parsed stored value, else the demo list, which is then saved; the form's categories are the loaded titles or the six defaults (see also src/Admin/Pages/Products.jsx:310-313) |
| AdminProducts.ProductManager.ReloadCategories | src/Admin/Pages/Products.jsx:315-320 | the form's categories are read again; nothing else changes (see also src/Admin/Pages/Products.jsx:335) |
| AdminProducts.ProductManager.StorageChanged | src/Admin/Pages/Products.jsx:323-334 | a storage change of the categories key reloads the choices; an array under the products key becomes the list; other changes leave the page alone |
| AdminProducts.ProductManager.Add | src/Admin/Pages/Products.jsx:64-88 | on an array the product goes in front and the new list is saved; on any other value list and storage stay unchanged (see the Left-out line) |
| AdminProducts.ProductManager.Update | src/Admin/Pages/Products.jsx:64-84 | the edited list replaces the old one and is saved; a throwing edit leaves list and storage unchanged, standing for the crash the throw causes (see also src/Admin/Pages/Products.jsx:90-92) |
| AdminProducts.ProductManager.Remove | src/Admin/Pages/Products.jsx:64-84 | the list without the id replaces the old one and is saved; a throwing filter leaves list and storage unchanged, standing for the crash the throw causes (see also src/Admin/Pages/Products.jsx:94-96) |
| AdminProducts.ProductManager.ResetDemo | src/Admin/Pages/Products.jsx:415 | the demo list replaces the products and is saved |
| AdminProducts.ProductManager.SubmitForm | src/Admin/Pages/Products.jsx:212-223 | accepted exactly when the form yields a payload; then the edited product is updated by its id, or the payload added in front, and the new list is saved under the products key; a refusal, a list that is not an array or a throwing edit leaves list and storage unchanged (see also src/Admin/Pages/Products.jsx:387-392) |
| AdminProducts.ProductManager.ConfirmDelete | src/Admin/Pages/Products.jsx:394-399 | a product without a truthy id deletes nothing; otherwise every product with its id is removed and the new list saved; a list that is not an array or a throwing filter leaves list and storage unchanged |

## Left out

- Local storage, `CustomEvent` dispatch and listener registration: storage is a map from keys to slots, held as a field of each page class or passed as a parameter; an event is a method or function called with its `detail` or with the key and new value.
- `JSON.parse`/`JSON.stringify`: values are taken already parsed, with `Slot.Corrupt` for text that does not parse; a saved list is stored as the value it encodes.
- `uid()` and `Math.random`: the random part of an id is a parameter (`suffix`, or a function from positions to suffixes).
- Floating-point numbers: prices, quantities, discounts and totals are integers, so fractional prices are not modelled.
- AdminCoupons.PercentOf: rounds the exact share `p * t / 100`, not the double `p / 100 * t`; the two can differ at a half (29 percent of 50 is 14.5 exactly, here 15, but the double is just below 14.5 and the page gets 14).
- `Number()` of text reads decimal integer literals only (no fractions, exponents, hexadecimal or `Infinity`).
- `toLowerCase`, `toUpperCase`, `trim` and the regular-expression classes cover ASCII only.
- `.sort()` and `localeCompare` are both the character order of the text; locale rules are not modelled.
- Object identity: `===` between two objects or arrays is modelled as false, as it is between separately parsed values, and so is SameValueZero (the key equality of `Map` and `Set`); an object that is compared with itself is not modelled.
- Storefront.NamesSpec: the products page's category `Map` (src/Pages/Productspage.jsx:155-161) compares keys by SameValueZero, so two products whose categories are separately parsed, equal-looking objects or arrays get two keys. `Storefront.Names` compares structurally and keeps one. Its keys are distinct under structural equality only; for a catalogue with no two such categories the two agree.
- Storefront.MembersSpec: `map.get(cat)` lists the products with the identical key; `Storefront.Members` puts every product with a structurally equal object or array category in one list.
- Storefront.GroupedGroups: the page makes one group per object or array category value it meets, while the model makes one group per structurally distinct category. The two agree whenever no two products carry equal-looking object or array categories; the storefront's grouping, its loops and the lemmas about them use structural keys throughout.
- A string method called on a value that is not a string (which throws) reads the value's `String()` text instead, in `Categories.TitleMatches`, `AdminProducts.FieldText` and the coupon code reads. `Storefront.FirstGroup` and `AdminProducts.CategoriesFromProducts` model the throw instead.
- AdminProducts.CategoriesFromProductsSpec: the model throws whenever two or more defined categories include one that is not text. The page does not throw when the engine's sort passes that value only as the argument of `localeCompare`, which converts it to text (two categories, the non-text one first, under an insertion sort that calls the comparator with the later element first); which of those cases arise depends on the engine's sort.
- Js.Spread: `{...v}` of a string or an array copies its index keys (`"0"`, `"1"`, …); the model copies no keys for them. This affects `CartAdd.Bumped` and `AdminProducts.Merge` on an entry stored as a string or an array.
- `encodeURIComponent`/`decodeURIComponent`: the route's slug is taken already decoded.
- Timers: the "Added" badge timeouts and the admin search debounce (the query is taken as already settled).
- Scroll-to-hash, `alert`, `window.confirm`, `window.prompt` and `navigate` calls; a refused form is a `false` result or a `None`.
- The accordion's active category on the admin products page (src/Admin/Pages/Products.jsx:374-381), which only chooses what is rendered.
- The header's login state, its logout (which clears the whole storage) and its buttons (src/Components/Header.jsx:28-40, 76-93), which only decide what is shown and where to navigate.
- React's batching of state updates and the double-invoked effects of `StrictMode`; effects are modelled as running once, in order, after the state they read.
- AdminProducts.ProductManager.Add: when the stored products value is not an array, the page spreads a string into its characters, and saves that list, or throws on any other value inside the `setProductsState` updater. React runs the updater again while rendering and the app has no error boundary, so the throw unmounts the app. The model leaves list and storage unchanged in both cases. For the throw the unchanged storage is right (nothing is saved) and the unchanged list stands for the crash; the string spread is not modelled.
- AdminProducts.ProductManager.Update and AdminProducts.ProductManager.Remove: on a products value that is not an array, or on a null item, `map`/`filter` throw inside the `setProductsState` updater (src/Admin/Pages/Products.jsx:79-84). React runs the updater again while rendering and the app has no error boundary, so the page's render throws and the app unmounts. Storage is not written, as `persistAndBroadcast` is never reached; the model's unchanged list and storage stand for that crash.
- Rendering, forms, modals and the markup-only files; src/App.jsx, src/Admin/Auth/Login.jsx, src/Auth/UserLogin.jsx and src/Admin/Pages/Dashboard.jsx are not part of this model.

## Findings

| source | as written | input that shows it | evidently intended | confidence | as-written member | corrected member |
|---|---|---|---|---|---|---|
| src/Pages/Cart.jsx:68-81, 252-282 | the two reconciling effects run on mount with the first render's empty cart and sentinel-only coupon list, so they clear the applied coupon and overwrite the stored one | a stored cart with lines and a stored applied coupon that is in the stored coupon list | the effects judge the loaded cart and list, keeping a coupon that is still offered while the cart has lines | not executed | Cart.MountForgetsCoupon | Cart.MountKeepsCoupon |
| src/Pages/Productspage.jsx:176; src/Pages/Categories.jsx:41-49 | the categories page links to `slugify(title)`, which collapses dash runs, but the products page matches the route against `normalizeForMatch(name)`, which does not | a category titled "A - B": the link is `/category/a-b`, the match form is `a---b`, so no category is found | the route finds the category the card links to | not executed | Storefront.SlugLinkMissed | Storefront.SlugLinkFound |
| src/Pages/Checkout.jsx:68; src/Components/Header.jsx:33-66 | placing an order removes the cart key but sends no `cart-updated`; the header mounted on the success screen keeps the count it read at mount, because its handlers alone change it and a `storage` event reaches other tabs only | a cart of 3 items: after the order the success screen's badge still shows 3 while storage holds no cart | the badge drops to 0 once the order is placed, as after every other cart write | not executed | Checkout.PlacedBadgeStale | Checkout.PlacedWithEventClearsBadge |
| src/Pages/Checkout.jsx:161, 189-194; src/Pages/Cart.jsx:387-395 | the checkout charges its own subtotal and ignores the `appliedCoupon` and `total` the cart page passes | a cart of subtotal 520 with the flat-50 coupon applied: the cart page shows 470, the checkout asks 520 | the checkout charges the total the cart page announced | not executed | Checkout.PayableIgnoresCoupon | Checkout.PayableCorrectedHonoursCoupon |
