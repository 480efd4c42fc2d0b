# Restaurant admin panel: list and form logic in Dafny

This project models the deterministic part of a React admin panel for restaurants and their dishes. The model covers:

- the page of restaurants, kept in step with adds, edits and deletes by a local splice, sort and truncation;
- the dish page, which groups dishes into category and subcategory buckets, normalises search queries and picks what to display;
- the add/edit dish popup, with its serving rows edited by dotted field paths, its price check, the load of an existing dish into rows, and the submit payload, path and error message;
- the dish card, with its serving selector, size highlighting, the render that throws on a serving without a size, word-based description truncation and "N/A" fallbacks;
- the add/edit restaurant popup, with its guards, logo type whitelist and ordered error classification.

Server replies are parameters of the methods (`Http.Reply`: a body, or an axios failure with a response, with only a request, or with neither). Timestamps are integers. JavaScript's "falsy" test is modelled explicitly (`Values.Truthy`, `Values.OrEmpty`): an absent field, `""` and the number `0` are falsy.

Modules:

- `Values`: `Option`, the string-or-number `Scalar`, and truthiness.
- `Http`: axios failures and replies.
- `Catalog`: the server documents.
- `Text`: `trim`, `toLowerCase`, `includes`, `split` and `join` on one character, and `slice(0, n)`.
- `Recency`: `filter` and the stable descending sort both list pages use. It is an insertion sort, proved ordered, a permutation, and order-preserving among equal keys. `Array.prototype.sort` is stable, so any stable sort by the same comparator gives this result.
- `PriceFormat`: the price check `isFloat`. It is a three-state scanner, proved to accept exactly `""` and the language of `^[0-9]+(\.[0-9]*)?$`.
- `RestaurantsPage`, `RestaurantDishes`, `DishForm`, `DishCard`, `RestaurantForm`: one module per component. Each has a class holding the component's state, and functions and lemmas for its pure logic.

## Model

| member | source | states |
|---|---|---|
| Values.OrEmpty | src/components/AddorEditDishPopup.jsx:29-34 | `s \|\| ""` is the string when it is non-empty, else `""` |
| Values.ScalarOrEmpty | src/components/AddorEditDishPopup.jsx:38-44 | `v \|\| ""` keeps a truthy value and turns a missing, empty or zero value into `""` |
| Text.Trim | src/pages/RestaurantDishes.jsx:85 | `trim`; stated by TrimIsSlice, TrimEmptyIffAllSpace and TrimIdempotent |
| Text.TrimIsSlice | src/pages/RestaurantDishes.jsx:85 | `trim` keeps one contiguous slice of the input and drops only whitespace around it; the result neither starts nor ends with whitespace |
| Text.TrimEmptyIffAllSpace | src/pages/RestaurantDishes.jsx:79 | a string is blank after `trim` exactly when it is all whitespace |
| Text.TrimIdempotent | src/pages/RestaurantDishes.jsx:85 | trimming twice is trimming once |
| Text.ToLower | src/pages/RestaurantDishes.jsx:85 | `toLowerCase` keeps the length and lower-cases each character in place |
| Text.ToLowerProperties | src/pages/RestaurantDishes.jsx:85 | lower-casing leaves no upper-case ASCII letter, keeps whitespace where it was, and is idempotent |
| Text.Contains | src/components/AddorEditDishPopup.jsx:194 | `includes`; stated by NotAt and AbsentFirst |
| Text.NotAt | src/components/AddorEditDishPopup.jsx:194 | one mismatching character rules out an occurrence of `sub` at a position |
| Text.AbsentFirst | src/components/AddorEditDishPopup.jsx:194 | a string lacking the first character of `sub` does not include `sub` |
| Text.Split | src/components/DishCard.jsx:77 | `split` on one character; stated by JoinSplit, SplitLength, SplitPiecesFree, SplitLast, SplitTwo and SplitNoSeparator |
| Text.Join | src/components/DishCard.jsx:79 | `join` with one character; stated by JoinSplit, JoinPrefix and DishCard.JoinAppendOne |
| Text.SplitLength | src/components/DishCard.jsx:77 | `split` on one character gives at most one piece more than the string has characters |
| Text.JoinSplit | src/components/DishCard.jsx:77-79 | joining the pieces of a split with the separator gives the input back |
| Text.SplitPiecesFree | src/components/AddorEditDishPopup.jsx:189 | no piece of a split contains the separator |
| Text.JoinPrefix | src/components/DishCard.jsx:79 | joining the first k pieces gives a prefix of joining them all |
| Text.SplitLast | src/components/AddorEditDishPopup.jsx:253 | after the last separator, the last piece is the separator-free tail |
| Text.SplitTwo | src/components/AddorEditDishPopup.jsx:189 | a path with exactly one "." splits into its two sides |
| Text.SplitNoSeparator | src/components/AddorEditDishPopup.jsx:189 | a path without "." splits into itself alone |
| Text.Take | src/components/AddorEditDishPopup.jsx:310 | `slice(0, n)` is a prefix of length min(n, length), and the whole string when it is short enough |
| Recency.Filter | src/pages/Restaurants.jsx:137-139 | `filter` keeps only elements passing the test, all of those elements, as a sub-multiset of the input |
| Recency.FilterCount | src/pages/Restaurants.jsx:137-139 | each element passing the test is kept exactly as often as it occurs, and no other element is kept |
| Recency.FilterAppend | src/pages/Restaurants.jsx:137-139 | filtering a concatenation filters each part and keeps the parts in order, so the kept elements keep their relative order |
| Recency.Insert | src/pages/Restaurants.jsx:143-147 | inserting adds exactly the one element to the multiset |
| Recency.SortDesc | src/pages/Restaurants.jsx:143-147 | the sort by `key(b) - key(a)` is a permutation ordered non-increasingly by key |
| Recency.ConsSorted | src/pages/Restaurants.jsx:143-147 | an element no smaller than every key of an ordered list can go in front of it |
| Recency.InsertSorted | src/pages/Restaurants.jsx:143-147 | inserting into an ordered list keeps it ordered |
| Recency.InsertBounded | src/pages/Restaurants.jsx:143-147 | inserting an element under a bound into a list under it keeps every element under it |
| Recency.InsertStable | src/pages/Restaurants.jsx:143-147 | inserting keeps, for every key, the order of the elements with that key |
| Recency.WithKeyCons | src/pages/Restaurants.jsx:143-147 | the elements with a key in a list with a head added are the head, if it has that key, then those of the tail |
| Recency.SortDescStable | src/pages/Restaurants.jsx:143-147 | the sort is stable: elements with equal keys keep their input order |
| Recency.SortDescOfSorted | src/pages/Restaurants.jsx:143-147 | an already ordered list is left as it is |
| Recency.PrefixSorted | src/pages/Restaurants.jsx:149-152 | a prefix of an ordered list is ordered |
| Recency.CountAboveNone | src/pages/Restaurants.jsx:143-147 | no element lies above a key that bounds them all |
| Recency.SortDescCountAbove | src/pages/Restaurants.jsx:143-147 | sorting does not change how many elements lie above a key |
| Recency.InsertCountAbove | src/pages/Restaurants.jsx:143-147 | inserting does not change how many elements lie above a key, counting the inserted one |
| Recency.InsertPosition | src/pages/Restaurants.jsx:143-147 | in an ordered list the inserted element lands right behind the elements with a larger key |
| Recency.SortedTail | src/pages/Restaurants.jsx:143-147 | the tail of an ordered list is ordered |
| Recency.InsertInFront | src/pages/Restaurants.jsx:143-147 | an element at least as large as the head goes in front, with nothing above it |
| Recency.InsertBehindFirst | src/pages/Restaurants.jsx:143-147 | past a larger head the element lands one place further back |
| RestaurantsPage.ReplaceById | src/pages/Restaurants.jsx:130-133 | edit maps every entry with the updated id to the updated restaurant and keeps every other entry in place |
| RestaurantsPage.RecencyKey | src/pages/Restaurants.jsx:144-145 | the sort key `updatedAt \|\| createdAt`; the sort by it is stated by Recency.SortDesc and Recency.SortDescStable |
| RestaurantsPage.KeepOthers | src/pages/Restaurants.jsx:136-139 | delete keeps exactly the entries whose id is not the selected one, each as often as it was listed |
| RestaurantsPage.KeepOthersInOrder | src/pages/Restaurants.jsx:136-139 | delete keeps the other entries in their order: dropping from a concatenation drops from each part |
| RestaurantsPage.Splice | src/pages/Restaurants.jsx:128-140 | the list before sorting: prepend on add, replace by id on edit, drop by the selected id on delete; stated by ReplaceById, KeepOthers and the lemmas below |
| RestaurantsPage.Reconcile | src/pages/Restaurants.jsx:127-154 | the new page after a mutation: splice, sort most recent first, keep 20; stated by ReconcileShape and the add, edit and delete lemmas below |
| RestaurantsPage.ReconcileShape | src/pages/Restaurants.jsx:142-152 | after any mutation the page has at most 20 entries, sorted most recent first, forming a prefix of the sorted spliced list and a sub-multiset of it |
| RestaurantsPage.ReconcileKeepsAllWhenSmall | src/pages/Restaurants.jsx:149-152 | when the spliced list fits on a page, the page is a permutation of it |
| RestaurantsPage.AddPlacement | src/pages/Restaurants.jsx:134-147 | after add and sort, the new restaurant sits right behind the listed restaurants more recent than it |
| RestaurantsPage.AddKeepsNewUnlessTwentyNewer | src/pages/Restaurants.jsx:134-152 | add keeps the new restaurant when fewer than 20 listed ones are more recent |
| RestaurantsPage.AddDropsNewWhenTwentyNewer | src/pages/Restaurants.jsx:134-152 | conversely, a new restaurant that was not listed survives only when fewer than 20 listed ones are more recent |
| RestaurantsPage.AddToShortPageKeepsNew | src/pages/Restaurants.jsx:134-152 | add on a page of fewer than 20 always shows the new restaurant |
| RestaurantsPage.EditReplacesById | src/pages/Restaurants.jsx:130-133 | after edit, no entry with the edited id remains except the new version |
| RestaurantsPage.EditKeepsOthers | src/pages/Restaurants.jsx:130-133 | edit on a page that fits keeps every entry with another id, and shows the new version when its id was listed |
| RestaurantsPage.DeleteRemovesSelected | src/pages/Restaurants.jsx:136-139 | after delete no entry carries the selected id; on a page that fits every other entry stays |
| RestaurantsPage.RestaurantList.constructor | src/pages/Restaurants.jsx:12-23 | the initial state: empty list, loading, page 1 of 1, no popup, mode "add" |
| RestaurantsPage.RestaurantList.FetchRestaurants | src/pages/Restaurants.jsx:25-47 | the request carries the page and the current query; a reply replaces the list and both counters wholesale; a failure records the message and empties the list; nothing else changes |
| RestaurantsPage.RestaurantList.HandlePageChange | src/pages/Restaurants.jsx:94-98 | the page changes only to a page within 1..totalPages, otherwise it stays |
| RestaurantsPage.RestaurantList.SetDebouncedQuery | src/pages/Restaurants.jsx:85-87 | a changed query resets the page to 1; the same query changes nothing |
| RestaurantsPage.RestaurantList.HandleAddClick | src/pages/Restaurants.jsx:106-110 | opens the popup in add mode with no restaurant |
| RestaurantsPage.RestaurantList.HandleEditClick | src/pages/Restaurants.jsx:100-104 | opens the popup in edit mode for the restaurant |
| RestaurantsPage.RestaurantList.HandleDeleteClick | src/pages/Restaurants.jsx:112-116 | opens the popup in delete mode for the restaurant |
| RestaurantsPage.RestaurantList.ClosePopup | src/pages/Restaurants.jsx:118-121 | closes the popup and forgets the restaurant |
| RestaurantsPage.RestaurantList.UpdateRestaurantList | src/pages/Restaurants.jsx:123-155 | back to page 1; the list becomes the reconciled list (deletion by the selected restaurant's id), at most 20 entries, most recent first; no other field changes before the count refresh at line 158, which is not modelled |
| RestaurantDishes.Bucket | src/pages/RestaurantDishes.jsx:139-145 | one bucket: filter, then sort by `updatedAt`; stated by BucketContents |
| RestaurantDishes.Organize | src/pages/RestaurantDishes.jsx:135-146 | `organizedDishes`; stated by OrganizeShape, DirectBucketExact, SubBucketExact and UnknownCategoryDropped |
| RestaurantDishes.BucketContents | src/pages/RestaurantDishes.jsx:139-145 | a bucket holds exactly the dishes its test accepts, as a sub-multiset of the dishes, most recently updated first, equal times in list order |
| RestaurantDishes.OrganizeShape | src/pages/RestaurantDishes.jsx:135-138 | one group per category in category order, one subgroup per subcategory in that category's order, with their names |
| RestaurantDishes.DirectBucketExact | src/pages/RestaurantDishes.jsx:143-145 | a category's own bucket is exactly the dishes of that category with a falsy subcategory id, sorted |
| RestaurantDishes.SubBucketExact | src/pages/RestaurantDishes.jsx:139-141 | a subcategory's bucket is exactly the dishes with its id, whatever their category id, sorted |
| RestaurantDishes.UnknownCategoryDropped | src/pages/RestaurantDishes.jsx:143-144 | a dish without a subcategory whose category is not in the tree appears in no bucket |
| RestaurantDishes.LoadedDishes | src/pages/RestaurantDishes.jsx:32-34 | the loaded list is the reply's dishes (none if absent) as a permutation, most recently updated first |
| RestaurantDishes.NormalizeQuery | src/pages/RestaurantDishes.jsx:79-85 | the query sent, none for a blank one; stated by NormalizeQueryProperties |
| RestaurantDishes.SearchResultsAfter | src/pages/RestaurantDishes.jsx:78-98 | `searchResults` after a search: null, the reply's list, or an empty list; stated by SearchDecidesView and DishesPage.OnSearch |
| RestaurantDishes.ViewOf | src/pages/RestaurantDishes.jsx:194-253 | what the page shows: loading, the load error (lines 126-132), then grouped, no results or the result list; stated by SearchDecidesView |
| RestaurantDishes.TrimOfTrimmed | src/pages/RestaurantDishes.jsx:85 | a string with no whitespace at either end is its own trim |
| RestaurantDishes.NormalizeQueryProperties | src/pages/RestaurantDishes.jsx:79-85 | no request exactly for an all-whitespace query; a sent query is non-empty, has no surrounding whitespace and no upper-case letter, and normalises to itself |
| RestaurantDishes.SearchDecidesView | src/pages/RestaurantDishes.jsx:194-253 | once loaded, a blank search shows the grouped view; a failed search, or a reply with a missing or empty list, shows "no dishes found"; a search with results lists them |
| RestaurantDishes.DishesPage.constructor | src/pages/RestaurantDishes.jsx:12-21 | the initial state: nothing loaded, loading, no error, no search |
| RestaurantDishes.DishesPage.FetchRestaurantData | src/pages/RestaurantDishes.jsx:25-56 | a reply sets the sorted dishes, the categories (or none), the name (or "Restaurant {id}") and then the count (or 0); either failure sets the load error; loading ends either way |
| RestaurantDishes.DishesPage.OnSearch | src/pages/RestaurantDishes.jsx:78-98 | the query sent is the normalised query, none when blank; the results become null, the reply's list, or empty on failure |
| RestaurantDishes.DishesPage.HandleClearSearch | src/pages/RestaurantDishes.jsx:100-104 | clears the query and the results |
| RestaurantDishes.DishesPage.HandleAddDish | src/pages/RestaurantDishes.jsx:106-116 | a reply replaces dishes and categories unsorted; a failure changes nothing |
| PriceFormat.IsFloat | src/components/AddorEditDishPopup.jsx:192 | `isFloat` as a scanner run; stated by IsFloatDecidesPattern and PriceExamples |
| PriceFormat.RunReject | src/components/AddorEditDishPopup.jsx:192 | once rejected, the scanner stays rejected |
| PriceFormat.RunFraction | src/components/AddorEditDishPopup.jsx:192 | in the fraction the scanner stays there exactly on a digit run |
| PriceFormat.RunWhole | src/components/AddorEditDishPopup.jsx:192 | in the integer part the scanner stays there exactly on digits, and ends in the fraction exactly on digits, a point, digits |
| PriceFormat.IsFloatDecidesPattern | src/components/AddorEditDishPopup.jsx:192 | `isFloat` holds exactly for `""` and the strings matching `^[0-9]+(\.[0-9]*)?$` |
| PriceFormat.PriceExamples | src/components/AddorEditDishPopup.jsx:192 | "12.30", "0", "" and "12." pass; "12.3.4", "-5" and ".5" fail |
| DishForm.IsPriceField | src/components/AddorEditDishPopup.jsx:194 | which paths go through the price check; stated by PriceChange, SizeChange and NutrientPathsNotPrice |
| DishForm.ChangeServingInfos | src/components/AddorEditDishPopup.jsx:187-215 | the outcome of a field change; stated by ChangeTouchesOneRow, OutOfRangeThrows, SizeChange, PriceChange and NutrientChange |
| DishForm.StepInto | src/components/AddorEditDishPopup.jsx:200 | `temp = temp[key]`: only the row's `nutritionFacts` leads to an object; stated through Walk |
| DishForm.Assign | src/components/AddorEditDishPopup.jsx:197-199 | the final `temp[key] = value`; stated by SizeChange, PriceChange and NutrientChange |
| DishForm.Start | src/components/AddorEditDishPopup.jsx:190 | `temp` starts at a row exactly when the index is in range |
| DishForm.Walk | src/components/AddorEditDishPopup.jsx:196-202 | walking the path's inner keys reaches the row only for a one-key path, the nutrition object only for `nutritionFacts.<x>`, and a dead end is final |
| DishForm.ChangeTouchesOneRow | src/components/AddorEditDishPopup.jsx:187-215 | an applied change needs an index in range and keeps the number of rows and every other row |
| DishForm.OutOfRangeThrows | src/components/AddorEditDishPopup.jsx:187-215 | with the index out of range, a change that passes the price check throws |
| DishForm.SizeChange | src/components/AddorEditDishPopup.jsx:205-214 | the size input sets exactly the size of row `index` |
| DishForm.PriceChange | src/components/AddorEditDishPopup.jsx:192-204 | the price input sets the price of row `index` exactly when the value is empty or matches the pattern; otherwise nothing changes |
| DishForm.NutrientPathsNotPrice | src/components/AddorEditDishPopup.jsx:194 | no `nutritionFacts.<nutrient>` path contains "price" |
| DishForm.NutrientChange | src/components/AddorEditDishPopup.jsx:205-214 | a nutrient input sets that nutrient of row `index`; every other field, unit and row stays |
| DishForm.WithoutIndex | src/components/AddorEditDishPopup.jsx:182-185 | removing an index in range drops exactly that element, keeping the others in order; an index out of range changes nothing |
| DishForm.TransformEntry | src/components/AddorEditDishPopup.jsx:37-45 | one server entry as a form row; stated by TransformProperties |
| DishForm.TransformServings | src/components/AddorEditDishPopup.jsx:37-46 | the edit-mode rows; stated by TransformProperties and TransformNormalises |
| DishForm.TransformProperties | src/components/AddorEditDishPopup.jsx:37-46 | one row per server entry (none when absent); truthy values are carried over, missing or falsy ones become ""; loaded rows have no unit fields |
| DishForm.TransformNormalises | src/components/AddorEditDishPopup.jsx:37-46 | no loaded price or nutrient is falsy unless it is "" (a 0 arrives as "") |
| DishForm.Payload | src/components/AddorEditDishPopup.jsx:222-237 | `dishData`; stated by PayloadProperties, PayloadIgnoresUnits, AppendRowPayload, RemoveRowPayload and LoadThenSubmit |
| DishForm.PayloadProperties | src/components/AddorEditDishPopup.jsx:222-237 | the payload keeps the rows' number and order with size, price and the four nutrients; the original ids are "" when the dish lacks them |
| DishForm.PayloadIgnoresUnits | src/components/AddorEditDishPopup.jsx:227-236 | rows differing only in unit fields give the same payload |
| DishForm.AppendRowPayload | src/components/AddorEditDishPopup.jsx:162-180 | an added row adds one blank serving at the end of the payload |
| DishForm.RemoveRowPayload | src/components/AddorEditDishPopup.jsx:182-185 | removing a row removes the same serving from the payload |
| DishForm.LoadThenSubmit | src/components/AddorEditDishPopup.jsx:222-237 | submitting right after loading a dish sends back its ids and every truthy size, price and nutrient, one serving per entry, in order |
| DishForm.SubmitPath | src/components/AddorEditDishPopup.jsx:242-260 | the edit or create path, none in edit mode without a dish; stated by SubmitPathLastSegment |
| DishForm.SubmitPathLastSegment | src/components/AddorEditDishPopup.jsx:252-260 | the last path segment is the selected subcategory id, "" when none is selected |
| DishForm.SubmitErrorMessage | src/components/AddorEditDishPopup.jsx:267-270 | the message of a failed submit; stated by SubmitErrorShown |
| DishForm.SubmitErrorShown | src/components/AddorEditDishPopup.jsx:267-270 | a failed submit always shows a message: the server's message when set, else "Error updating/adding dish. " followed by the details |
| DishForm.ClampDescription | src/components/AddorEditDishPopup.jsx:310 | the description is a prefix of the input of at most 150 characters, the input itself when it fits |
| DishForm.ClampIdempotent | src/components/AddorEditDishPopup.jsx:310 | clamping twice is clamping once |
| DishForm.FindFirst | src/components/AddorEditDishPopup.jsx:108-110 | `find` gives nothing exactly when no element matches, and otherwise the first match |
| DishForm.CategoryById | src/components/AddorEditDishPopup.jsx:62-64 | `find` by category id; stated through FindFirst |
| DishForm.CategoryByName | src/components/AddorEditDishPopup.jsx:108-110 | `find` by category name; stated by CategoryByNameFirst |
| DishForm.SubCategoryByName | src/components/AddorEditDishPopup.jsx:146-148 | `find` by subcategory name; stated by SubCategoryByNameFirst |
| DishForm.CategoryByNameFirst | src/components/AddorEditDishPopup.jsx:108-115 | the category selected after adding one is the first with the typed name |
| DishForm.SubCategoryByNameFirst | src/components/AddorEditDishPopup.jsx:146-151 | the subcategory selected after adding one is the first with the typed name |
| DishForm.DishFormState.constructor | src/components/AddorEditDishPopup.jsx:14-23 | the initial state: empty lists and selections, name and description from the dish or "" |
| DishForm.DishFormState.LoadForEdit | src/components/AddorEditDishPopup.jsx:27-49 | in edit mode with a dish, fills name, description, both selections and the transformed rows; otherwise nothing changes |
| DishForm.DishFormState.FetchCategories | src/components/AddorEditDishPopup.jsx:52-78 | stores the category tree; in edit mode selects the dish's category, its subcategories and subcategory when the category is in the tree; a failure sets the message only |
| DishForm.DishFormState.SyncSubCategories | src/components/AddorEditDishPopup.jsx:80-88 | with a category selected, offers its subcategories (none if unknown) and preselects the dish's subcategory or "" |
| DishForm.DishFormState.HandleAddCategory | src/components/AddorEditDishPopup.jsx:91-120 | a blank name sends nothing and changes nothing; on failure only the message is set; on success the new tree is stored, the input cleared and the first category with the name selected |
| DishForm.DishFormState.SelectAddedCategory | src/components/AddorEditDishPopup.jsx:103-115 | stores the tree, clears the input, selects the first category with the name with its subcategories and no subcategory |
| DishForm.DishFormState.HandleAddSubCategory | src/components/AddorEditDishPopup.jsx:122-159 | needs a non-blank name and a selected category; on success offers the category's new subcategories, selects the first with the name and clears the input; the category list is not refreshed |
| DishForm.DishFormState.HandleAddServingInfo | src/components/AddorEditDishPopup.jsx:162-180 | appends one row with every field "" |
| DishForm.DishFormState.HandleRemoveServingInfo | src/components/AddorEditDishPopup.jsx:182-185 | the rows become the rows without that index |
| DishForm.DishFormState.HandleChangeServingInfo | src/components/AddorEditDishPopup.jsx:187-215 | the walk over the path's keys ends as the change function says; the rows change only when the write is applied |
| DishForm.DishFormState.SetDescription | src/components/AddorEditDishPopup.jsx:310 | the description becomes the clamped input |
| DishForm.DishFormState.HandleSubmit | src/components/AddorEditDishPopup.jsx:217-272 | sends the payload to the edit or create path; closes exactly on success and then passes the server's dish on to `updateDishList`; on failure shows the submit error message; in edit mode without a dish sends nothing and shows "Error updating dish. " |
| DishCard.InitialSelection | src/components/DishCard.jsx:21-23 | the first serving's info, or none when there is no first serving or it lacks one |
| DishCard.IsHighlighted | src/components/DishCard.jsx:142 | the highlight test; stated by ChosenSizeHighlighted, Buttons and NothingSelectedCard |
| DishCard.ChosenSizeHighlighted | src/components/DishCard.jsx:142 | after choosing a serving, exactly the buttons with the same size are highlighted, duplicates included |
| DishCard.ServingSelector.constructor | src/components/DishCard.jsx:21-23 | the selection starts as the initial selection |
| DishCard.ServingSelector.HandleServingSizeChange | src/components/DishCard.jsx:33-35 | the selection becomes the chosen entry's serving info |
| DishCard.TruncateDescription | src/components/DishCard.jsx:76-82 | `truncateDescription`; stated by TruncateDescriptionProperties and ShortTextShownWhole |
| DishCard.TruncateDescriptionProperties | src/components/DishCard.jsx:76-82 | up to 150 words the text is unchanged; past that it is the first 150 words joined by spaces, a proper prefix of the text, then "..." |
| DishCard.JoinAppendOne | src/components/DishCard.jsx:79 | joining one more piece adds the separator and that piece |
| DishCard.SizeLabel | src/components/DishCard.jsx:148 | the label is a prefix of the size of at most 5 characters, the whole size when it fits |
| DishCard.DisplayValue | src/components/DishCard.jsx:158 | a truthy value is shown as it is, anything else as "N/A"; the shown value is never falsy |
| DishCard.DisplayUnit | src/components/DishCard.jsx:159-180 | `u \|\| ""`: a non-empty unit is shown as it is, a missing or empty one as `""` |
| DishCard.NutrientUnit | src/components/DishCard.jsx:159-180 | the unit after a tile's value; stated by DisplayUnit, NothingSelectedShowsNA and NothingSelectedCard |
| DishCard.NutrientText | src/components/DishCard.jsx:158-179 | a nutrition tile's value; stated by DisplayValue and NothingSelectedShowsNA |
| DishCard.PriceText | src/components/DishCard.jsx:187 | the price strip's value; stated by DisplayValue, NothingSelectedShowsNA and ZeroShowsNA |
| DishCard.NothingSelectedShowsNA | src/components/DishCard.jsx:158-187 | with nothing selected every nutrient and the price read "N/A", and no unit is shown |
| DishCard.ZeroShowsNA | src/components/DishCard.jsx:187 | a price of 0 reads "N/A" |
| DishCard.FormatDate | src/components/DishCard.jsx:37-48 | "N/A" exactly for a missing date, else the timestamp is rendered |
| DishCard.Showable | src/components/DishCard.jsx:142-148 | a serving the size buttons can show: it has a serving info with a size; stated through CardOutcome |
| DishCard.Buttons | src/components/DishCard.jsx:137-150 | one button per serving, titled with its size, captioned with at most its first five characters, highlighted exactly when a serving is selected and has that size |
| DishCard.Tiles | src/components/DishCard.jsx:154-183 | the four nutrition tiles in order, each a value and a unit |
| DishCard.DescriptionOf | src/components/DishCard.jsx:25-27 | the shown description, the default text when the dish has none |
| DishCard.CardOf | src/components/DishCard.jsx:25-199 | what the card renders: the fallback, a render that throws, or the card; stated by CardOutcome, CardShape and NothingSelectedCard |
| DishCard.CardOutcome | src/components/DishCard.jsx:86-148 | the fallback shows exactly when there are no servings; the render throws exactly when some serving lacks its info or its size |
| DishCard.CardShape | src/components/DishCard.jsx:25-150 | a rendered card shows every serving, each with a size, as Buttons states; four tiles; missing name and description get the defaults |
| DishCard.NothingSelectedCard | src/components/DishCard.jsx:137-187 | on a rendered card with nothing selected no button is highlighted, every tile reads "N/A" with no unit, and so does the price |
| DishCard.ShortTextShownWhole | src/components/DishCard.jsx:76-82 | a text shorter than 150 characters is shown whole |
| RestaurantForm.ClassifyError | src/components/AddorEditRestaurantPopup.jsx:68-84 | the message of a failed request; stated by ClassifyErrorOrder |
| RestaurantForm.ClassifyErrorOrder | src/components/AddorEditRestaurantPopup.jsx:68-84 | the body's message, then "Resource not found." for 404, then "Server error: " and the status text; no response gives the network message; anything else the unexpected one |
| RestaurantForm.SubmitPlan | src/components/AddorEditRestaurantPopup.jsx:19-64 | the refusal or the request of a submit; stated by SubmitGuards and SubmitForm |
| RestaurantForm.SubmitGuards | src/components/AddorEditRestaurantPopup.jsx:19-64 | a request goes out exactly for a non-empty name in add mode, or in edit mode with an id; each refusal has its message |
| RestaurantForm.SubmitForm | src/components/AddorEditRestaurantPopup.jsx:28-45 | the form carries the name first, the logo exactly when set, and the id exactly in edit mode, last |
| RestaurantForm.RestaurantFormState.constructor | src/components/AddorEditRestaurantPopup.jsx:10-12 | the name starts as the restaurant's name or "", with no logo and no error |
| RestaurantForm.RestaurantFormState.HandleFileChange | src/components/AddorEditRestaurantPopup.jsx:93-108 | no file clears the logo and keeps the error; a whitelisted type clears the error and keeps the file; any other type sets the error and clears the logo |
| RestaurantForm.RestaurantFormState.HandleSubmit | src/components/AddorEditRestaurantPopup.jsx:15-88 | a refused submit shows its message and sends nothing; a sent request clears the error; on success it passes the server's restaurant on to `updateRestaurantList` and closes; on failure it shows the classified message |

## Left out

- HTTP: axios and fetch calls, JSON parsing and the base URL from the environment. Replies are method parameters, and the request a method would send is its result.
- `fetchTotalRestaurants` (src/pages/Restaurants.jsx:49-73) is not modelled. `updateRestaurantList` starts it after every add, edit or delete, and it writes two fields of the page. On a reply with a count it sets `totalRestaurants`. Otherwise it sets `error`, and on a failed request or an unreadable body it also sets `totalRestaurants` to 0. Its URL is a single-quoted literal, a path relative to the current page rather than the API, so in practice the error branch is the likely one. The model's `UpdateRestaurantList` does not capture these two writes.
- Debouncing (src/pages/Restaurants.jsx:76-82, src/components/SearchDish.jsx:6-14) is not modelled. `SetDebouncedQuery` and `OnSearch` stand for the callback once the timer fires.
- Dates: `new Date(...)`, `toLocaleString` and invalid dates (NaN) are not modelled. Timestamps are integers, and only a missing date is falsy.
- React effects: their ordering and re-rendering are not modelled, only the assignments each effect makes. This includes the interplay of the category fetch with the subcategory effect.
- Browser behaviour is not modelled: scrolling, `window.location.reload`, and the form's `required` attributes on the dish name and category.
- The home page, header, routing and the delete popups are not modelled. They contain no list or form logic beyond fetches.
- DishCard's popup and modal flags and its `updateDishList` are not modelled. They are fetches and visibility toggles.
- The card's `categoryName` and `subCategoryName` props are shown as they are passed, with "N/A" defaults; they come from the page and are not part of `CardView`.
- Absent subcategory lists on server categories are not modelled. `Catalog.Category` always has one, so `|| []` on them is not modelled.
- Null and undefined are not told apart. Destructuring defaults apply to both.
- `toLowerCase` is modelled on ASCII letters only.
- `slice` and `length` count UTF-16 code units. The model counts characters.
- Objects are values. The shallow copy in `handleChangeServingInfo` shares row objects with the previous state; that sharing is not modelled.
- A dotted path that reaches an inherited `Object.prototype` property is not modelled. The model treats every key other than the form's own fields as a stray property or a TypeError.
- DishForm.DishFormState.HandleChangeServingInfo: a write to a property the row does not have, and replacing the nutrition object by a string, are reported as outcomes and leave the rows unchanged. In the source they mutate the shared row object.
- Dish names and restaurant names are not validated beyond what the code checks. The restaurant popup computes a trimmed, lower-cased name but never uses it, and a name of spaces passes.
- No stale-response guard and no in-flight submit lock exist in the code, so none are modelled.
- The card's selection is initialised once and is not re-derived when the dish changes; the model follows the code.
- A successful restaurant fetch does not clear an earlier error; the model follows the code.
- A delete removes every entry with the selected id, not only the first, and ignores the callback's argument; the model follows the code.
- RestaurantsPage.EditKeepsOthers: states "every other entry stays" only when the page had at most 20 entries. Edit keeps the length, so the page never has more in practice.
- RestaurantsPage.DeleteRemovesSelected: states "every other entry stays" only for a page of at most 20 entries, for the same reason.
