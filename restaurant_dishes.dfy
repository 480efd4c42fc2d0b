/** The dish list of one restaurant (src/pages/RestaurantDishes.jsx):
    the loaded dishes and category tree, the grouping of dishes into
    category and subcategory buckets, the dish search and the choice of
    what the page shows. */
module RestaurantDishes {
  import opened Values
  import opened Text
  import opened Recency
  import opened Http
  import opened Catalog

  /** The sort key `new Date(d.updatedAt)`. */
  function UpdatedKey(d: Dish): int
  {
    d.updatedAt
  }

  datatype SubGroup = SubGroup(subCategoryName: string, dishes: seq<Dish>)

  datatype Group = Group(categoryName: string, subCategories: seq<SubGroup>, dishes: seq<Dish>)

  /** `dish.subCategoryId === subCategory.subCategoryId`; the dish's own
      category is not looked at. */
  predicate InSubBucket(d: Dish, sub: SubCategory)
  {
    d.subCategoryId == Some(sub.subCategoryId)
  }

  /** `dish.categoryId === category.categoryId && !dish.subCategoryId` */
  predicate InDirectBucket(d: Dish, cat: Category)
  {
    d.categoryId == Some(cat.categoryId) && !StrTruthy(d.subCategoryId)
  }

  /** A bucket: the matching dishes, most recently updated first. */
  function Bucket(dishes: seq<Dish>, p: Dish -> bool): seq<Dish>
  {
    SortDesc(Filter(dishes, p), UpdatedKey)
  }

  function SubGroups(subs: seq<SubCategory>, dishes: seq<Dish>): seq<SubGroup>
  {
    seq(|subs|, j requires 0 <= j < |subs| =>
      SubGroup(subs[j].subCategoryName, Bucket(dishes, (d: Dish) => InSubBucket(d, subs[j]))))
  }

  /** `organizedDishes`: one group per category, one subgroup per
      subcategory of it. */
  function Organize(categories: seq<Category>, dishes: seq<Dish>): seq<Group>
  {
    seq(|categories|, i requires 0 <= i < |categories| =>
      Group(categories[i].categoryName,
            SubGroups(categories[i].subCategories, dishes),
            Bucket(dishes, (d: Dish) => InDirectBucket(d, categories[i]))))
  }

  /** A bucket holds exactly the dishes its test accepts, as a sub-multiset
      of the dish list, most recent first, with equally recent dishes in
      their list order. */
  lemma BucketContents(dishes: seq<Dish>, p: Dish -> bool)
    ensures forall d :: d in Bucket(dishes, p) <==> d in dishes && p(d)
    ensures multiset(Bucket(dishes, p)) <= multiset(dishes)
    ensures SortedDesc(Bucket(dishes, p), UpdatedKey)
    ensures forall k :: WithKey(Bucket(dishes, p), UpdatedKey, k) == WithKey(Filter(dishes, p), UpdatedKey, k)
  {
    var f := Filter(dishes, p);
    forall d ensures d in Bucket(dishes, p) <==> d in f {
      assert d in Bucket(dishes, p) <==> d in multiset(Bucket(dishes, p));
    }
    forall k ensures WithKey(Bucket(dishes, p), UpdatedKey, k) == WithKey(f, UpdatedKey, k) {
      SortDescStable(f, UpdatedKey, k);
    }
  }

  /** One group per category in category order, one subgroup per
      subcategory in that category's order. */
  lemma OrganizeShape(categories: seq<Category>, dishes: seq<Dish>)
    ensures |Organize(categories, dishes)| == |categories|
    ensures forall i :: 0 <= i < |categories| ==>
      Organize(categories, dishes)[i].categoryName == categories[i].categoryName
      && |Organize(categories, dishes)[i].subCategories| == |categories[i].subCategories|
      && forall j :: 0 <= j < |categories[i].subCategories| ==>
           Organize(categories, dishes)[i].subCategories[j].subCategoryName
             == categories[i].subCategories[j].subCategoryName
  {
  }

  /** A category's direct bucket: exactly the dishes of that category
      with no (or an empty) subcategory id, most recent first. */
  lemma DirectBucketExact(categories: seq<Category>, dishes: seq<Dish>, i: int)
    requires 0 <= i < |categories|
    ensures var b := Organize(categories, dishes)[i].dishes;
      (forall d :: d in b <==> d in dishes && d.categoryId == Some(categories[i].categoryId)
                                          && !StrTruthy(d.subCategoryId))
      && multiset(b) <= multiset(dishes)
      && SortedDesc(b, UpdatedKey)
  {
    BucketContents(dishes, (d: Dish) => InDirectBucket(d, categories[i]));
  }

  /** A subcategory's bucket: exactly the dishes carrying its id, whatever
      category id they carry, most recent first. */
  lemma SubBucketExact(categories: seq<Category>, dishes: seq<Dish>, i: int, j: int)
    requires 0 <= i < |categories| && 0 <= j < |categories[i].subCategories|
    ensures var b := Organize(categories, dishes)[i].subCategories[j].dishes;
      (forall d :: d in b <==> d in dishes && d.subCategoryId == Some(categories[i].subCategories[j].subCategoryId))
      && multiset(b) <= multiset(dishes)
      && SortedDesc(b, UpdatedKey)
  {
    BucketContents(dishes, (d: Dish) => InSubBucket(d, categories[i].subCategories[j]));
  }

  /** A dish without a subcategory whose category is not in the tree is
      in no bucket at all (subcategory ids being non-empty). */
  lemma UnknownCategoryDropped(categories: seq<Category>, dishes: seq<Dish>, d: Dish)
    requires !StrTruthy(d.subCategoryId)
    requires forall i :: 0 <= i < |categories| ==> d.categoryId != Some(categories[i].categoryId)
    requires forall i, j :: 0 <= i < |categories| && 0 <= j < |categories[i].subCategories| ==>
               categories[i].subCategories[j].subCategoryId != ""
    ensures forall i :: 0 <= i < |categories| ==> d !in Organize(categories, dishes)[i].dishes
    ensures forall i, j :: 0 <= i < |categories| && 0 <= j < |categories[i].subCategories| ==>
              d !in Organize(categories, dishes)[i].subCategories[j].dishes
  {
    forall i | 0 <= i < |categories| ensures d !in Organize(categories, dishes)[i].dishes {
      DirectBucketExact(categories, dishes, i);
    }
    forall i, j | 0 <= i < |categories| && 0 <= j < |categories[i].subCategories|
      ensures d !in Organize(categories, dishes)[i].subCategories[j].dishes
    {
      SubBucketExact(categories, dishes, i, j);
    }
  }

  /** The list kept after loading: the reply's dishes (none if absent),
      most recently updated first. */
  function LoadedDishes(dishes: Option<seq<Dish>>): (r: seq<Dish>)
    ensures SortedDesc(r, UpdatedKey)
    ensures dishes.None? ==> r == []
    ensures dishes.Some? ==> multiset(r) == multiset(dishes.value)
  {
    match dishes
    case Some(ds) => SortDesc(ds, UpdatedKey)
    case None => []
  }

  /** The query `handleSearch` sends: none for a blank query, else the
      trimmed, lower-cased query. */
  function NormalizeQuery(query: string): Option<string>
  {
    if Trim(query) == [] then None else Some(ToLower(Trim(query)))
  }

  lemma TrimOfTrimmed(s: string)
    requires s == [] || (!IsSpace(s[0]) && !IsSpace(s[|s| - 1]))
    ensures Trim(s) == s
  {
  }

  /** No request exactly for an all-whitespace query; a sent query is
      non-empty, has no surrounding whitespace and no upper-case letter,
      and normalising it again sends it unchanged. */
  lemma NormalizeQueryProperties(query: string)
    ensures NormalizeQuery(query).None? <==> AllSpace(query)
    ensures NormalizeQuery(query).Some? ==>
      var q := NormalizeQuery(query).value;
      q != [] && !IsSpace(q[0]) && !IsSpace(q[|q| - 1])
      && (forall i :: 0 <= i < |q| ==> !('A' <= q[i] <= 'Z'))
      && NormalizeQuery(q) == Some(q)
  {
    TrimEmptyIffAllSpace(query);
    var t := Trim(query);
    if t != [] {
      TrimIsSlice(query);
      ToLowerProperties(t);
      var q := ToLower(t);
      TrimOfTrimmed(q);
      ToLowerProperties(q);
    }
  }

  /** `searchResults` after a search: null for a blank query, the reply's
      results, or an empty list when the request fails (a reply without
      a results list fails on `.length` the same way). */
  function SearchResultsAfter(query: string, reply: Reply<Option<seq<Dish>>>): Option<seq<Dish>>
  {
    if NormalizeQuery(query).None? then None
    else match reply
      case Ok(Some(results)) => Some(results)
      case Ok(None) => Some([])
      case Err(_) => Some([])
  }

  /** What the page shows. */
  datatype View =
    | LoadingView
    | ErrorView(message: string)
    | GroupedView(groups: seq<Group>)
    | NoResultsView
    | ResultsView(results: seq<Dish>)

  /** Loading first, then a load error, then: null results show the
      grouped view, an empty list "no dishes found", else the results. */
  function ViewOf(loading: bool, error: string, searchResults: Option<seq<Dish>>,
                  categories: seq<Category>, dishes: seq<Dish>): View
  {
    if loading then LoadingView
    else if error != "" then ErrorView(error)
    else match searchResults
      case None => GroupedView(Organize(categories, dishes))
      case Some(results) => if |results| == 0 then NoResultsView else ResultsView(results)
  }

  /** Once loaded without error, a blank search shows the grouped dishes,
      a failed search or one with no results "no dishes found", and a
      search with results lists them. */
  lemma SearchDecidesView(query: string, reply: Reply<Option<seq<Dish>>>,
                          categories: seq<Category>, dishes: seq<Dish>)
    ensures var v := ViewOf(false, "", SearchResultsAfter(query, reply), categories, dishes);
      (AllSpace(query) ==> v == GroupedView(Organize(categories, dishes)))
      && (!AllSpace(query) && reply.Err? ==> v == NoResultsView)
      && (!AllSpace(query) && reply.Ok? && (reply.data.None? || reply.data.value == []) ==> v == NoResultsView)
      && (!AllSpace(query) && reply.Ok? && reply.data.Some? && reply.data.value != [] ==>
            v == ResultsView(reply.data.value))
  {
    NormalizeQueryProperties(query);
  }

  const LoadErrorMessage := "Failed to load restaurant details. Please try again."

  /** The page component's state for one restaurant. */
  class DishesPage {
    const restaurantId: string
    var dishes: seq<Dish>
    var categories: seq<Category>
    var restaurantName: string
    var dishCount: int
    var loading: bool
    var error: string
    var searchResults: Option<seq<Dish>>
    var searchQuery: string

    constructor (restaurantId: string)
      ensures this.restaurantId == restaurantId
      ensures dishes == [] && categories == [] && restaurantName == "" && dishCount == 0
      ensures loading && error == "" && searchResults == None && searchQuery == ""
    {
      this.restaurantId := restaurantId;
      dishes := [];
      categories := [];
      restaurantName := "";
      dishCount := 0;
      loading := true;
      error := "";
      searchResults := None;
      searchQuery := "";
    }

    /** The load effect: the dishes sorted most recent first, the category
        tree, the name, then the dish count (asked for only after the
        first reply arrived). Either failure sets the load error. */
    method FetchRestaurantData(dishesReply: Reply<AllDishes>, countReply: Reply<Option<int>>)
      returns (countRequested: bool)
      modifies this
      ensures !loading
      ensures countRequested == dishesReply.Ok?
      ensures dishesReply.Ok? ==>
        dishes == LoadedDishes(dishesReply.data.dishes)
        && categories == CategoriesOrEmpty(dishesReply.data)
        && restaurantName == (if StrTruthy(dishesReply.data.restaurantName)
                              then dishesReply.data.restaurantName.value
                              else "Restaurant " + restaurantId)
      ensures dishesReply.Err? ==>
        dishes == old(dishes) && categories == old(categories) && restaurantName == old(restaurantName)
      ensures dishesReply.Ok? && countReply.Ok? ==>
        dishCount == (if countReply.data.Some? then countReply.data.value else 0) && error == old(error)
      ensures !(dishesReply.Ok? && countReply.Ok?) ==> dishCount == old(dishCount) && error == LoadErrorMessage
      ensures searchResults == old(searchResults) && searchQuery == old(searchQuery)
    {
      countRequested := false;
      match dishesReply {
        case Err(_) =>
          error := LoadErrorMessage;
        case Ok(data) =>
          dishes := LoadedDishes(data.dishes);
          categories := CategoriesOrEmpty(data);
          restaurantName := if StrTruthy(data.restaurantName) then data.restaurantName.value
                            else "Restaurant " + restaurantId;
          countRequested := true;
          match countReply {
            case Ok(count) =>
              dishCount := if count.Some? then count.value else 0;
            case Err(_) =>
              error := LoadErrorMessage;
          }
      }
      loading := false;
    }

    /** The search box's callback: remember the query, then search. */
    method OnSearch(query: string, reply: Reply<Option<seq<Dish>>>) returns (sent: Option<string>)
      modifies this`searchQuery, this`searchResults
      ensures searchQuery == query
      ensures sent == NormalizeQuery(query)
      ensures searchResults == SearchResultsAfter(query, reply)
    {
      searchQuery := query;
      sent := NormalizeQuery(query);
      if sent.None? {
        searchResults := None;
        return;
      }
      match reply
      case Ok(results) =>
        if results.None? {
          searchResults := Some([]);
        } else if |results.value| == 0 {
          searchResults := Some([]);
        } else {
          searchResults := Some(results.value);
        }
      case Err(_) =>
        searchResults := Some([]);
    }

    /** The clear button (the page reload that follows is not modelled). */
    method HandleClearSearch()
      modifies this`searchQuery, this`searchResults
      ensures searchQuery == "" && searchResults == None
    {
      searchQuery := "";
      searchResults := None;
    }

    /** The refresh after a dish is added: the reply's lists as they come,
        not re-sorted; a failure changes nothing. */
    method HandleAddDish(reply: Reply<AllDishes>)
      modifies this`dishes, this`categories
      ensures reply.Ok? ==>
        dishes == (if reply.data.dishes.Some? then reply.data.dishes.value else [])
        && categories == CategoriesOrEmpty(reply.data)
      ensures reply.Err? ==> dishes == old(dishes) && categories == old(categories)
    {
      if reply.Ok? {
        dishes := if reply.data.dishes.Some? then reply.data.dishes.value else [];
        categories := CategoriesOrEmpty(reply.data);
      }
    }

    /** What the page renders now. */
    function CurrentView(): View
      reads this
    {
      ViewOf(loading, error, searchResults, categories, dishes)
    }
  }
}
