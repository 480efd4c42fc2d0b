/** The restaurant list page (src/pages/Restaurants.jsx): one page of
    restaurants, the pagination counters, the search query, the popup
    state, and the local reconciliation that follows an add, edit or
    delete without refetching the page. */
module RestaurantsPage {
  import opened Values
  import opened Text
  import opened Recency
  import opened Http
  import opened Catalog

  /** The number of restaurants kept after a local update. */
  const PageSize: nat := 20

  /** The popup's `mode` state: "add", "edit" or "delete". */
  datatype Mode = Add | Edit | Delete

  /** The body of `GET /api/restaurants/allRestaurants`. */
  datatype PageData = PageData(restaurants: seq<Restaurant>, totalPages: int, totalRestaurants: int)

  /** The query string of that request. */
  datatype PageRequest = PageRequest(page: int, search: string)

  /** The sort key `a.updatedAt || a.createdAt`. */
  function RecencyKey(r: Restaurant): int
  {
    match r.updatedAt
    case Some(u) => u
    case None => r.createdAt
  }

  /** `prev.map(r => r._id === updated._id ? updated : r)` */
  function ReplaceById(prev: seq<Restaurant>, updated: Restaurant): (r: seq<Restaurant>)
    ensures |r| == |prev|
    ensures forall i :: 0 <= i < |prev| ==> r[i] == (if prev[i].id == updated.id then updated else prev[i])
  {
    if prev == [] then []
    else [if prev[0].id == updated.id then updated else prev[0]] + ReplaceById(prev[1..], updated)
  }

  function KeepOthers(prev: seq<Restaurant>, id: string): (r: seq<Restaurant>)
    ensures forall x :: x in r <==> x in prev && x.id != id
    ensures multiset(r) <= multiset(prev)
    ensures forall x :: multiset(r)[x] == if x.id != id then multiset(prev)[x] else 0
  {
    FilterCount(prev, (x: Restaurant) => x.id != id);
    Filter(prev, (x: Restaurant) => x.id != id)
  }

  /** Delete keeps the other entries in their order: dropping by id from
      two parts of a list is dropping from each part. */
  lemma KeepOthersInOrder(a: seq<Restaurant>, b: seq<Restaurant>, id: string)
    ensures KeepOthers(a + b, id) == KeepOthers(a, id) + KeepOthers(b, id)
  {
    FilterAppend(a, b, (x: Restaurant) => x.id != id);
  }

  /** The list before it is re-sorted: prepend on add, replace by id on
      edit, and on delete drop by the id of the restaurant the popup was
      opened for. */
  function Splice(mode: Mode, prev: seq<Restaurant>, updated: Restaurant, selectedId: string): seq<Restaurant>
  {
    match mode
    case Add => [updated] + prev
    case Edit => ReplaceById(prev, updated)
    case Delete => KeepOthers(prev, selectedId)
  }

  /** The whole functional update of `updateRestaurantList`: splice, sort
      most recent first, keep the first 20. */
  function Reconcile(mode: Mode, prev: seq<Restaurant>, updated: Restaurant, selectedId: string): seq<Restaurant>
  {
    Take(SortDesc(Splice(mode, prev, updated, selectedId), RecencyKey), PageSize)
  }

  /** After any mutation the page holds at most 20 restaurants, most
      recent first, and together a sub-multiset of the spliced list. */
  lemma ReconcileShape(mode: Mode, prev: seq<Restaurant>, updated: Restaurant, selectedId: string)
    ensures var r := Reconcile(mode, prev, updated, selectedId);
      |r| <= PageSize
      && SortedDesc(r, RecencyKey)
      && multiset(r) <= multiset(Splice(mode, prev, updated, selectedId))
      && r <= SortDesc(Splice(mode, prev, updated, selectedId), RecencyKey)
  {
    var s := SortDesc(Splice(mode, prev, updated, selectedId), RecencyKey);
    var r := Take(s, PageSize);
    PrefixSorted(s, |r|, RecencyKey);
    assert r == s[..|r|];
    assert s == r + s[|r|..];
    assert multiset(s) == multiset(r) + multiset(s[|r|..]);
  }

  /** Nothing is truncated when the spliced list fits on one page: the
      page is then a permutation of it. */
  lemma ReconcileKeepsAllWhenSmall(mode: Mode, prev: seq<Restaurant>, updated: Restaurant, selectedId: string)
    requires |Splice(mode, prev, updated, selectedId)| <= PageSize
    ensures multiset(Reconcile(mode, prev, updated, selectedId)) == multiset(Splice(mode, prev, updated, selectedId))
  {
  }

  /** Add: after the stable sort the new restaurant, placed first,
      sits right behind the listed restaurants more recent than it. */
  lemma AddPlacement(prev: seq<Restaurant>, updated: Restaurant)
    ensures var t := SortDesc(prev, RecencyKey);
      var n := CountAbove(prev, RecencyKey, RecencyKey(updated));
      n <= |t| && SortDesc([updated] + prev, RecencyKey) == t[..n] + [updated] + t[n..]
  {
    var t := SortDesc(prev, RecencyKey);
    SortDescCountAbove(prev, RecencyKey, RecencyKey(updated));
    InsertPosition(updated, t, RecencyKey);
    assert ([updated] + prev)[0] == updated && ([updated] + prev)[1..] == prev;
  }

  /** Add: the new restaurant is kept when fewer than 20 of the listed
      restaurants are more recent than it (ties go to the new one). */
  lemma AddKeepsNewUnlessTwentyNewer(prev: seq<Restaurant>, updated: Restaurant, selectedId: string)
    ensures CountAbove(prev, RecencyKey, RecencyKey(updated)) < PageSize ==>
              updated in Reconcile(Add, prev, updated, selectedId)
  {
    var t := SortDesc(prev, RecencyKey);
    var n := CountAbove(prev, RecencyKey, RecencyKey(updated));
    AddPlacement(prev, updated);
    var s := t[..n] + [updated] + t[n..];
    var r := Take(s, PageSize);
    assert s[n] == updated;
    if n < PageSize {
      assert r[n] == updated;
    }
  }

  /** Add, conversely: a new restaurant that was not listed before is
      kept only when fewer than 20 listed restaurants are more recent. */
  lemma {:induction false} AddDropsNewWhenTwentyNewer(prev: seq<Restaurant>, updated: Restaurant, selectedId: string)
    requires updated !in prev
    ensures updated in Reconcile(Add, prev, updated, selectedId) ==>
              CountAbove(prev, RecencyKey, RecencyKey(updated)) < PageSize
  {
    var t := SortDesc(prev, RecencyKey);
    var n := CountAbove(prev, RecencyKey, RecencyKey(updated));
    AddPlacement(prev, updated);
    var s := t[..n] + [updated] + t[n..];
    var r := Take(s, PageSize);
    assert updated !in t by {
      assert multiset(t) == multiset(prev);
      assert updated !in multiset(prev);
    }
    forall j | 0 <= j < |s| && j != n ensures s[j] != updated {
      if j < n {
        assert s[j] == t[j];
      } else {
        assert s[j] == t[j - 1];
      }
    }
    if updated in r {
      var i :| 0 <= i < |r| && r[i] == updated;
      assert s[i] == updated;
      assert i == n;
    }
  }

  /** Add on a page with fewer than 20 restaurants always shows the new one. */
  lemma AddToShortPageKeepsNew(prev: seq<Restaurant>, updated: Restaurant, selectedId: string)
    requires |prev| < PageSize
    ensures updated in Reconcile(Add, prev, updated, selectedId)
  {
    var s := SortDesc([updated] + prev, RecencyKey);
    assert updated in multiset([updated] + prev);
    assert updated in multiset(s);
  }

  /** Edit: no entry with the edited id survives except the new version. */
  lemma EditReplacesById(prev: seq<Restaurant>, updated: Restaurant, selectedId: string)
    ensures forall x :: x in Reconcile(Edit, prev, updated, selectedId) && x.id == updated.id ==> x == updated
  {
    var sp := Splice(Edit, prev, updated, selectedId);
    ReconcileShape(Edit, prev, updated, selectedId);
    forall x | x in Reconcile(Edit, prev, updated, selectedId) && x.id == updated.id ensures x == updated {
      assert x in multiset(sp);
    }
  }

  /** Edit on a page that fits: every entry with another id stays, and
      the new version appears if its id was listed. */
  lemma EditKeepsOthers(prev: seq<Restaurant>, updated: Restaurant, selectedId: string)
    requires |prev| <= PageSize
    ensures forall x :: x in prev && x.id != updated.id ==> x in Reconcile(Edit, prev, updated, selectedId)
    ensures (exists x :: x in prev && x.id == updated.id) ==> updated in Reconcile(Edit, prev, updated, selectedId)
  {
    var sp := Splice(Edit, prev, updated, selectedId);
    var r := Reconcile(Edit, prev, updated, selectedId);
    ReconcileKeepsAllWhenSmall(Edit, prev, updated, selectedId);
    forall x | x in prev && x.id != updated.id ensures x in r {
      var i :| 0 <= i < |prev| && prev[i] == x;
      assert sp[i] == x;
      assert x in multiset(sp);
    }
    if exists x :: x in prev && x.id == updated.id {
      var x :| x in prev && x.id == updated.id;
      var i :| 0 <= i < |prev| && prev[i] == x;
      assert sp[i] == updated;
      assert updated in multiset(sp);
    }
  }

  /** Delete: every entry with the selected id is gone, and on a page
      that fits, every other entry stays. */
  lemma DeleteRemovesSelected(prev: seq<Restaurant>, updated: Restaurant, selectedId: string)
    ensures forall x :: x in Reconcile(Delete, prev, updated, selectedId) ==> x in prev && x.id != selectedId
    ensures |prev| <= PageSize ==>
      forall x :: x in prev && x.id != selectedId ==> x in Reconcile(Delete, prev, updated, selectedId)
  {
    var sp := Splice(Delete, prev, updated, selectedId);
    var r := Reconcile(Delete, prev, updated, selectedId);
    ReconcileShape(Delete, prev, updated, selectedId);
    forall x | x in r ensures x in prev && x.id != selectedId {
      assert x in multiset(sp);
    }
    if |prev| <= PageSize {
      forall x | x in prev && x.id != selectedId ensures x in r {
        assert x in multiset(r);
      }
    }
  }

  /** The page component's state. */
  class RestaurantList {
    var restaurants: seq<Restaurant>
    var loading: bool
    var error: Option<string>
    var debouncedQuery: string
    var currentPage: int
    var totalPages: int
    var totalRestaurants: int
    var showPopup: bool
    var selectedRestaurant: Option<Restaurant>
    var mode: Mode

    /** The page number never drops below 1, and an open edit or delete
        popup always has the restaurant it was opened for. */
    ghost predicate Valid()
      reads this
    {
      currentPage >= 1 && (showPopup && !mode.Add? ==> selectedRestaurant.Some?)
    }

    constructor ()
      ensures Valid()
      ensures restaurants == [] && loading && error == None && debouncedQuery == ""
      ensures currentPage == 1 && totalPages == 1 && totalRestaurants == 0
      ensures !showPopup && selectedRestaurant == None && mode == Add
    {
      restaurants := [];
      loading := true;
      error := None;
      debouncedQuery := "";
      currentPage := 1;
      totalPages := 1;
      totalRestaurants := 0;
      showPopup := false;
      selectedRestaurant := None;
      mode := Add;
    }

    /** `fetchRestaurants(page)`: the request carries the page and the
        current query; a reply replaces the list and both counters
        wholesale, a failure records the error and empties the list. */
    method FetchRestaurants(page: int, reply: Reply<PageData>) returns (request: PageRequest)
      requires Valid()
      modifies this
      ensures Valid()
      ensures request == PageRequest(page, old(debouncedQuery))
      ensures !loading
      ensures reply.Ok? ==> restaurants == reply.data.restaurants && totalPages == reply.data.totalPages
                            && totalRestaurants == reply.data.totalRestaurants && error == old(error)
      ensures reply.Err? ==> restaurants == [] && error == Some(reply.failure.message)
                             && totalPages == old(totalPages) && totalRestaurants == old(totalRestaurants)
      ensures debouncedQuery == old(debouncedQuery) && currentPage == old(currentPage)
      ensures showPopup == old(showPopup) && selectedRestaurant == old(selectedRestaurant) && mode == old(mode)
    {
      loading := true;
      request := PageRequest(page, debouncedQuery);
      match reply
      case Ok(data) =>
        restaurants := data.restaurants;
        totalPages := data.totalPages;
        totalRestaurants := data.totalRestaurants;
        loading := false;
      case Err(failure) =>
        error := Some(failure.message);
        restaurants := [];
        loading := false;
    }

    /** `handlePageChange`: only a page within 1..totalPages is taken. */
    method HandlePageChange(newPage: int)
      requires Valid()
      modifies this`currentPage
      ensures Valid()
      ensures 0 < newPage <= totalPages ==> currentPage == newPage
      ensures !(0 < newPage <= totalPages) ==> currentPage == old(currentPage)
    {
      if newPage > 0 && newPage <= totalPages {
        currentPage := newPage;
      }
    }

    /** The search box's debounced callback and the effect on
        `debouncedQuery`: a different query goes back to page 1. */
    method SetDebouncedQuery(query: string)
      requires Valid()
      modifies this`debouncedQuery, this`currentPage
      ensures Valid()
      ensures debouncedQuery == query
      ensures query != old(debouncedQuery) ==> currentPage == 1
      ensures query == old(debouncedQuery) ==> currentPage == old(currentPage)
    {
      if query != debouncedQuery {
        debouncedQuery := query;
        currentPage := 1;
      }
    }

    method HandleAddClick()
      requires Valid()
      modifies this`mode, this`selectedRestaurant, this`showPopup
      ensures Valid() && mode == Add && selectedRestaurant == None && showPopup
    {
      mode := Add;
      selectedRestaurant := None;
      showPopup := true;
    }

    method HandleEditClick(restaurant: Restaurant)
      requires Valid()
      modifies this`mode, this`selectedRestaurant, this`showPopup
      ensures Valid() && mode == Edit && selectedRestaurant == Some(restaurant) && showPopup
    {
      selectedRestaurant := Some(restaurant);
      mode := Edit;
      showPopup := true;
    }

    method HandleDeleteClick(restaurant: Restaurant)
      requires Valid()
      modifies this`mode, this`selectedRestaurant, this`showPopup
      ensures Valid() && mode == Delete && selectedRestaurant == Some(restaurant) && showPopup
    {
      selectedRestaurant := Some(restaurant);
      mode := Delete;
      showPopup := true;
    }

    method ClosePopup()
      requires Valid()
      modifies this`selectedRestaurant, this`showPopup
      ensures Valid() && selectedRestaurant == None && !showPopup
    {
      showPopup := false;
      selectedRestaurant := None;
    }

    /** `updateRestaurantList`, called by the open popup with the server's
        restaurant (or, from the delete popup, with an id it ignores):
        back to page 1 and the reconciled list; nothing else changes. */
    method UpdateRestaurantList(updated: Restaurant)
      requires Valid() && showPopup
      modifies this`currentPage, this`restaurants
      ensures Valid()
      ensures currentPage == 1
      ensures restaurants == Reconcile(mode, old(restaurants), updated,
                                       if mode.Delete? then selectedRestaurant.value.id else "")
      ensures |restaurants| <= PageSize && SortedDesc(restaurants, RecencyKey)
    {
      currentPage := 1;
      var selectedId := if mode.Delete? then selectedRestaurant.value.id else "";
      ReconcileShape(mode, restaurants, updated, selectedId);
      restaurants := Reconcile(mode, restaurants, updated, selectedId);
    }
  }
}
