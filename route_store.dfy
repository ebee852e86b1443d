/** The application's store of saved routes and recent searches: one shared
    object holding two ordered lists, changed only through its four actions.
    Each action's new list is given by a function below; the lemmas state
    what those functions promise. */
module RouteStore {
  import opened Types

  /** At most this many recent searches are kept. */
  const MaxRecentSearches: nat := 5

  /** The storage key under which the store persists itself. */
  const StorageName: string := "route-storage"

  // ---------------------------------------------------------------------
  // Saved routes

  /** `routes.some((r) => r.id === id)`. */
  function HasId(routes: seq<Route>, id: string): (b: bool)
    ensures b <==> exists i :: 0 <= i < |routes| && routes[i].id == id
  {
    if routes == [] then false
    else routes[0].id == id || HasId(routes[1..], id)
  }

  /** No two saved routes share an id. */
  predicate IdsUnique(routes: seq<Route>)
  {
    forall i, j :: 0 <= i < j < |routes| ==> routes[i].id != routes[j].id
  }

  /** `addSavedRoute`: the route goes in front unless its id is already saved. */
  function AddSaved(routes: seq<Route>, route: Route): (r: seq<Route>)
    ensures HasId(r, route.id)
    ensures forall x :: x in r <==> x in routes || (x == route && !HasId(routes, route.id))
  {
    if HasId(routes, route.id) then routes else [route] + routes
  }

  /** `removeSavedRoute`: every route with the id goes, the others stay. */
  function RemoveSaved(routes: seq<Route>, id: string): (r: seq<Route>)
    ensures forall x :: x in r <==> x in routes && x.id != id
    ensures |r| <= |routes|
  {
    if routes == [] then []
    else if routes[0].id != id then [routes[0]] + RemoveSaved(routes[1..], id)
    else RemoveSaved(routes[1..], id)
  }

  /** After adding, the id is saved, the list either is unchanged (the id was
      already there) or has grown by exactly the new route at the front. */
  lemma AddSavedShape(routes: seq<Route>, route: Route)
    ensures HasId(routes, route.id) ==> AddSaved(routes, route) == routes
    ensures !HasId(routes, route.id) ==> AddSaved(routes, route) == [route] + routes
  {
  }

  /** Adding the same route twice is adding it once. */
  lemma AddSavedIdempotent(routes: seq<Route>, route: Route)
    ensures AddSaved(AddSaved(routes, route), route) == AddSaved(routes, route)
  {
  }

  /** Adding keeps ids unique. */
  lemma AddSavedKeepsIdsUnique(routes: seq<Route>, route: Route)
    requires IdsUnique(routes)
    ensures IdsUnique(AddSaved(routes, route))
  {
    var r := AddSaved(routes, route);
    if !HasId(routes, route.id) {
      forall i, j | 0 <= i < j < |r| ensures r[i].id != r[j].id {
        if i == 0 {
          assert r[j] == routes[j - 1];
        } else {
          assert r[i] == routes[i - 1] && r[j] == routes[j - 1];
        }
      }
    }
  }

  /** Removal distributes over concatenation: the routes that remain keep
      the order they had. */
  lemma {:induction false} RemoveSavedAppend(a: seq<Route>, b: seq<Route>, id: string)
    ensures RemoveSaved(a + b, id) == RemoveSaved(a, id) + RemoveSaved(b, id)
  {
    if a == [] {
      assert a + b == b;
    } else {
      assert (a + b)[1..] == a[1..] + b;
      RemoveSavedAppend(a[1..], b, id);
    }
  }

  /** Removing an id that is not saved changes nothing. */
  lemma {:induction false} RemoveSavedAbsent(routes: seq<Route>, id: string)
    requires !HasId(routes, id)
    ensures RemoveSaved(routes, id) == routes
  {
    if routes != [] {
      RemoveSavedAbsent(routes[1..], id);
      assert [routes[0]] + routes[1..] == routes;
    }
  }

  /** After removal the id is no longer saved and every other id is saved
      exactly when it was before. */
  lemma RemoveSavedQuery(routes: seq<Route>, id: string, other: string)
    ensures !HasId(RemoveSaved(routes, id), id)
    ensures other != id ==> (HasId(RemoveSaved(routes, id), other) <==> HasId(routes, other))
  {
    var r := RemoveSaved(routes, id);
    if other != id && HasId(routes, other) {
      var i :| 0 <= i < |routes| && routes[i].id == other;
      assert routes[i] in r;
    }
  }

  /** Removal keeps ids unique. */
  lemma {:induction false} RemoveSavedKeepsIdsUnique(routes: seq<Route>, id: string)
    requires IdsUnique(routes)
    ensures IdsUnique(RemoveSaved(routes, id))
  {
    if routes != [] {
      var rest := RemoveSaved(routes[1..], id);
      RemoveSavedKeepsIdsUnique(routes[1..], id);
      if routes[0].id != id {
        var r := [routes[0]] + rest;
        forall j | 1 <= j < |r| ensures r[0].id != r[j].id {
          assert r[j] in routes[1..];
        }
      }
    }
  }

  /** Saving an unsaved route and then removing its id restores the list. */
  lemma AddThenRemove(routes: seq<Route>, route: Route)
    requires !HasId(routes, route.id)
    ensures RemoveSaved(AddSaved(routes, route), route.id) == routes
  {
    RemoveSavedAbsent(routes, route.id);
  }

  /** From no saved routes, saving two routes and removing the first leaves
      only the second. */
  lemma SaveTwoRemoveFirst(r1: Route, r2: Route)
    requires r1.id != r2.id
    ensures RemoveSaved(AddSaved(AddSaved([], r1), r2), r1.id) == [r2]
  {
    assert AddSaved(AddSaved([], r1), r2) == [r2, r1];
    assert [r2, r1][1..] == [r1];
  }

  /** The save toggle both route screens build on the store: remove the
      route when its id is saved, add it otherwise. */
  function SaveToggled(routes: seq<Route>, route: Route): (r: seq<Route>)
    ensures HasId(r, route.id) <==> !HasId(routes, route.id)
  {
    if HasId(routes, route.id) then
      RemoveSavedQuery(routes, route.id, route.id);
      RemoveSaved(routes, route.id)
    else AddSaved(routes, route)
  }

  /** Toggling never touches another id. */
  lemma SaveToggledKeepsOthers(routes: seq<Route>, route: Route, other: string)
    requires other != route.id
    ensures HasId(SaveToggled(routes, route), other) <==> HasId(routes, other)
  {
    RemoveSavedQuery(routes, route.id, other);
  }

  /** Toggling an unsaved route twice leaves the saved list as it was. */
  lemma SaveToggledTwice(routes: seq<Route>, route: Route)
    requires !HasId(routes, route.id)
    ensures SaveToggled(SaveToggled(routes, route), route) == routes
  {
    AddThenRemove(routes, route);
  }

  // ---------------------------------------------------------------------
  // Recent searches

  /** Two searches are for the same trip when origin and destination agree. */
  predicate SamePair(a: SearchQuery, b: SearchQuery)
  {
    a.origin == b.origin && a.destination == b.destination
  }

  /** No two recent searches are for the same trip. */
  predicate PairsUnique(searches: seq<SearchQuery>)
  {
    forall i, j :: 0 <= i < j < |searches| ==> !SamePair(searches[i], searches[j])
  }

  /** The searches that are not for the same trip as `search`, in their order. */
  function WithoutPair(searches: seq<SearchQuery>, search: SearchQuery): (r: seq<SearchQuery>)
    ensures forall x :: x in r <==> x in searches && !SamePair(x, search)
    ensures |r| <= |searches|
  {
    if searches == [] then []
    else if !SamePair(searches[0], search) then [searches[0]] + WithoutPair(searches[1..], search)
    else WithoutPair(searches[1..], search)
  }

  /** The first `n` entries, or all when there are fewer: `slice(0, n)`. */
  function Take<T>(s: seq<T>, n: nat): (r: seq<T>)
    ensures |r| == if |s| < n then |s| else n
    ensures r == s[..|r|]
  {
    if |s| <= n then s else s[..n]
  }

  /** `addRecentSearch`: drop the entries for the same trip, put the new
      search in front, keep the first five. */
  function AddRecent(searches: seq<SearchQuery>, search: SearchQuery): (r: seq<SearchQuery>)
    ensures 1 <= |r| <= MaxRecentSearches && r[0] == search
    ensures forall i :: 1 <= i < |r| ==> !SamePair(r[i], search) && r[i] in searches
  {
    var r := Take([search] + WithoutPair(searches, search), MaxRecentSearches);
    assert forall i :: 1 <= i < |r| ==> r[i] in WithoutPair(searches, search);
    r
  }

  /** The entries after the head are the old list without the same trip, in
      the old order, cut to four. */
  lemma AddRecentTail(searches: seq<SearchQuery>, search: SearchQuery)
    ensures AddRecent(searches, search)[1..]
            == Take(WithoutPair(searches, search), MaxRecentSearches - 1)
  {
    var w := WithoutPair(searches, search);
    assert ([search] + w)[1..] == w;
  }

  /** Leaving out one trip keeps trips unique. */
  lemma {:induction false} WithoutPairKeepsPairsUnique(searches: seq<SearchQuery>, search: SearchQuery)
    requires PairsUnique(searches)
    ensures PairsUnique(WithoutPair(searches, search))
  {
    if searches != [] {
      var rest := searches[1..];
      var wr := WithoutPair(rest, search);
      WithoutPairKeepsPairsUnique(rest, search);
      if !SamePair(searches[0], search) {
        var w := [searches[0]] + wr;
        forall j | 1 <= j < |w| ensures !SamePair(w[0], w[j]) {
          assert w[j] in rest;
          var b :| 0 <= b < |rest| && rest[b] == w[j];
          assert searches[b + 1] == w[j];
        }
      }
    }
  }

  /** Leaving out a trip distributes over concatenation: the entries that
      remain keep the order they had. */
  lemma {:induction false} WithoutPairAppend(a: seq<SearchQuery>, b: seq<SearchQuery>, search: SearchQuery)
    ensures WithoutPair(a + b, search) == WithoutPair(a, search) + WithoutPair(b, search)
  {
    if a == [] {
      assert a + b == b;
    } else {
      assert (a + b)[1..] == a[1..] + b;
      WithoutPairAppend(a[1..], b, search);
    }
  }

  /** Adding keeps trips unique. */
  lemma AddRecentKeepsPairsUnique(searches: seq<SearchQuery>, search: SearchQuery)
    requires PairsUnique(searches)
    ensures PairsUnique(AddRecent(searches, search))
  {
    var r := AddRecent(searches, search);
    var w := WithoutPair(searches, search);
    AddRecentTail(searches, search);
    WithoutPairKeepsPairsUnique(searches, search);
    forall i, j | 0 <= i < j < |r| ensures !SamePair(r[i], r[j]) {
      if i > 0 {
        assert r[i] == w[i - 1] && r[j] == w[j - 1];
      }
    }
  }

  /** Searching a trip already in the list again does not grow the list:
      its entry moves to the front, carrying the new timestamp. */
  lemma AddRecentRefresh(searches: seq<SearchQuery>, search: SearchQuery, k: nat)
    requires k < |searches| && SamePair(searches[k], search)
    ensures |AddRecent(searches, search)| <= |searches|
    ensures AddRecent(searches, search)[0] == search
  {
    WithoutPairShrinks(searches, search, k);
  }

  /** Leaving out the entries for one trip shortens a list that has one. */
  lemma {:induction false} WithoutPairShrinks(searches: seq<SearchQuery>, search: SearchQuery, k: nat)
    requires k < |searches| && SamePair(searches[k], search)
    ensures |WithoutPair(searches, search)| < |searches|
  {
    if k > 0 {
      WithoutPairShrinks(searches[1..], search, k - 1);
    }
  }

  /** Exactly one entry is for the searched trip, and it is the first. */
  lemma AddRecentSingleEntry(searches: seq<SearchQuery>, search: SearchQuery, i: nat)
    requires i < |AddRecent(searches, search)|
    ensures SamePair(AddRecent(searches, search)[i], search) <==> i == 0
  {
  }

  /** A new trip on a full list evicts the oldest entry and keeps the rest in
      order. */
  lemma AddRecentEvictsOldest(searches: seq<SearchQuery>, search: SearchQuery)
    requires |searches| == MaxRecentSearches
    requires forall x :: x in searches ==> !SamePair(x, search)
    ensures AddRecent(searches, search) == [search] + searches[..MaxRecentSearches - 1]
  {
    WithoutPairNone(searches, search);
  }

  /** Leaving out a trip that is not in the list changes nothing. */
  lemma {:induction false} WithoutPairNone(searches: seq<SearchQuery>, search: SearchQuery)
    requires forall x :: x in searches ==> !SamePair(x, search)
    ensures WithoutPair(searches, search) == searches
  {
    if searches != [] {
      WithoutPairNone(searches[1..], search);
      assert [searches[0]] + searches[1..] == searches;
    }
  }

  // ---------------------------------------------------------------------
  // The store object

  /** The shared store. Its two lists are replaced whole by each action;
      an action on one list never changes the other. */
  class RouteStore {
    var savedRoutes: seq<Route>
    var recentSearches: seq<SearchQuery>

    /** What the actions keep true once it holds: unique ids, unique trips,
        at most five recent searches. */
    ghost predicate Valid()
      reads this
    {
      && IdsUnique(savedRoutes)
      && PairsUnique(recentSearches)
      && |recentSearches| <= MaxRecentSearches
    }

    /** The store starts with both lists empty. */
    constructor ()
      ensures savedRoutes == [] && recentSearches == []
      ensures Valid()
    {
      savedRoutes := [];
      recentSearches := [];
    }

    method AddSavedRoute(route: Route)
      modifies this
      ensures savedRoutes == AddSaved(old(savedRoutes), route)
      ensures recentSearches == old(recentSearches)
      ensures old(Valid()) ==> Valid()
    {
      if Valid() {
        AddSavedKeepsIdsUnique(savedRoutes, route);
      }
      savedRoutes := AddSaved(savedRoutes, route);
    }

    method RemoveSavedRoute(routeId: string)
      modifies this
      ensures savedRoutes == RemoveSaved(old(savedRoutes), routeId)
      ensures recentSearches == old(recentSearches)
      ensures old(Valid()) ==> Valid()
    {
      if Valid() {
        RemoveSavedKeepsIdsUnique(savedRoutes, routeId);
      }
      savedRoutes := RemoveSaved(savedRoutes, routeId);
    }

    method AddRecentSearch(search: SearchQuery)
      modifies this
      ensures recentSearches == AddRecent(old(recentSearches), search)
      ensures savedRoutes == old(savedRoutes)
      ensures old(Valid()) ==> Valid()
    {
      if Valid() {
        AddRecentKeepsPairsUnique(recentSearches, search);
      }
      recentSearches := AddRecent(recentSearches, search);
    }

    method ClearRecentSearches()
      modifies this
      ensures recentSearches == []
      ensures savedRoutes == old(savedRoutes)
      ensures old(Valid()) ==> Valid()
    {
      recentSearches := [];
    }
  }
}
