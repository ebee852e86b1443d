/** The results screen: which routes it lists and its save button. Each
    card's labels and badges are those of the route card. */
module ResultsScreen {
  import opened Types
  import opened RouteStore

  /** The routes the screen lists once loading has finished: the bundled
      dataset as it is. */
  function ResultRoutes(dataset: seq<Route>, origin: string, destination: string): seq<Route>
  {
    dataset
  }

  /** The searched origin and destination play no part in the list. */
  lemma ResultsIgnoreSearch(dataset: seq<Route>, origin: string, destination: string,
                            otherOrigin: string, otherDestination: string)
    ensures ResultRoutes(dataset, origin, destination) == dataset
    ensures ResultRoutes(dataset, origin, destination)
            == ResultRoutes(dataset, otherOrigin, otherDestination)
  {
  }

  /** What the body of the screen shows. */
  datatype ResultsView = Spinner | RouteList(routes: seq<Route>) | EmptyState

  /** The spinner while loading, then the list when there are routes, and
      the "No routes found" state when there are none. */
  function ResultsViewOf(loading: bool, routes: seq<Route>): (v: ResultsView)
    ensures v == Spinner <==> loading
    ensures v.RouteList? <==> !loading && routes != []
    ensures v.RouteList? ==> v.routes == routes
    ensures v == EmptyState <==> !loading && routes == []
  {
    if loading then Spinner else if |routes| > 0 then RouteList(routes) else EmptyState
  }

  /** `isRouteSaved(routeId)`: some saved route has that id. */
  method IsRouteSaved(store: RouteStore, routeId: string) returns (saved: bool)
    ensures saved <==> exists i :: 0 <= i < |store.savedRoutes| && store.savedRoutes[i].id == routeId
  {
    saved := HasId(store.savedRoutes, routeId);
  }

  /** `handleSaveRoute(route)`: a saved route loses every entry with its id;
      an unsaved one goes to the front of the saved list. */
  method HandleSaveRoute(store: RouteStore, route: Route)
    modifies store
    ensures HasId(old(store.savedRoutes), route.id) ==>
              store.savedRoutes == RemoveSaved(old(store.savedRoutes), route.id)
    ensures !HasId(old(store.savedRoutes), route.id) ==>
              store.savedRoutes == [route] + old(store.savedRoutes)
    ensures HasId(store.savedRoutes, route.id) <==> !HasId(old(store.savedRoutes), route.id)
    ensures store.recentSearches == old(store.recentSearches)
    ensures old(store.Valid()) ==> store.Valid()
  {
    var isAlreadySaved := IsRouteSaved(store, route.id);
    if isAlreadySaved {
      store.RemoveSavedRoute(route.id);
    } else {
      store.AddSavedRoute(route);
    }
    assert store.savedRoutes == SaveToggled(old(store.savedRoutes), route);
  }
}
