/** The route details screen: the polyline drawn on the map, whether the map
    is shown at all, and the save toggle. Its duration and distance labels
    are Formatting.FormatDuration and Formatting.FormatDistance. */
module RouteDetailsScreen {
  import opened Types
  import opened RouteStore

  /** `steps.filter((step) => step.startLocation && step.endLocation)`. */
  function LocatedSteps(steps: seq<RouteStep>): (r: seq<RouteStep>)
    ensures forall i :: 0 <= i < |r| ==> HasBothLocations(r[i])
    ensures |r| <= |steps|
  {
    if steps == [] then []
    else if HasBothLocations(steps[0]) then [steps[0]] + LocatedSteps(steps[1..])
    else LocatedSteps(steps[1..])
  }

  /** The filter keeps exactly the steps that have both locations. */
  lemma {:induction false} LocatedStepsMembers(steps: seq<RouteStep>)
    ensures forall s :: s in LocatedSteps(steps) <==> s in steps && HasBothLocations(s)
  {
    if steps != [] {
      LocatedStepsMembers(steps[1..]);
      assert steps == [steps[0]] + steps[1..];
    }
  }

  /** The filter distributes over concatenation: the kept steps stay in
      step order, each kept once for each time it occurs. */
  lemma {:induction false} LocatedStepsAppend(a: seq<RouteStep>, b: seq<RouteStep>)
    ensures LocatedSteps(a + b) == LocatedSteps(a) + LocatedSteps(b)
  {
    if a == [] {
      assert a + b == b;
    } else {
      assert (a + b)[0] == a[0];
      assert (a + b)[1..] == a[1..] + b;
      LocatedStepsAppend(a[1..], b);
    }
  }

  /** A single step is kept exactly when it has both locations. */
  lemma LocatedStepsSingle(step: RouteStep)
    ensures LocatedSteps([step]) == if HasBothLocations(step) then [step] else []
  {
    assert [step][1..] == [];
  }

  /** `routeCoordinates`: the located steps, each contributing its start and
      then its end coordinates, so two points per located step. */
  function RouteCoordinates(steps: seq<RouteStep>): (points: seq<Coordinates>)
    ensures |points| == 2 * |LocatedSteps(steps)|
  {
    if steps == [] then []
    else if HasBothLocations(steps[0]) then
      [steps[0].startLocation.value.coordinates, steps[0].endLocation.value.coordinates]
      + RouteCoordinates(steps[1..])
    else RouteCoordinates(steps[1..])
  }

  /** The k-th located step's start is at position 2k of the polyline and
      its end at 2k + 1. */
  lemma {:induction false} RouteCoordinatesPairs(steps: seq<RouteStep>)
    ensures forall k :: 0 <= k < |LocatedSteps(steps)| ==>
              && RouteCoordinates(steps)[2 * k] == LocatedSteps(steps)[k].startLocation.value.coordinates
              && RouteCoordinates(steps)[2 * k + 1] == LocatedSteps(steps)[k].endLocation.value.coordinates
  {
    if steps != [] {
      RouteCoordinatesPairs(steps[1..]);
      var c, l := RouteCoordinates(steps), LocatedSteps(steps);
      var cr, lr := RouteCoordinates(steps[1..]), LocatedSteps(steps[1..]);
      var s0 := steps[0];
      if HasBothLocations(s0) {
        assert l == [s0] + lr;
        assert c == [s0.startLocation.value.coordinates, s0.endLocation.value.coordinates] + cr;
        forall k | 1 <= k < |l|
          ensures c[2 * k] == l[k].startLocation.value.coordinates
          ensures c[2 * k + 1] == l[k].endLocation.value.coordinates
        {
          assert l[k] == lr[k - 1];
          assert c[2 * k] == cr[2 * (k - 1)] && c[2 * k + 1] == cr[2 * (k - 1) + 1];
        }
      } else {
        assert l == lr && c == cr;
      }
    }
  }

  /** `calculateRegion() !== null`, which decides whether the map is drawn:
      there is a region exactly when there is a coordinate. */
  predicate HasMapRegion(steps: seq<RouteStep>)
    ensures HasMapRegion(steps) <==> LocatedSteps(steps) != []
  {
    |RouteCoordinates(steps)| != 0
  }

  /** The map is drawn exactly when some step has both locations. */
  lemma MapShownIffLocatedStep(steps: seq<RouteStep>)
    ensures HasMapRegion(steps) <==> exists i :: 0 <= i < |steps| && HasBothLocations(steps[i])
  {
    LocatedStepsMembers(steps);
    var l := LocatedSteps(steps);
    if l != [] {
      assert l[0] in steps;
    }
  }

  /** `isSaved`: some saved route has the selected route's id. */
  method IsSaved(store: RouteStore, selectedRoute: Route) returns (saved: bool)
    ensures saved <==> exists i :: 0 <= i < |store.savedRoutes| && store.savedRoutes[i].id == selectedRoute.id
  {
    saved := HasId(store.savedRoutes, selectedRoute.id);
  }

  /** `handleSaveToggle`: unsave the selected route when it is saved, save it
      otherwise; either way its saved state flips and nothing else changes. */
  method HandleSaveToggle(store: RouteStore, selectedRoute: Route)
    modifies store
    ensures store.savedRoutes == SaveToggled(old(store.savedRoutes), selectedRoute)
    ensures HasId(store.savedRoutes, selectedRoute.id) <==> !HasId(old(store.savedRoutes), selectedRoute.id)
    ensures store.recentSearches == old(store.recentSearches)
    ensures old(store.Valid()) ==> store.Valid()
  {
    var saved := IsSaved(store, selectedRoute);
    if saved {
      store.RemoveSavedRoute(selectedRoute.id);
    } else {
      store.AddSavedRoute(selectedRoute);
    }
  }
}
