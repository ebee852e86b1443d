# Trip planner: saved routes, recent searches and their screens

This project models the state and display logic of a mobile trip-planning
app. The centre is the shared route store (`store/useRouteStore.ts`): a
list of saved routes, unique by route id and newest first, and a list of
at most five recent searches, unique by (origin, destination) and newest
first. Four actions change it: save a route, remove a route by id, record a
search, clear the searches. Beside it sit the recent-search helpers over
the platform key-value store (`utils/storage.ts`), which repeat the
recent-search rule under their own key, and the small rules of the screens
that use the store: duration and distance labels, transport badges, step
icons, which detail blocks a direction step shows, the map polyline, the
save toggles, and the search bar's input rule.

Layout, one module per source file:

- `types.dfy` (`Types`): `Location`, `RouteStep`, `Route`, `SearchQuery` as
  datatypes. A step's type is exactly one of walk, bus, metro, wait
  (`StepType`). A step always has id, description, type and duration, and
  its distance, bus number, bus name and start and end locations are
  `Option`s. A route has id, name, origin, destination, duration in
  minutes, distance in meters, fare in rupees and an ordered step
  sequence. A search query is origin text, destination text and a
  timestamp. Coordinates are a pair of `real`s that the model never
  computes with.
- `route_store.dfy` (`RouteStore`): the pure list rules, the lemmas about
  them, and the class `RouteStore` with fields `savedRoutes` and
  `recentSearches`. Each action's `ensures` gives the new field as a rule
  of the old one, says the other field is unchanged, and says the
  invariant `Valid()` (unique ids, unique trips, at most five searches) is
  kept.
- `storage.dfy` (`Storage`): the platform store as a class over
  `map<string, seq<SearchQuery>>`. Each platform call takes an `Io`
  argument (`Completes` or `Throws`) that stands for the outcome the
  program cannot predict. The three helpers catch every fault. Every value
  is held as a search list; the store's own `"route-storage"` entry, which
  really holds the `{savedRoutes, recentSearches}` record, has its value
  type abstracted to that list, since the helpers only ever leave it alone.
- `text.dfy` (`Text`): how a template literal renders an integer (whole
  numbers below 2^53 in magnitude, where the source's doubles are exact),
  reading that rendering back, and JavaScript's `trim`.
- `formatting.dfy` (`Formatting`): `formatDuration` and `formatDistance`,
  the latter with its kilometre branch kept symbolic. The same
  `formatDuration` is written out in `RouteCard.tsx`, `DirectionStep.tsx`
  and `RouteDetailsScreen.tsx`, and the same `formatDistance` in
  `RouteCard.tsx` and `RouteDetailsScreen.tsx`; each is modelled once.
  `DirectionStep.tsx` has its own `formatDistance`, which is
  `DirectionStep.FormatStepDistance`. A duration label for a non-negative
  number of minutes, and a metre label for a non-negative distance, are
  proved to read back as the number they show; negative labels such as
  "-5m" and the kilometre label are not.
- `route_card.dfy` (`RouteCard`): transport badges.
- `direction_step.dfy` (`DirectionStep`): step icon, step distance label,
  and the detail blocks a step renders.
- `route_details_screen.dfy` (`RouteDetailsScreen`): the polyline points,
  whether the map is drawn, `isSaved` and `handleSaveToggle`.
- `results_screen.dfy` (`ResultsScreen`): the listed routes, the body
  shown, `isRouteSaved` and `handleSaveRoute`.
- `search_bar.dfy` (`SearchBar`): a class with the bar's `origin`,
  `destination` and `showRecentSearches` state and a reference to the
  store. `Date.now()` becomes the parameter `now`. The `onSearch` callback
  becomes the returned pair it would be called with (`None` when it is not
  called).

## Model

| member | source | states |
|---|---|---|
| `RouteStore.RouteStore.Valid` | store/useRouteStore.ts:21-41 | what the four actions keep: saved route ids are unique, recent trips are unique, and there are at most five recent searches |
| `RouteStore.RouteStore.constructor` | store/useRouteStore.ts:18-19 | the store starts with no saved routes and no recent searches, and its invariant holds |
| `RouteStore.RouteStore.AddSavedRoute` | store/useRouteStore.ts:21-26 | saved routes become `AddSaved` of the old ones; recent searches are unchanged; unique ids stay unique |
| `RouteStore.RouteStore.RemoveSavedRoute` | store/useRouteStore.ts:28-31 | saved routes become `RemoveSaved` of the old ones; recent searches are unchanged; unique ids stay unique |
| `RouteStore.RouteStore.AddRecentSearch` | store/useRouteStore.ts:33-41 | recent searches become `AddRecent` of the old ones; saved routes are unchanged; the invariant is kept |
| `RouteStore.RouteStore.ClearRecentSearches` | store/useRouteStore.ts:43 | recent searches become empty; saved routes are unchanged |
| `RouteStore.HasId` | store/useRouteStore.ts:23 | true exactly when some route in the list has the id |
| `RouteStore.AddSaved` | store/useRouteStore.ts:21-26 | afterwards the id is saved; the routes present are the old ones, plus the new route only when its id was not saved |
| `RouteStore.AddSavedShape` | store/useRouteStore.ts:23-25 | an already-saved id leaves the list unchanged; otherwise the result is the route followed by the old list |
| `RouteStore.AddSavedIdempotent` | store/useRouteStore.ts:23-25 | saving the same route twice equals saving it once |
| `RouteStore.AddSavedKeepsIdsUnique` | store/useRouteStore.ts:21-26 | a list without duplicate ids has none after a save |
| `RouteStore.RemoveSaved` | store/useRouteStore.ts:30 | a route remains exactly when it was in the list and has a different id; the list does not grow |
| `RouteStore.RemoveSavedAppend` | store/useRouteStore.ts:30 | removal distributes over concatenation, so the remaining routes keep their order |
| `RouteStore.RemoveSavedAbsent` | store/useRouteStore.ts:28-31 | removing an id that is not saved leaves the list unchanged |
| `RouteStore.RemoveSavedQuery` | store/useRouteStore.ts:28-31 | after removal the id is not saved, and every other id is saved exactly as before |
| `RouteStore.RemoveSavedKeepsIdsUnique` | store/useRouteStore.ts:28-31 | a list without duplicate ids has none after a removal |
| `RouteStore.AddThenRemove` | store/useRouteStore.ts:21-31 | saving an unsaved route and then removing its id gives back the original list |
| `RouteStore.SaveTwoRemoveFirst` | store/useRouteStore.ts:21-31 | from an empty list, saving r1 and r2 and removing r1 leaves exactly [r2] |
| `RouteStore.WithoutPair` | store/useRouteStore.ts:35-37 | an entry remains exactly when it was in the list and is for a different trip; the list does not grow |
| `RouteStore.WithoutPairAppend` | store/useRouteStore.ts:35-37 | dropping a trip distributes over concatenation, so the remaining entries keep their order |
| `RouteStore.WithoutPairKeepsPairsUnique` | store/useRouteStore.ts:35-37 | dropping a trip keeps trips unique |
| `RouteStore.WithoutPairShrinks` | store/useRouteStore.ts:35-37 | when some entry is for the trip, dropping it makes the list strictly shorter |
| `RouteStore.WithoutPairNone` | store/useRouteStore.ts:35-37 | when no entry is for the trip, dropping it changes nothing |
| `RouteStore.Take` | store/useRouteStore.ts:39 | `slice(0, n)`: the first n entries, or all when there are fewer |
| `RouteStore.AddRecent` | store/useRouteStore.ts:33-41 | the new search is first; there are one to five entries; every later entry is for another trip and came from the old list |
| `RouteStore.AddRecentTail` | store/useRouteStore.ts:35-39 | the entries after the head are the old list minus the same trip, in the old order, cut to four |
| `RouteStore.AddRecentKeepsPairsUnique` | store/useRouteStore.ts:33-41 | a list with unique trips still has unique trips after a search is added |
| `RouteStore.AddRecentRefresh` | store/useRouteStore.ts:35-39 | re-searching a trip already listed does not grow the list, and the new search, with its new timestamp, is first |
| `RouteStore.AddRecentSingleEntry` | store/useRouteStore.ts:35-39 | exactly one entry is for the searched trip, and it is at position 0 |
| `RouteStore.AddRecentEvictsOldest` | store/useRouteStore.ts:39 | a new trip on a full list of five evicts the oldest entry and keeps the other four in order |
| `RouteStore.SaveToggled` | screens/RouteDetailsScreen.tsx:28-34 | the toggle removes a saved route and adds an unsaved one, so whether its id is saved flips |
| `RouteStore.SaveToggledKeepsOthers` | screens/RouteDetailsScreen.tsx:28-34 | toggling one route never changes whether another id is saved |
| `RouteStore.SaveToggledTwice` | screens/ResultsScreen.tsx:57-65 | toggling an unsaved route twice restores the saved list |
| `Storage.KeyValueStore.constructor` | utils/storage.ts:1 | the platform store starts with no keys |
| `Storage.KeyValueStore.GetItem` | utils/storage.ts:6 | a completed read returns the value under the key or no value; a fault returns the failure |
| `Storage.KeyValueStore.SetItem` | utils/storage.ts:17 | a completed write sets the key to the value and nothing else; a fault changes nothing |
| `Storage.KeyValueStore.RemoveItem` | utils/storage.ts:35 | a completed removal deletes the key and nothing else; a fault changes nothing |
| `Storage.StoredSearches` | utils/storage.ts:6-7 | a missing key reads as the empty list |
| `Storage.AfterStore` | utils/storage.ts:6-17 | the key then holds the recent-search rule applied to the list read, with a missing key read as empty; every other key is untouched |
| `Storage.AfterClear` | utils/storage.ts:35 | the key is gone, so the list reads as empty; every other key is untouched |
| `Storage.StoreRecentSearch` | utils/storage.ts:4-21 | the platform store becomes `AfterStore` when the read and write complete; when either throws, it is unchanged and nothing propagates |
| `Storage.GetRecentSearches` | utils/storage.ts:23-31 | returns the stored list, the empty list for a missing key, and the empty list instead of a fault |
| `Storage.ClearRecentSearches` | utils/storage.ts:33-39 | the platform store becomes `AfterClear` when the removal completes, and is unchanged when it throws |
| `Storage.StoredListBounded` | utils/storage.ts:15 | the stored list has one to five entries, and the new search is first |
| `Storage.KeysIndependent` | utils/storage.ts:6 | the key `"recentSearches"` differs from the store's `"route-storage"`, and storing or clearing never touches the store's entry |
| `Storage.ClearThenRead` | utils/storage.ts:33-39 | clearing and then reading, both without fault, returns the empty list |
| `Storage.StoreThenRead` | utils/storage.ts:4-31 | on an empty platform store, storing a search and reading back, both without fault, returns exactly that search |
| `Types.ParseStepType` | types/index.ts:12 | a text read as a step type is that type's literal |
| `Types.StepTypeNameRoundTrip` | types/index.ts:12 | each step type has exactly one literal, and the literal reads back as that type |
| `Text.NatToStringRoundTrip` | components/RouteCard.tsx:19-21 | the decimal text a template literal gives for a natural number reads back as that number |
| `Text.Trim` | components/SearchBar.tsx:22 | the result is no longer than the input and neither starts nor ends with white space |
| `Text.TrimCutsOnlySpace` | components/SearchBar.tsx:22 | the result is a contiguous part of the input, and only white space is cut off either side |
| `Text.TrimEmptyIff` | components/SearchBar.tsx:22 | a text trims to empty exactly when it is all white space |
| `Text.TrimIdempotent` | components/SearchBar.tsx:24-25 | trimming twice equals trimming once |
| `Text.NatToString` | components/RouteCard.tsx:19-21 | the text of a natural number is one or more decimal digits with no leading zero; it starts with "0" only for zero, and is then exactly "0" |
| `Text.IntToString` | components/RouteCard.tsx:19-21 | a template literal's text for an integer is canonical decimal: digits only for a non-negative number, a minus sign and digits for a negative one, never a leading zero except "0" itself, and the digits read back as the magnitude |
| `Formatting.JsRemainder` | components/RouteCard.tsx:16 | JavaScript's `%`: the dividend is the truncated quotient times the divisor plus the result, which is between 0 and 59 for non-negative minutes and between -59 and 0 for negative minutes |
| `Formatting.FormatDuration` | components/RouteCard.tsx:14-22 | from 60 minutes on the label is "<m div 60>h <m mod 60>m" with the minutes part in 0..59; for 0 to 59 minutes it is "<m>m"; a negative duration shows only its truncated remainder and "m", never an hours part |
| `Formatting.FormatDurationRoundTrip` | components/RouteCard.tsx:14-22 | for any non-negative whole number of minutes (below 2^53, where the source's doubles are exact) the label reads back as that number |
| `Formatting.MetresLabelRoundTrip` | components/RouteCard.tsx:28 | a label "<meters> m" reads back as that number of meters |
| `Formatting.FormatDistance` | components/RouteCard.tsx:24-29 | the kilometre label exactly from 1000 meters on, carrying the distance; below that "<meters> m" with the template literal's decimal text, negative distances included, and for a non-negative distance it reads back as the distance |
| `RouteCard.HasStepType` | components/RouteCard.tsx:73 | true exactly when some step has the type |
| `RouteCard.BadgeIcon` | components/RouteCard.tsx:73-87 | each badge shows the icon the directions list gives a step of that type |
| `RouteCard.TransportBadges` | components/RouteCard.tsx:72-88 | the bus, walk and metro badges each appear exactly when some step has that type; there is never a waiting badge |
| `RouteCard.BadgesOrdered` | components/RouteCard.tsx:73-87 | badges always come in the order bus, walk, metro, each at most once |
| `RouteCard.BadgesDependOnlyOnTypes` | components/RouteCard.tsx:73-87 | two step lists with the same step types show the same badges, whatever the step order |
| `RouteCard.OnlyWaitingShowsNoBadge` | components/RouteCard.tsx:72-88 | a route whose steps are all waiting shows no badge |
| `DirectionStep.IconForTypeName` | components/DirectionStep.tsx:13-26 | the default icon `navigate-outline` is chosen exactly for a text that is not a step type literal |
| `DirectionStep.StepIcon` | components/DirectionStep.tsx:13-22 | walk, bus, metro and wait get `walk-outline`, `bus-outline`, `train-outline` and `time-outline`; a typed step never gets the default |
| `DirectionStep.FormatStepDistance` | components/DirectionStep.tsx:38-45 | the label is empty exactly for an absent or zero distance; from 1 to 999 meters it is "<meters> m" and reads back as the distance; a negative distance is "<meters> m" with its minus sign; from 1000 on it is the kilometre label |
| `DirectionStep.ShowsDistance` | components/DirectionStep.tsx:63 | the distance block is shown exactly when the source's `step.distance && …` renders the block rather than nothing or a bare "0" |
| `DirectionStep.ShowsBusDetail` | components/DirectionStep.tsx:70 | `step.busNumber` is truthy: present and not the empty string |
| `DirectionStep.StepDetails` | components/DirectionStep.tsx:57-89 | the duration block always comes first, and there are at most the four blocks |
| `DirectionStep.StepDistanceBlock` | components/DirectionStep.tsx:63-68 | the distance block appears exactly for a present, non-zero distance, and its label is not empty |
| `DirectionStep.StepBusBlock` | components/DirectionStep.tsx:70-75 | the bus block appears exactly with a non-empty bus number, showing that number and the bus name |
| `DirectionStep.StepFromToBlock` | components/DirectionStep.tsx:78-88 | the From/To block appears exactly with both locations, showing their names |
| `DirectionStep.DistanceShownIffLabelled` | components/DirectionStep.tsx:63-68 | the distance block is shown exactly when its label is non-empty |
| `DirectionStep.DistanceChildAsWritten` | components/DirectionStep.tsx:63 | as written, the child is nothing exactly for an absent distance and bare text exactly for distance 0 |
| `DirectionStep.ZeroDistanceLeaksText` | components/DirectionStep.tsx:63 | as written, a step with distance 0 puts a bare "0" into the view |
| `DirectionStep.DistanceChild` | components/DirectionStep.tsx:63-68 | as intended, the distance child is the block exactly when the distance is shown, and never bare text |
| `DirectionStep.DistanceChildAgrees` | components/DirectionStep.tsx:63-68 | the intended child equals the as-written one except for distance 0, the only input where the as-written one leaks text |
| `RouteDetailsScreen.LocatedSteps` | screens/RouteDetailsScreen.tsx:38 | every kept step has both a start and an end location, and the result is no longer than the steps |
| `RouteDetailsScreen.LocatedStepsMembers` | screens/RouteDetailsScreen.tsx:38 | a step is kept exactly when it is one of the steps and has both locations |
| `RouteDetailsScreen.LocatedStepsAppend` | screens/RouteDetailsScreen.tsx:38 | the filter distributes over concatenation, so the kept steps stay in step order, each as often as it occurs |
| `RouteDetailsScreen.LocatedStepsSingle` | screens/RouteDetailsScreen.tsx:38 | a single step is kept exactly when it has both locations; with the append lemma this fixes the filter's result |
| `RouteDetailsScreen.RouteCoordinates` | screens/RouteDetailsScreen.tsx:37-39 | the polyline has twice as many points as there are located steps |
| `RouteDetailsScreen.RouteCoordinatesPairs` | screens/RouteDetailsScreen.tsx:37-39 | the k-th located step gives point 2k (its start) and point 2k+1 (its end), so the points follow the step order |
| `RouteDetailsScreen.HasMapRegion` | screens/RouteDetailsScreen.tsx:43 | `calculateRegion` gives a region exactly when some step is kept by the filter |
| `RouteDetailsScreen.MapShownIffLocatedStep` | screens/RouteDetailsScreen.tsx:43 | there is a map region, and so a map, exactly when some step has both locations |
| `RouteDetailsScreen.IsSaved` | screens/RouteDetailsScreen.tsx:26 | true exactly when some saved route has the selected route's id |
| `RouteDetailsScreen.HandleSaveToggle` | screens/RouteDetailsScreen.tsx:28-34 | saved routes become `SaveToggled` of the old ones, so whether the route is saved flips; recent searches are unchanged; the invariant is kept |
| `ResultsScreen.ResultRoutes` | screens/ResultsScreen.tsx:41-42 | the routes listed: the bundled dataset, unfiltered |
| `ResultsScreen.ResultsIgnoreSearch` | screens/ResultsScreen.tsx:41-42 | the listed routes are the whole dataset, the same for any origin and destination |
| `ResultsScreen.ResultsViewOf` | screens/ResultsScreen.tsx:82-107 | the spinner exactly while loading; the route list exactly when loaded with at least one route; the empty state exactly when loaded with none |
| `ResultsScreen.IsRouteSaved` | screens/ResultsScreen.tsx:67-69 | true exactly when some saved route has the id |
| `ResultsScreen.HandleSaveRoute` | screens/ResultsScreen.tsx:57-65 | a saved route loses every entry with its id; an unsaved one goes to the front; whether it is saved flips; recent searches are unchanged |
| `SearchBar.SearchBar.constructor` | components/SearchBar.tsx:15-17 | both fields start empty and the recent-search list closed |
| `SearchBar.SearchBar.ChangeOrigin` | components/SearchBar.tsx:50 | typing sets the origin field only |
| `SearchBar.SearchBar.ChangeDestination` | components/SearchBar.tsx:63 | typing sets the destination field only |
| `SearchBar.SearchBar.Focus` | components/SearchBar.tsx:51 | focusing a field opens the recent-search list and leaves the fields as they are |
| `SearchBar.SearchBar.HandleSearch` | components/SearchBar.tsx:21-33 | with both trimmed fields non-empty, the trimmed query with timestamp `now` is added to recent searches, `onSearch` gets the trimmed pair and the list closes; otherwise nothing changes and `onSearch` is not called |
| `SearchBar.SearchBar.HandleRecentSearchSelect` | components/SearchBar.tsx:35-39 | picking a recent search copies its origin and destination into the fields and closes the list |
| `SearchBar.SearchBar.RecentListShown` | components/SearchBar.tsx:73 | the recent-search list is on screen when it is open and the store has at least one search |
| `SearchBar.BlankFieldBlocksSearch` | components/SearchBar.tsx:22 | a field of only white space trims to empty, so the search is refused |
| `SearchBar.FocusShowsRecent` | components/SearchBar.tsx:73 | after a focus, the list is on screen exactly when the store has a recent search |

## Left out

- The persistence middleware, JSON serialisation and the platform store behind it (store/useRouteStore.ts:45-48). The store's lists are modelled in memory only. Rehydration, the write-through to `"route-storage"` and any serialisation round-trip are not modelled. Because a rehydrated state is not modelled, the store's actions do not require `Valid()`; they only keep it.
- Asynchrony. Every `await` is modelled as a call that completes before the next statement, so out-of-order completion of concurrent writes is not modelled.
- JSON parsing in `utils/storage.ts`: values are held as search lists, so a corrupt stored value cannot be expressed. The `Throws` outcome of the read covers what the `catch` does with it. A stored empty string, which the source reads as a missing value, cannot occur either.
- Console logging in the `catch` blocks.
- The kilometre branch of `formatDistance`, which renders a float with `toFixed(1)`. It is kept as the symbolic value `Kilometres(meters)`.
- Fractional and non-finite numbers: durations, distances, fares and timestamps are integers in the model. NaN, which is also falsy in the distance test, is not modelled.
- The numbers in the source are IEEE doubles, the model's are unbounded integers. The labels agree with the source only for integers below 2^53 in magnitude. Above that, `Math.floor(minutes / 60)` and `%` work on rounded values. From 1e21 on, a template literal prints exponent form such as "1e+21". `Text.IntToString`, `Formatting.FormatDuration`, `Formatting.FormatDistance` and `Formatting.FormatDurationRoundTrip` hold of the model's integers, not of those doubles.
- The bounding-box arithmetic of `calculateRegion` and the 1.5 factor (screens/RouteDetailsScreen.tsx:45-65). Only whether it returns a region is modelled.
- Map rendering, markers, `animateToRegion`, the timeline styling from `isFirst` and `isLast`, and all layout and style objects.
- The simulated delay and the loading flag updates in `fetchRoutes` (screens/ResultsScreen.tsx:32-51). Only the resulting list (the dataset) and the choice of body are modelled.
- Navigation (`handleRoutePress`, `onSearch`'s target), the home screen and the app shell.
- React's batching of state updates: a handler's setters take effect at once in the model.
- JavaScript strings are UTF-16; the model's strings are sequences of Unicode scalar values. `Text.IsSpace` lists the ECMAScript white space and line terminator code points.
- `RouteCard.TransportBadges`: the badge views themselves are reduced to their step type, with the icon name given by `RouteCard.BadgeIcon`.
- `DirectionStep.ShowsBusDetail`: a bus number that is the empty string is falsy, so no bus block is shown; what React Native does with the empty string that `"" && …` leaves in the view is not modelled.

## Findings

| source | as written | input that shows it | evidently intended | confidence | as-written member | corrected member |
|---|---|---|---|---|---|---|
| components/DirectionStep.tsx:63 | `{step.distance && (<View>…</View>)}` evaluates to the number `0` when the distance is 0, and that number is placed directly inside a `View`, where React Native does not accept bare text; modelled as `DirectionStep.DistanceChildAsWritten` | a step with `distance: 0` | a zero distance shows nothing, like an absent one | medium, not executed | `DirectionStep.ZeroDistanceLeaksText` | `DirectionStep.DistanceChild` |
