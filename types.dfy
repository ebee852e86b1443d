/** The data model of the trip planner: locations, route steps, routes and
    remembered searches. Every entity is an immutable value. */
module Types {

  /** An optional field (`field?: T` in the data model). */
  datatype Option<+T> = None | Some(value: T)

  /** Latitude and longitude in degrees. The application only passes these
      on to the map; the model never computes with them. */
  datatype Coordinates = Coordinates(latitude: real, longitude: real)

  datatype Location = Location(name: string, coordinates: Coordinates)

  /** The four kinds of leg a route is made of. */
  datatype StepType = Walk | Bus | Metro | Wait

  /** One leg of a route. `duration` is in minutes, `distance` in meters. */
  datatype RouteStep = RouteStep(
    id: string,
    description: string,
    stepType: StepType,
    duration: int,
    distance: Option<int>,
    busNumber: Option<string>,
    busName: Option<string>,
    startLocation: Option<Location>,
    endLocation: Option<Location>)

  /** Whether a step has both its start and its end location. */
  predicate HasBothLocations(step: RouteStep)
  {
    step.startLocation.Some? && step.endLocation.Some?
  }

  /** A complete trip option: duration in minutes, distance in meters,
      fare in rupees, and the ordered legs. */
  datatype Route = Route(
    id: string,
    name: string,
    origin: Location,
    destination: Location,
    duration: int,
    distance: int,
    fare: int,
    steps: seq<RouteStep>)

  /** A remembered search: the two texts typed and the time it was made,
      in milliseconds since the epoch. */
  datatype SearchQuery = SearchQuery(origin: string, destination: string, timestamp: int)

  /** The literal that stands for a step type in the route data. */
  function StepTypeName(t: StepType): string
  {
    match t
    case Walk => "walk"
    case Bus => "bus"
    case Metro => "metro"
    case Wait => "wait"
  }

  /** Reads a step type from its literal; any other text is not a step type. */
  function ParseStepType(name: string): (r: Option<StepType>)
    ensures r.Some? ==> StepTypeName(r.value) == name
  {
    if name == "walk" then Some(Walk)
    else if name == "bus" then Some(Bus)
    else if name == "metro" then Some(Metro)
    else if name == "wait" then Some(Wait)
    else None
  }

  /** Every step type is written as exactly one literal, and that literal
      reads back as the same type. */
  lemma StepTypeNameRoundTrip(t: StepType)
    ensures ParseStepType(StepTypeName(t)) == Some(t)
    ensures forall u: StepType :: StepTypeName(u) == StepTypeName(t) ==> u == t
  {
  }
}
