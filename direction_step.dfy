/** One step of the directions list: its icon, its labels, and which detail
    blocks are shown. Its duration label is Formatting.FormatDuration. */
module DirectionStep {
  import opened Types
  import opened Text
  import opened Formatting

  /** `getStepIcon`: the switch on the step's type literal, with its default
      for any other text. */
  function IconForTypeName(name: string): (icon: string)
    ensures icon == "navigate-outline" <==> ParseStepType(name) == None
  {
    if name == "walk" then "walk-outline"
    else if name == "bus" then "bus-outline"
    else if name == "metro" then "train-outline"
    else if name == "wait" then "time-outline"
    else "navigate-outline"
  }

  /** The icon of a step: each step type has its own, and a typed step never
      falls through to the default icon. */
  function StepIcon(step: RouteStep): (icon: string)
    ensures step.stepType == Walk ==> icon == "walk-outline"
    ensures step.stepType == Bus ==> icon == "bus-outline"
    ensures step.stepType == Metro ==> icon == "train-outline"
    ensures step.stepType == Wait ==> icon == "time-outline"
    ensures icon != "navigate-outline"
  {
    StepTypeNameRoundTrip(step.stepType);
    IconForTypeName(StepTypeName(step.stepType))
  }

  /** Whether a number is falsy in JavaScript (`!meters`): absent or zero. */
  predicate Falsy(meters: Option<int>)
  {
    meters == None || meters == Some(0)
  }

  /** `formatDistance(meters?)` of the direction step: empty exactly for an
      absent or zero distance; otherwise the card's distance label, so below
      a kilometre "<meters> m", which reads back as the distance. */
  function FormatStepDistance(meters: Option<int>): (shown: DistanceText)
    ensures shown == Plain("") <==> Falsy(meters)
    ensures meters.Some? && 0 < meters.value < MetersPerKilometer ==>
              shown == Plain(NatToString(meters.value) + " m")
              && ParseMetres(shown.text) == Some(meters.value)
    ensures meters.Some? && meters.value >= MetersPerKilometer ==> shown == Kilometres(meters.value)
    ensures meters.Some? && meters.value < 0 ==> shown == Plain(IntToString(meters.value) + " m")
  {
    if Falsy(meters) then Plain("") else FormatDistance(meters.value)
  }

  /** The distance detail is shown when the step has a non-zero distance:
      exactly when the component's JSX `step.distance && …` renders the block. */
  predicate ShowsDistance(step: RouteStep)
    ensures ShowsDistance(step) <==> DistanceChildAsWritten(step) == Block
  {
    !Falsy(step.distance)
  }

  /** The bus detail is shown when the step has a non-empty bus number. */
  predicate ShowsBusDetail(step: RouteStep)
  {
    step.busNumber.Some? && step.busNumber.value != ""
  }

  /** The detail blocks a step can render. */
  datatype Detail =
    | DurationDetail(duration: string)
    | DistanceDetail(distance: DistanceText)
    | BusDetail(number: string, name: Option<string>)
    | FromToDetail(from: string, to: string)

  /** The detail blocks a step renders: the duration, then the distance and
      the bus blocks inside the details row, and the From/To block below
      it, each when it applies.
      A zero distance gets no block, as `DistanceChild` intends, rather than
      the bare "0" the component's JSX puts on screen (`DistanceChildAsWritten`). */
  function StepDetails(step: RouteStep): (r: seq<Detail>)
    ensures 1 <= |r| <= 4 && r[0] == DurationDetail(FormatDuration(step.duration))
  {
    [DurationDetail(FormatDuration(step.duration))]
    + (if ShowsDistance(step) then [DistanceDetail(FormatStepDistance(step.distance))] else [])
    + (if ShowsBusDetail(step) then [BusDetail(step.busNumber.value, step.busName)] else [])
    + (if HasBothLocations(step)
       then [FromToDetail(step.startLocation.value.name, step.endLocation.value.name)]
       else [])
  }

  /** `StepDetails` as its four parts laid end to end. */
  lemma StepDetailsParts(step: RouteStep)
    ensures StepDetails(step)
            == [DurationDetail(FormatDuration(step.duration))]
               + (if ShowsDistance(step) then [DistanceDetail(FormatStepDistance(step.distance))] else [])
               + (if ShowsBusDetail(step) then [BusDetail(step.busNumber.value, step.busName)] else [])
               + (if HasBothLocations(step)
                  then [FromToDetail(step.startLocation.value.name, step.endLocation.value.name)]
                  else [])
  {
  }

  /** The distance block appears exactly when the distance is non-zero, and
      its label is then not empty. */
  lemma StepDistanceBlock(step: RouteStep)
    ensures ShowsDistance(step) ==> DistanceDetail(FormatStepDistance(step.distance)) in StepDetails(step)
    ensures forall d :: d in StepDetails(step) && d.DistanceDetail? ==>
              ShowsDistance(step) && d.distance == FormatStepDistance(step.distance)
              && d.distance != Plain("")
  {
    StepDetailsParts(step);
  }

  /** The bus block appears exactly when there is a non-empty bus number, and
      shows that number and the bus name. */
  lemma StepBusBlock(step: RouteStep)
    ensures ShowsBusDetail(step) ==> BusDetail(step.busNumber.value, step.busName) in StepDetails(step)
    ensures forall d :: d in StepDetails(step) && d.BusDetail? ==>
              ShowsBusDetail(step) && step.busNumber == Some(d.number) && d.name == step.busName
  {
    StepDetailsParts(step);
  }

  /** The From/To block appears exactly when both locations are known, and
      shows their names. */
  lemma StepFromToBlock(step: RouteStep)
    ensures HasBothLocations(step) ==>
              FromToDetail(step.startLocation.value.name, step.endLocation.value.name) in StepDetails(step)
    ensures forall d :: d in StepDetails(step) && d.FromToDetail? ==>
              HasBothLocations(step)
              && d.from == step.startLocation.value.name && d.to == step.endLocation.value.name
  {
    StepDetailsParts(step);
  }

  /** The distance detail is shown exactly when its label is not empty. */
  lemma DistanceShownIffLabelled(step: RouteStep)
    ensures ShowsDistance(step) <==> FormatStepDistance(step.distance) != Plain("")
  {
  }

  /** What a `{value && <block/>}` child of a view puts on screen. */
  datatype Child = Nothing | Block | BareText(text: string)

  /** `{step.distance && <View>…</View>}` as written: an absent distance
      renders nothing, but a zero distance is the number 0 itself, which is
      placed as bare text in a view. */
  function DistanceChildAsWritten(step: RouteStep): (c: Child)
    ensures c == Nothing <==> step.distance == None
    ensures c.BareText? <==> step.distance == Some(0)
  {
    match step.distance
    case None => Nothing
    case Some(m) => if m == 0 then BareText("0") else Block
  }

  /** A step with distance 0 makes the as-written child a bare "0". */
  lemma ZeroDistanceLeaksText(step: RouteStep)
    requires step.distance == Some(0)
    ensures DistanceChildAsWritten(step) == BareText("0")
  {
  }

  /** The distance child as intended: the block when the distance is shown,
      nothing otherwise, never bare text. */
  function DistanceChild(step: RouteStep): (c: Child)
    ensures c == Block <==> ShowsDistance(step)
    ensures !c.BareText?
  {
    if ShowsDistance(step) then Block else Nothing
  }

  /** The corrected child agrees with the as-written one whenever the
      as-written one does not leak text. */
  lemma DistanceChildAgrees(step: RouteStep)
    ensures !DistanceChildAsWritten(step).BareText? ==> DistanceChild(step) == DistanceChildAsWritten(step)
    ensures DistanceChildAsWritten(step).BareText? <==> step.distance == Some(0)
  {
  }
}
