/** The route card: the transport-mode badges under a route. Its duration
    and distance labels are Formatting.FormatDuration and
    Formatting.FormatDistance. */
module RouteCard {
  import opened Types
  import opened DirectionStep

  /** `steps.some((step) => step.type === t)`. */
  function HasStepType(steps: seq<RouteStep>, t: StepType): (b: bool)
    ensures b <==> exists i :: 0 <= i < |steps| && steps[i].stepType == t
  {
    if steps == [] then false
    else steps[0].stepType == t || HasStepType(steps[1..], t)
  }

  /** The icon a badge shows: the same icon the directions list gives a
      step of that type. */
  function BadgeIcon(t: StepType): (icon: string)
    requires t != Wait
    ensures forall step: RouteStep :: step.stepType == t ==> icon == StepIcon(step)
  {
    match t
    case Bus => "bus-outline"
    case Walk => "walk-outline"
    case Metro => "train-outline"
  }

  /** The badges shown, in the fixed order bus, walk, metro; each appears
      when some step is of that type, and waiting has no badge. */
  function TransportBadges(steps: seq<RouteStep>): (badges: seq<StepType>)
    ensures Wait !in badges
    ensures forall t :: t in badges <==> t != Wait && HasStepType(steps, t)
    ensures |badges| <= 3
  {
    (if HasStepType(steps, Bus) then [Bus] else [])
    + (if HasStepType(steps, Walk) then [Walk] else [])
    + (if HasStepType(steps, Metro) then [Metro] else [])
  }

  /** The rank of a badge in the row. */
  function BadgeRank(t: StepType): nat
  {
    match t
    case Bus => 0
    case Walk => 1
    case Metro => 2
    case Wait => 3
  }

  /** The badges always come in the order bus, walk, metro, whatever the
      order of the steps, and no badge appears twice. */
  lemma BadgesOrdered(steps: seq<RouteStep>)
    ensures forall i, j :: 0 <= i < j < |TransportBadges(steps)| ==>
              BadgeRank(TransportBadges(steps)[i]) < BadgeRank(TransportBadges(steps)[j])
  {
  }

  /** Routes whose steps use the same types show the same badges, so
      reordering or repeating steps changes nothing. */
  lemma BadgesDependOnlyOnTypes(a: seq<RouteStep>, b: seq<RouteStep>)
    requires forall t :: HasStepType(a, t) <==> HasStepType(b, t)
    ensures TransportBadges(a) == TransportBadges(b)
  {
  }

  /** A route made only of waiting shows no badge. */
  lemma OnlyWaitingShowsNoBadge(steps: seq<RouteStep>)
    requires forall i :: 0 <= i < |steps| ==> steps[i].stepType == Wait
    ensures TransportBadges(steps) == []
  {
  }
}
