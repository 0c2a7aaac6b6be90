/** `stopTypeIcon` (src/app/mapbox.jsx:438-484): the icon drawn for a
    station, read off its derived route sets. */
module StopIcons {
  import opened Wrappers
  import opened Topology
  import opened MapView

  datatype Icon =
    | ExpressStop
    | AllDowntownTrains
    | AllUptownTrains
    | DowntownOnly
    | UptownOnly
    | DowntownAllTrains
    | UptownAllTrains
    | Cross
    | Circle

  /** The sprite name the map layer uses for each icon. */
  function IconName(icon: Icon): string
  {
    match icon
    case ExpressStop => "express-stop"
    case AllDowntownTrains => "all-downtown-trains"
    case AllUptownTrains => "all-uptown-trains"
    case DowntownOnly => "downtown-only"
    case UptownOnly => "uptown-only"
    case DowntownAllTrains => "downtown-all-trains"
    case UptownAllTrains => "uptown-all-trains"
    case Cross => "cross-15"
    case Circle => "circle-15"
  }

  /** A selection counts only when it is a non-empty string, as a
      JavaScript truthiness test does. */
  predicate Selected(selected: Option<RouteKey>)
  {
    selected.Some? && selected.value != ""
  }

  /** Every train passing the station stops there in `sets`. */
  predicate AllPassedIn(passed: set<RouteKey>, sets: set<RouteKey>)
  {
    forall t :: t in passed ==> t in sets
  }

  function StopTypeIcon(ss: StopSets, selected: Option<RouteKey>): (icon: Icon)
    // with a selected train, the icon says in which directions that train stops
    ensures Selected(selected) ==> var t := selected.value;
      && (icon == ExpressStop <==> t in ss.southStops && t in ss.northStops)
      && (icon == AllDowntownTrains <==> t in ss.southStops && t !in ss.northStops)
      && (icon == AllUptownTrains <==> t !in ss.southStops && t in ss.northStops)
      && (icon == Cross <==> t !in ss.southStops && t !in ss.northStops && ss.stops == {})
      && (icon == Circle <==> t !in ss.southStops && t !in ss.northStops && ss.stops != {})
    // without one, a station no train stops at is a cross, whatever passes it
    ensures !Selected(selected) ==> (icon == Cross <==> ss.stops == {})
    ensures !Selected(selected) && ss.stops != {} ==>
      (icon == ExpressStop <==> AllPassedIn(ss.passed, ss.southStops) && AllPassedIn(ss.passed, ss.northStops))
  {
    if Selected(selected) then
      var t := selected.value;
      if t in ss.southStops && t in ss.northStops then ExpressStop
      else if t in ss.southStops then AllDowntownTrains
      else if t in ss.northStops then AllUptownTrains
      else if |ss.stops| == 0 then Cross
      else Circle
    else if |ss.stops| == 0 then Cross
    else if AllPassedIn(ss.passed, ss.southStops) && AllPassedIn(ss.passed, ss.northStops) then ExpressStop
    else if |ss.northStops| == 0 then
      if AllPassedIn(ss.passed, ss.southStops) then AllDowntownTrains else DowntownOnly
    else if |ss.southStops| == 0 then
      if AllPassedIn(ss.passed, ss.northStops) then AllUptownTrains else UptownOnly
    else if AllPassedIn(ss.passed, ss.southStops) then DowntownAllTrains
    else if AllPassedIn(ss.passed, ss.northStops) then UptownAllTrains
    else Circle
  }

  /** Without a selection, every icon but the cross and the express stop
      says which directions have stopping trains and in which of them every
      passing train stops: a one-direction icon when no train stops the other
      way ("-only" when some passing train does not stop, "all-" when every
      one does), "downtown-all-trains" or "uptown-all-trains" when trains
      stop both ways and every passing train stops in that direction only,
      and the circle when trains stop both ways and neither direction serves
      every passing train. */
  lemma UnselectedIcons(ss: StopSets, selected: Option<RouteKey>)
    requires !Selected(selected)
    ensures var icon := StopTypeIcon(ss, selected);
      var south, north := AllPassedIn(ss.passed, ss.southStops), AllPassedIn(ss.passed, ss.northStops);
      && (icon == DowntownOnly <==> ss.stops != {} && ss.northStops == {} && !south)
      && (icon == AllDowntownTrains <==> ss.stops != {} && ss.northStops == {} && south && !north)
      && (icon == UptownOnly <==> ss.stops != {} && ss.northStops != {} && ss.southStops == {} && !north)
      && (icon == AllUptownTrains <==> ss.stops != {} && ss.northStops != {} && ss.southStops == {} && north && !south)
      && (icon == DowntownAllTrains <==> ss.stops != {} && ss.northStops != {} && ss.southStops != {} && south && !north)
      && (icon == UptownAllTrains <==> ss.stops != {} && ss.northStops != {} && ss.southStops != {} && north && !south)
      && (icon == Circle <==> ss.stops != {} && ss.northStops != {} && ss.southStops != {} && !south && !north)
  {
  }

  /** On a rebuilt station, where `stops` is the union of the two direction
      sets, an unselected station whose trains all stop both ways is an
      express stop; one with a passing train that stops nowhere there is never
      an express stop. */
  lemma RebuiltExpressStop(ss: StopSets, selected: Option<RouteKey>, t: RouteKey)
    requires !Selected(selected) && ss.stops == ss.northStops + ss.southStops && ss.stops != {}
    ensures StopTypeIcon(ss, selected) == ExpressStop <==> ss.passed <= ss.northStops * ss.southStops
    ensures t in ss.passed && t !in ss.stops ==> StopTypeIcon(ss, selected) != ExpressStop
  {
  }

  /** A selected train that stops nowhere at a rebuilt station gets the cross
      only when no train at all stops there. */
  lemma SelectedNotStopping(ss: StopSets, selected: Option<RouteKey>)
    requires Selected(selected) && ss.stops == ss.northStops + ss.southStops
    requires selected.value !in ss.stops
    ensures StopTypeIcon(ss, selected) == (if ss.stops == {} then Cross else Circle)
  {
  }
}
