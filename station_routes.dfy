/** The station panel's walks over the trains' actual routings
    (src/app/stationDetails.jsx:196-282, 298-379): the destinations reached
    from a station and the direction label ("Uptown", "Brooklyn", ...) of each
    platform. */
module StationRoutes {
  import opened Wrappers
  import opened Seqs
  import opened Text
  import opened StationDetails

  /** A train of the status feed with its actual routings; a direction
      the feed leaves out is empty, which the source's `?.forEach` skips. */
  datatype Train = Train(key: TrainKey, north: seq<seq<StationId>>, south: seq<seq<StationId>>)

  function Along(t: Train, d: Direction): seq<seq<StationId>>
  {
    if d == North then t.north else t.south
  }

  /** The first pass skips the M train at the shuffled stations. */
  predicate Considered(key: TrainKey, id: StationId)
  {
    key != "M" || !Shuffled(id)
  }

  /** `trains[key]`. */
  function Lookup(trains: seq<Train>, key: TrainKey): (r: Option<Train>)
    ensures r.Some? ==> r.value in trains && r.value.key == key
    ensures r.None? <==> forall i :: 0 <= i < |trains| ==> trains[i].key != key
  {
    if trains == [] then None
    else if trains[0].key == key then Some(trains[0])
    else
      var r := Lookup(trains[1..], key);
      assert forall i :: 1 <= i < |trains| ==> trains[i] == trains[1..][i - 1];
      r
  }

  /** The M train is in the feed wherever the second pass looks it up. */
  predicate HasM(trains: seq<Train>, id: StationId)
  {
    Shuffled(id) ==> Lookup(trains, "M").Some?
  }

  function Last(r: seq<StationId>): StationId
    requires r != []
  {
    r[|r| - 1]
  }

  // ---------------------------------------------------------- destinations

  /** The last stop of every routing through station `id`, in order. */
  function Terminals(routings: seq<seq<StationId>>, id: StationId): seq<StationId>
  {
    if routings == [] then []
    else
      var r := routings[|routings| - 1];
      Terminals(routings[..|routings| - 1], id) + (if id in r then [Last(r)] else [])
  }

  /** The first pass of `northDestinations`/`southDestinations` over the
      trains in key order. */
  function TrainTerminals(trains: seq<Train>, id: StationId, d: Direction): seq<StationId>
  {
    if trains == [] then []
    else
      var t := trains[|trains| - 1];
      TrainTerminals(trains[..|trains| - 1], id, d) + (if Considered(t.key, id) then Terminals(Along(t, d), id) else [])
  }

  /** Both passes: at a shuffled station the M train's routings of the
      opposite direction are read instead of its own. */
  function DestinationIds(trains: seq<Train>, id: StationId, d: Direction): seq<StationId>
    requires HasM(trains, id)
  {
    TrainTerminals(trains, id, d)
      + (if Shuffled(id) then Terminals(Along(Lookup(trains, "M").value, Opposite(d)), id) else [])
  }

  /** The inner `forEach` over one train's routings. */
  method CollectTerminals(routings: seq<seq<StationId>>, id: StationId, dests: seq<StationId>)
    returns (out: seq<StationId>)
    ensures out == dests + Terminals(routings, id)
  {
    out := dests;
    var j := 0;
    while j < |routings|
      invariant j <= |routings|
      invariant out == dests + Terminals(routings[..j], id)
    {
      assert routings[..j + 1][..j] == routings[..j];
      if id in routings[j] {
        out := out + [routings[j][|routings[j]| - 1]];
      }
      j := j + 1;
    }
    assert routings[..j] == routings;
  }

  /** Lines 196-217 (south) and 298-319 (north): the destinations pushed, in
      order. */
  method CollectDestinations(trains: seq<Train>, id: StationId, d: Direction) returns (dests: seq<StationId>)
    requires HasM(trains, id)
    ensures dests == DestinationIds(trains, id, d)
  {
    dests := [];
    var i := 0;
    while i < |trains|
      invariant i <= |trains|
      invariant dests == TrainTerminals(trains[..i], id, d)
    {
      assert trains[..i + 1][..i] == trains[..i];
      if Considered(trains[i].key, id) {
        dests := CollectTerminals(Along(trains[i], d), id, dests);
      }
      i := i + 1;
    }
    assert trains[..i] == trains;
    if Shuffled(id) {
      var m := Lookup(trains, "M").value;
      dests := CollectTerminals(Along(m, Opposite(d)), id, dests);
    }
  }

  lemma {:induction false} TerminalsMembers(routings: seq<seq<StationId>>, id: StationId, x: StationId)
    ensures x in Terminals(routings, id) <==> exists j :: 0 <= j < |routings| && id in routings[j] && x == Last(routings[j])
  {
    if routings != [] {
      var init := routings[..|routings| - 1];
      TerminalsMembers(init, id, x);
      if x in Terminals(init, id) {
        var j :| 0 <= j < |init| && id in init[j] && x == Last(init[j]);
        assert routings[j] == init[j];
      }
      if exists j :: 0 <= j < |routings| && id in routings[j] && x == Last(routings[j]) {
        var j :| 0 <= j < |routings| && id in routings[j] && x == Last(routings[j]);
        if j < |init| {
          assert init[j] == routings[j];
        }
      }
    }
  }

  /** Some considered train has a routing of direction d through `id`
      that ends at x. */
  predicate EndsThere(trains: seq<Train>, id: StationId, d: Direction, x: StationId)
  {
    exists i, j :: 0 <= i < |trains| && Considered(trains[i].key, id) && 0 <= j < |Along(trains[i], d)|
      && id in Along(trains[i], d)[j] && x == Last(Along(trains[i], d)[j])
  }

  lemma {:induction false} TrainTerminalsMembers(trains: seq<Train>, id: StationId, d: Direction, x: StationId)
    ensures x in TrainTerminals(trains, id, d) <==> EndsThere(trains, id, d, x)
  {
    if trains != [] {
      var init := trains[..|trains| - 1];
      var t := trains[|trains| - 1];
      TrainTerminalsMembers(init, id, d, x);
      TerminalsMembers(Along(t, d), id, x);
      if EndsThere(init, id, d, x) {
        var i, j :| 0 <= i < |init| && Considered(init[i].key, id) && 0 <= j < |Along(init[i], d)|
          && id in Along(init[i], d)[j] && x == Last(Along(init[i], d)[j]);
        assert trains[i] == init[i];
      }
      if Considered(t.key, id) && x in Terminals(Along(t, d), id) {
        var j :| 0 <= j < |Along(t, d)| && id in Along(t, d)[j] && x == Last(Along(t, d)[j]);
        assert trains[|trains| - 1] == t;
      }
      if EndsThere(trains, id, d, x) {
        var i, j :| 0 <= i < |trains| && Considered(trains[i].key, id) && 0 <= j < |Along(trains[i], d)|
          && id in Along(trains[i], d)[j] && x == Last(Along(trains[i], d)[j]);
        if i < |init| {
          assert init[i] == trains[i];
        }
      }
    }
  }

  /** A destination is the last stop of a routing through the station: of a
      considered train in the platform's direction, or, at a shuffled
      station, of the M train in the opposite direction. */
  lemma DestinationIdsMembers(trains: seq<Train>, id: StationId, d: Direction, x: StationId)
    requires HasM(trains, id)
    ensures x in DestinationIds(trains, id, d) <==>
      || EndsThere(trains, id, d, x)
      || (Shuffled(id) && exists r :: r in Along(Lookup(trains, "M").value, Opposite(d)) && id in r && x == Last(r))
  {
    TrainTerminalsMembers(trains, id, d, x);
    if Shuffled(id) {
      var rs := Along(Lookup(trains, "M").value, Opposite(d));
      TerminalsMembers(rs, id, x);
      if exists r :: r in rs && id in r && x == Last(r) {
        var r :| r in rs && id in r && x == Last(r);
        var j :| 0 <= j < |rs| && rs[j] == r;
      }
    }
  }

  /** `northDestinations(false)` / `southDestinations(false)`. */
  method Destinations(stations: map<StationId, Station>, trains: seq<Train>, station: Station, d: Direction)
    returns (r: Option<seq<string>>)
    requires HasM(trains, station.id)
    requires forall x :: x in DestinationIds(trains, station.id, d) ==> x in stations
    ensures r == SortDestinations(stations, DestinationIds(trains, station.id, d))
  {
    var dests := CollectDestinations(trains, station.id, d);
    r := SortDestinations(stations, dests);
  }

  // ------------------------------------------------------------ directions

  /** What a direction walk gathers: `adjacentBoroughs`, a set kept in the
      order its members were first added, and whether `manhattanDirection`
      was set. */
  datatype Walk = Walk(boroughs: seq<string>, labelled: bool)

  /** `adjacentBoroughs.add(b)`. */
  function AddBorough(w: Walk, b: string): Walk
  {
    if b in w.boroughs then w else w.(boroughs := w.boroughs + [b])
  }

  /** The index of the first occurrence of x (`indexOf`). */
  function IndexOf(r: seq<StationId>, x: StationId): (k: nat)
    requires x in r
    ensures k < |r| && r[k] == x && x !in r[..k]
  {
    if r[0] == x then 0 else IndexOf(r[1..], x) + 1
  }

  /** `routing.slice(routing.indexOf(id) + 1)`: the stops after the
      station's first occurrence. */
  function After(r: seq<StationId>, id: StationId): seq<StationId>
    requires id in r
  {
    r[IndexOf(r, id) + 1..]
  }

  /** Latitude further in the platform's direction. */
  predicate Further(latitude: int, from: int, d: Direction)
  {
    if d == North then latitude > from else latitude < from
  }

  /** The station may get an Uptown/Downtown label at all. */
  predicate MayLabel(station: Station)
  {
    station.borough in ["M", "Bx"] && station.id !in ExemptFromUptownDowntown
  }

  /** One stop of the walk. Only the first pass (`labels`) sets the label. */
  function VisitStop(w: Walk, stations: map<StationId, Station>, station: Station, sid: StationId,
                     d: Direction, labels: bool): Walk
    requires sid in stations
  {
    var s := stations[sid];
    if s.borough != station.borough then AddBorough(w, s.borough)
    else if labels && MayLabel(station) && Further(s.latitude, station.latitude, d) then w.(labelled := true)
    else w
  }

  function WalkStops(w: Walk, stations: map<StationId, Station>, station: Station, stops: seq<StationId>,
                     d: Direction, labels: bool): Walk
    requires forall k :: 0 <= k < |stops| ==> stops[k] in stations
  {
    if stops == [] then w
    else VisitStop(WalkStops(w, stations, station, stops[..|stops| - 1], d, labels), stations, station, stops[|stops| - 1], d, labels)
  }

  /** Every stop after the station on a routing through it is known; the
      source reads `stations[stationId].borough` for each. */
  predicate RoutingsKnown(stations: map<StationId, Station>, routings: seq<seq<StationId>>, id: StationId)
  {
    forall j :: 0 <= j < |routings| && id in routings[j] ==>
      forall k :: 0 <= k < |After(routings[j], id)| ==> After(routings[j], id)[k] in stations
  }

  function WalkRoutings(w: Walk, stations: map<StationId, Station>, station: Station, routings: seq<seq<StationId>>,
                        d: Direction, labels: bool): Walk
    requires RoutingsKnown(stations, routings, station.id)
  {
    if routings == [] then w
    else
      var init := routings[..|routings| - 1];
      var r := routings[|routings| - 1];
      assert forall j :: 0 <= j < |init| ==> init[j] == routings[j];
      var before := WalkRoutings(w, stations, station, init, d, labels);
      if station.id in r then WalkStops(before, stations, station, After(r, station.id), d, labels) else before
  }

  predicate TrainsKnown(stations: map<StationId, Station>, trains: seq<Train>, id: StationId, d: Direction)
  {
    forall i :: 0 <= i < |trains| && Considered(trains[i].key, id) ==> RoutingsKnown(stations, Along(trains[i], d), id)
  }

  function WalkTrains(w: Walk, stations: map<StationId, Station>, station: Station, trains: seq<Train>, d: Direction): Walk
    requires TrainsKnown(stations, trains, station.id, d)
  {
    if trains == [] then w
    else
      var init := trains[..|trains| - 1];
      var t := trains[|trains| - 1];
      assert forall i :: 0 <= i < |init| ==> init[i] == trains[i];
      var before := WalkTrains(w, stations, station, init, d);
      if Considered(t.key, station.id) then WalkRoutings(before, stations, station, Along(t, d), d, true) else before
  }

  /** Everything the direction of a platform reads is there: the M train at
      a shuffled station, and every stop after the station on the routings
      walked. */
  predicate Walkable(stations: map<StationId, Station>, trains: seq<Train>, station: Station, d: Direction)
  {
    && HasM(trains, station.id)
    && TrainsKnown(stations, trains, station.id, d)
    && (Shuffled(station.id) ==> RoutingsKnown(stations, Along(Lookup(trains, "M").value, Opposite(d)), station.id))
  }

  /** Both passes of lines 230-264 (south) and 327-361 (north). */
  function DirectionWalk(stations: map<StationId, Station>, trains: seq<Train>, station: Station, d: Direction): Walk
    requires Walkable(stations, trains, station, d)
  {
    var w := WalkTrains(Walk([], false), stations, station, trains, d);
    if Shuffled(station.id) then WalkRoutings(w, stations, station, Along(Lookup(trains, "M").value, Opposite(d)), d, false)
    else w
  }

  function LabelWord(d: Direction): string
  {
    if d == North then "Uptown" else "Downtown"
  }

  /** `BOROUGHS[b] || b`. */
  function BoroughName(code: string): string
  {
    if code in Boroughs then Boroughs[code] else code
  }

  function BoroughNames(codes: seq<string>): (r: seq<string>)
    ensures |r| == |codes|
    ensures forall k :: 0 <= k < |codes| ==> r[k] == BoroughName(codes[k])
  {
    if codes == [] then [] else [BoroughName(codes[0])] + BoroughNames(codes[1..])
  }

  /** The items listed: the label first if set, then the boroughs in the
      order first met. */
  function Items(w: Walk, d: Direction): seq<string>
  {
    (if w.labelled then [LabelWord(d)] else []) + BoroughNames(w.boroughs)
  }

  /** "x" for one item, "x, y & z" for more (lines 278-281). */
  function ListText(items: seq<string>): string
    requires items != []
  {
    if |items| < 2 then items[0]
    else Join(items[..|items| - 1], ", ") + " & " + items[|items| - 1]
  }

  /** An em dash and a line break. */
  const Terminator: string := "\U{2014}\n"

  function DirectionText(stations: map<StationId, Station>, trains: seq<Train>, station: Station, d: Direction): Option<string>
    requires (d == South && station.id in ExemptFromSouth) || Walkable(stations, trains, station, d)
  {
    if d == South && station.id in ExemptFromSouth then None
    else
      var items := Items(DirectionWalk(stations, trains, station, d), d);
      if items == [] then None else Some(ListText(items) + Terminator)
  }

  /** The innermost `forEach` over the stops after the station. */
  method VisitStops(w: Walk, stations: map<StationId, Station>, station: Station, stops: seq<StationId>,
                    d: Direction, labels: bool) returns (out: Walk)
    requires forall k :: 0 <= k < |stops| ==> stops[k] in stations
    ensures out == WalkStops(w, stations, station, stops, d, labels)
  {
    out := w;
    var k := 0;
    while k < |stops|
      invariant k <= |stops|
      invariant out == WalkStops(w, stations, station, stops[..k], d, labels)
    {
      assert stops[..k + 1][..k] == stops[..k];
      var s := stations[stops[k]];
      if s.borough != station.borough {
        if s.borough !in out.boroughs {
          out := out.(boroughs := out.boroughs + [s.borough]);
        }
      } else if labels && MayLabel(station) && Further(s.latitude, station.latitude, d) {
        out := out.(labelled := true);
      }
      k := k + 1;
    }
    assert stops[..k] == stops;
  }

  /** The `forEach` over one train's routings of one direction. */
  method VisitRoutings(w: Walk, stations: map<StationId, Station>, station: Station, routings: seq<seq<StationId>>,
                       d: Direction, labels: bool) returns (out: Walk)
    requires RoutingsKnown(stations, routings, station.id)
    ensures out == WalkRoutings(w, stations, station, routings, d, labels)
  {
    out := w;
    var j := 0;
    while j < |routings|
      invariant j <= |routings|
      invariant RoutingsKnown(stations, routings[..j], station.id)
      invariant out == WalkRoutings(w, stations, station, routings[..j], d, labels)
    {
      assert routings[..j + 1][..j] == routings[..j];
      if station.id in routings[j] {
        out := VisitStops(out, stations, station, After(routings[j], station.id), d, labels);
      }
      j := j + 1;
    }
    assert routings[..j] == routings;
  }

  /** The first pass, over the trains in key order. */
  method VisitTrains(w: Walk, stations: map<StationId, Station>, station: Station, trains: seq<Train>, d: Direction)
    returns (out: Walk)
    requires TrainsKnown(stations, trains, station.id, d)
    ensures out == WalkTrains(w, stations, station, trains, d)
  {
    out := w;
    var i := 0;
    while i < |trains|
      invariant i <= |trains|
      invariant TrainsKnown(stations, trains[..i], station.id, d)
      invariant out == WalkTrains(w, stations, station, trains[..i], d)
    {
      assert trains[..i + 1][..i] == trains[..i];
      if Considered(trains[i].key, station.id) {
        out := VisitRoutings(out, stations, station, Along(trains[i], d), d, true);
      }
      i := i + 1;
    }
    assert trains[..i] == trains;
  }

  /** `northDirection()` (lines 324-379) and `southDirection()` (lines
      222-282). */
  method PlatformDirection(stations: map<StationId, Station>, trains: seq<Train>, station: Station, d: Direction)
    returns (r: Option<string>)
    requires (d == South && station.id in ExemptFromSouth) || Walkable(stations, trains, station, d)
    ensures r == DirectionText(stations, trains, station, d)
  {
    if d == South && station.id in ExemptFromSouth {
      return None;
    }
    var w := VisitTrains(Walk([], false), stations, station, trains, d);
    if Shuffled(station.id) {
      var m := Lookup(trains, "M").value;
      w := VisitRoutings(w, stations, station, Along(m, Opposite(d)), d, false);
    }
    var items := BoroughNames(w.boroughs);
    if w.labelled {
      items := [LabelWord(d)] + items;
    }
    assert w == DirectionWalk(stations, trains, station, d);
    assert items == Items(w, d);
    if |items| == 0 {
      return None;
    }
    r := Some(ListText(items) + Terminator);
  }

  // ------------------------------------------------- what the walk finds

  /** A stop on the station's own borough further in the platform's
      direction: what sets the Uptown/Downtown label. */
  predicate LabelsAt(stations: map<StationId, Station>, station: Station, sid: StationId, d: Direction)
  {
    sid in stations && stations[sid].borough == station.borough && Further(stations[sid].latitude, station.latitude, d)
  }

  predicate LabelIn(stations: map<StationId, Station>, station: Station, stops: seq<StationId>, d: Direction)
  {
    exists k :: 0 <= k < |stops| && LabelsAt(stations, station, stops[k], d)
  }

  /** Some stop lies in borough b, other than the station's own. */
  predicate ReachIn(stations: map<StationId, Station>, station: Station, stops: seq<StationId>, b: string)
  {
    b != station.borough && exists k :: 0 <= k < |stops| && stops[k] in stations && stations[stops[k]].borough == b
  }

  predicate LabelOnRoutings(stations: map<StationId, Station>, station: Station, routings: seq<seq<StationId>>, d: Direction)
  {
    exists j :: 0 <= j < |routings| && station.id in routings[j] && LabelIn(stations, station, After(routings[j], station.id), d)
  }

  predicate ReachOnRoutings(stations: map<StationId, Station>, station: Station, routings: seq<seq<StationId>>, b: string)
  {
    exists j :: 0 <= j < |routings| && station.id in routings[j] && ReachIn(stations, station, After(routings[j], station.id), b)
  }

  predicate LabelOnTrains(stations: map<StationId, Station>, station: Station, trains: seq<Train>, d: Direction)
  {
    exists i :: 0 <= i < |trains| && Considered(trains[i].key, station.id) && LabelOnRoutings(stations, station, Along(trains[i], d), d)
  }

  predicate ReachOnTrains(stations: map<StationId, Station>, station: Station, trains: seq<Train>, d: Direction, b: string)
  {
    exists i :: 0 <= i < |trains| && Considered(trains[i].key, station.id) && ReachOnRoutings(stations, station, Along(trains[i], d), b)
  }

  lemma {:induction false} WalkStopsBoroughs(w: Walk, stations: map<StationId, Station>, station: Station,
                                             stops: seq<StationId>, d: Direction, labels: bool, b: string)
    requires forall k :: 0 <= k < |stops| ==> stops[k] in stations
    ensures NoDup(w.boroughs) ==> NoDup(WalkStops(w, stations, station, stops, d, labels).boroughs)
    ensures b in WalkStops(w, stations, station, stops, d, labels).boroughs <==>
      b in w.boroughs || ReachIn(stations, station, stops, b)
  {
    if stops != [] {
      var init := stops[..|stops| - 1];
      WalkStopsBoroughs(w, stations, station, init, d, labels, b);
      if ReachIn(stations, station, init, b) {
        var k :| 0 <= k < |init| && init[k] in stations && stations[init[k]].borough == b;
        assert stops[k] == init[k];
      }
      if ReachIn(stations, station, stops, b) {
        var k :| 0 <= k < |stops| && stops[k] in stations && stations[stops[k]].borough == b;
        if k < |init| {
          assert init[k] == stops[k];
        }
      }
    }
  }

  lemma {:induction false} WalkStopsLabel(w: Walk, stations: map<StationId, Station>, station: Station,
                                          stops: seq<StationId>, d: Direction, labels: bool)
    requires forall k :: 0 <= k < |stops| ==> stops[k] in stations
    ensures WalkStops(w, stations, station, stops, d, labels).labelled <==>
      w.labelled || (labels && MayLabel(station) && LabelIn(stations, station, stops, d))
  {
    if stops != [] {
      var init := stops[..|stops| - 1];
      WalkStopsLabel(w, stations, station, init, d, labels);
      if LabelIn(stations, station, init, d) {
        var k :| 0 <= k < |init| && LabelsAt(stations, station, init[k], d);
        assert stops[k] == init[k];
      }
      if LabelIn(stations, station, stops, d) {
        var k :| 0 <= k < |stops| && LabelsAt(stations, station, stops[k], d);
        if k < |init| {
          assert init[k] == stops[k];
        }
      }
    }
  }

  lemma {:induction false} WalkRoutingsBoroughs(w: Walk, stations: map<StationId, Station>, station: Station,
                                                routings: seq<seq<StationId>>, d: Direction, labels: bool, b: string)
    requires RoutingsKnown(stations, routings, station.id)
    ensures NoDup(w.boroughs) ==> NoDup(WalkRoutings(w, stations, station, routings, d, labels).boroughs)
    ensures b in WalkRoutings(w, stations, station, routings, d, labels).boroughs <==>
      b in w.boroughs || ReachOnRoutings(stations, station, routings, b)
  {
    if routings != [] {
      var init := routings[..|routings| - 1];
      var r := routings[|routings| - 1];
      assert forall j :: 0 <= j < |init| ==> init[j] == routings[j];
      WalkRoutingsBoroughs(w, stations, station, init, d, labels, b);
      var before := WalkRoutings(w, stations, station, init, d, labels);
      if station.id in r {
        WalkStopsBoroughs(before, stations, station, After(r, station.id), d, labels, b);
      }
      if ReachOnRoutings(stations, station, init, b) {
        var j :| 0 <= j < |init| && station.id in init[j] && ReachIn(stations, station, After(init[j], station.id), b);
        assert routings[j] == init[j];
      }
      if ReachOnRoutings(stations, station, routings, b) {
        var j :| 0 <= j < |routings| && station.id in routings[j] && ReachIn(stations, station, After(routings[j], station.id), b);
        if j < |init| {
          assert init[j] == routings[j];
        }
      }
    }
  }

  lemma {:induction false} WalkRoutingsLabel(w: Walk, stations: map<StationId, Station>, station: Station,
                                             routings: seq<seq<StationId>>, d: Direction, labels: bool)
    requires RoutingsKnown(stations, routings, station.id)
    ensures WalkRoutings(w, stations, station, routings, d, labels).labelled <==>
      w.labelled || (labels && MayLabel(station) && LabelOnRoutings(stations, station, routings, d))
  {
    if routings != [] {
      var init := routings[..|routings| - 1];
      var r := routings[|routings| - 1];
      assert forall j :: 0 <= j < |init| ==> init[j] == routings[j];
      WalkRoutingsLabel(w, stations, station, init, d, labels);
      var before := WalkRoutings(w, stations, station, init, d, labels);
      if station.id in r {
        WalkStopsLabel(before, stations, station, After(r, station.id), d, labels);
      }
      if LabelOnRoutings(stations, station, init, d) {
        var j :| 0 <= j < |init| && station.id in init[j] && LabelIn(stations, station, After(init[j], station.id), d);
        assert routings[j] == init[j];
      }
      if LabelOnRoutings(stations, station, routings, d) {
        var j :| 0 <= j < |routings| && station.id in routings[j] && LabelIn(stations, station, After(routings[j], station.id), d);
        if j < |init| {
          assert init[j] == routings[j];
        }
      }
    }
  }

  /** The trains' existentials split at the last train. */
  lemma ReachOnTrainsSnoc(stations: map<StationId, Station>, station: Station, trains: seq<Train>, d: Direction, b: string)
    requires trains != []
    ensures ReachOnTrains(stations, station, trains, d, b) <==>
      || ReachOnTrains(stations, station, trains[..|trains| - 1], d, b)
      || (Considered(trains[|trains| - 1].key, station.id)
          && ReachOnRoutings(stations, station, Along(trains[|trains| - 1], d), b))
  {
    var init := trains[..|trains| - 1];
    if ReachOnTrains(stations, station, init, d, b) {
      var i :| 0 <= i < |init| && Considered(init[i].key, station.id) && ReachOnRoutings(stations, station, Along(init[i], d), b);
      assert trains[i] == init[i];
    }
    if ReachOnTrains(stations, station, trains, d, b) {
      var i :| 0 <= i < |trains| && Considered(trains[i].key, station.id) && ReachOnRoutings(stations, station, Along(trains[i], d), b);
      if i < |init| {
        assert init[i] == trains[i];
      }
    }
  }

  lemma LabelOnTrainsSnoc(stations: map<StationId, Station>, station: Station, trains: seq<Train>, d: Direction)
    requires trains != []
    ensures LabelOnTrains(stations, station, trains, d) <==>
      || LabelOnTrains(stations, station, trains[..|trains| - 1], d)
      || (Considered(trains[|trains| - 1].key, station.id)
          && LabelOnRoutings(stations, station, Along(trains[|trains| - 1], d), d))
  {
    var init := trains[..|trains| - 1];
    if LabelOnTrains(stations, station, init, d) {
      var i :| 0 <= i < |init| && Considered(init[i].key, station.id) && LabelOnRoutings(stations, station, Along(init[i], d), d);
      assert trains[i] == init[i];
    }
    if LabelOnTrains(stations, station, trains, d) {
      var i :| 0 <= i < |trains| && Considered(trains[i].key, station.id) && LabelOnRoutings(stations, station, Along(trains[i], d), d);
      if i < |init| {
        assert init[i] == trains[i];
      }
    }
  }

  lemma {:induction false} WalkTrainsBoroughs(w: Walk, stations: map<StationId, Station>, station: Station,
                                              trains: seq<Train>, d: Direction, b: string)
    requires TrainsKnown(stations, trains, station.id, d)
    ensures NoDup(w.boroughs) ==> NoDup(WalkTrains(w, stations, station, trains, d).boroughs)
    ensures b in WalkTrains(w, stations, station, trains, d).boroughs <==>
      b in w.boroughs || ReachOnTrains(stations, station, trains, d, b)
  {
    if trains != [] {
      var init := trains[..|trains| - 1];
      var t := trains[|trains| - 1];
      assert TrainsKnown(stations, init, station.id, d) by {
        assert forall i :: 0 <= i < |init| ==> init[i] == trains[i];
      }
      WalkTrainsBoroughs(w, stations, station, init, d, b);
      ReachOnTrainsSnoc(stations, station, trains, d, b);
      if Considered(t.key, station.id) {
        WalkRoutingsBoroughs(WalkTrains(w, stations, station, init, d), stations, station, Along(t, d), d, true, b);
      }
    }
  }

  lemma {:induction false} WalkTrainsLabel(w: Walk, stations: map<StationId, Station>, station: Station,
                                           trains: seq<Train>, d: Direction)
    requires TrainsKnown(stations, trains, station.id, d)
    ensures WalkTrains(w, stations, station, trains, d).labelled <==>
      w.labelled || (MayLabel(station) && LabelOnTrains(stations, station, trains, d))
  {
    if trains != [] {
      var init := trains[..|trains| - 1];
      var t := trains[|trains| - 1];
      assert TrainsKnown(stations, init, station.id, d) by {
        assert forall i :: 0 <= i < |init| ==> init[i] == trains[i];
      }
      WalkTrainsLabel(w, stations, station, init, d);
      LabelOnTrainsSnoc(stations, station, trains, d);
      if Considered(t.key, station.id) {
        WalkRoutingsLabel(WalkTrains(w, stations, station, init, d), stations, station, Along(t, d), d, true);
      }
    }
  }

  /** The boroughs listed are distinct, and are exactly the other boroughs
      of the stops after the station on the routings walked: the considered
      trains' routings of the platform's direction and, at a shuffled
      station, the M train's routings of the opposite direction. */
  lemma DirectionBoroughs(stations: map<StationId, Station>, trains: seq<Train>, station: Station, d: Direction, b: string)
    requires Walkable(stations, trains, station, d)
    ensures NoDup(DirectionWalk(stations, trains, station, d).boroughs)
    ensures b in DirectionWalk(stations, trains, station, d).boroughs <==>
      || ReachOnTrains(stations, station, trains, d, b)
      || (Shuffled(station.id) && ReachOnRoutings(stations, station, Along(Lookup(trains, "M").value, Opposite(d)), b))
  {
    WalkTrainsBoroughs(Walk([], false), stations, station, trains, d, b);
    if Shuffled(station.id) {
      var w := WalkTrains(Walk([], false), stations, station, trains, d);
      WalkRoutingsBoroughs(w, stations, station, Along(Lookup(trains, "M").value, Opposite(d)), d, false, b);
    }
  }

  /** The Uptown/Downtown label is set exactly when the station is in
      Manhattan or the Bronx, is not exempt, and a considered train's
      routing reaches a stop of the same borough further in the platform's
      direction; the M train's second pass never sets it. */
  lemma DirectionLabel(stations: map<StationId, Station>, trains: seq<Train>, station: Station, d: Direction)
    requires Walkable(stations, trains, station, d)
    ensures DirectionWalk(stations, trains, station, d).labelled <==>
      MayLabel(station) && LabelOnTrains(stations, station, trains, d)
  {
    WalkTrainsLabel(Walk([], false), stations, station, trains, d);
    if Shuffled(station.id) {
      var w := WalkTrains(Walk([], false), stations, station, trains, d);
      WalkRoutingsLabel(w, stations, station, Along(Lookup(trains, "M").value, Opposite(d)), d, false);
    }
  }

  /** The text is absent exactly for the southbound exempt station and when
      nothing was found; otherwise it ends with the terminator and starts
      with the label when there is one. */
  lemma DirectionTextShape(stations: map<StationId, Station>, trains: seq<Train>, station: Station, d: Direction)
    requires (d == South && station.id in ExemptFromSouth) || Walkable(stations, trains, station, d)
    ensures d == South && station.id in ExemptFromSouth ==> DirectionText(stations, trains, station, d).None?
    ensures !(d == South && station.id in ExemptFromSouth) ==>
      var w := DirectionWalk(stations, trains, station, d);
      var r := DirectionText(stations, trains, station, d);
      && (r.Some? <==> w.labelled || w.boroughs != [])
      && (r.Some? ==> EndsWith(r.value, Terminator))
      && (r.Some? && w.labelled ==> LabelWord(d) <= r.value)
  {
    if !(d == South && station.id in ExemptFromSouth) {
      var w := DirectionWalk(stations, trains, station, d);
      var items := Items(w, d);
      if items != [] {
        ListTextStarts(items);
      }
    }
  }

  /** The list text starts with its first item. */
  lemma {:induction false} ListTextStarts(items: seq<string>)
    requires items != []
    ensures |items[0]| <= |ListText(items)| && ListText(items)[..|items[0]|] == items[0]
  {
    if |items| >= 2 {
      JoinStarts(items[..|items| - 1], ", ");
    }
  }

  /** A join of non-empty parts starts with the first part. */
  lemma {:induction false} JoinStarts(parts: seq<string>, sep: string)
    requires parts != []
    ensures |parts[0]| <= |Join(parts, sep)| && Join(parts, sep)[..|parts[0]|] == parts[0]
  {
  }
}
