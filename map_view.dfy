/** The state `renderLines` rebuilds (src/app/mapbox.jsx:36-53, 91-102,
    134-300): every station's derived route sets and the line layer drawn
    for each route, guarded by the routing feed's checksum. */
module MapView {
  import opened Wrappers
  import opened Seqs
  import opened Topology
  import opened RouteGeometry
  import opened Offsets

  /** A station's derived sets: routes leaving it northbound, southbound,
      routes whose polyline crosses its location, and routes stopping there. */
  datatype StopSets = StopSets(northStops: set<RouteKey>, southStops: set<RouteKey>, passed: set<RouteKey>, stops: set<RouteKey>)

  const Cleared := StopSets({}, {}, {}, {})

  /** A drawn line layer: the route's polylines and its offset index. */
  datatype Layer = Layer(geometry: seq<seq<Coord>>, offset: nat)

  /** Every location names a station standing at it. */
  ghost predicate LocationsValid(topo: Topo, locations: map<Coord, StationId>)
  {
    forall c :: c in locations ==> locations[c] in topo && topo[locations[c]].coord == c
  }

  /** The location map after the stations of `order` have been recorded in
      turn (line 47): a later station at the same coordinate overwrites an
      earlier one. */
  function Recorded(topo: Topo, order: seq<StationId>): map<Coord, StationId>
    requires forall j :: 0 <= j < |order| ==> order[j] in topo
  {
    if order == [] then map[]
    else
      var last := order[|order| - 1];
      Recorded(topo, order[..|order| - 1])[topo[last].coord := last]
  }

  /** A coordinate is recorded exactly when some station of `order` stands
      there. */
  lemma {:induction false} RecordedCoords(topo: Topo, order: seq<StationId>, c: Coord)
    requires forall j :: 0 <= j < |order| ==> order[j] in topo
    ensures c in Recorded(topo, order) <==> exists j :: 0 <= j < |order| && topo[order[j]].coord == c
  {
    if order != [] {
      var n := |order| - 1;
      var init := order[..n];
      RecordedCoords(topo, init, c);
      if exists j :: 0 <= j < |order| && topo[order[j]].coord == c {
        var j :| 0 <= j < |order| && topo[order[j]].coord == c;
        if j < n {
          assert topo[init[j]].coord == c;
        }
      }
    }
  }

  /** A recorded coordinate belongs to the last station of `order` standing
      there: a later station at the same coordinate overwrites an earlier
      one. */
  lemma {:induction false} RecordedLastWins(topo: Topo, order: seq<StationId>, c: Coord)
    requires forall j :: 0 <= j < |order| ==> order[j] in topo
    requires c in Recorded(topo, order)
    ensures exists j :: 0 <= j < |order| && order[j] == Recorded(topo, order)[c] && LastAt(topo, order, j, c)
  {
    var n := |order| - 1;
    if topo[order[n]].coord != c {
      var init := order[..n];
      RecordedLastWins(topo, init, c);
      var j :| 0 <= j < n && init[j] == Recorded(topo, init)[c] && LastAt(topo, init, j, c);
      assert order[j] == Recorded(topo, order)[c];
      assert LastAt(topo, order, j, c);
    } else {
      assert LastAt(topo, order, n, c);
    }
  }

  /** Station j of `order` stands at c, and no later one does. */
  predicate LastAt(topo: Topo, order: seq<StationId>, j: int, c: Coord)
    requires forall j :: 0 <= j < |order| ==> order[j] in topo
  {
    0 <= j < |order| && topo[order[j]].coord == c && forall k :: j < k < |order| ==> topo[order[k]].coord != c
  }

  /** Every kept routing names known stations only. */
  lemma {:induction false} KeptKnown(topo: Topo, raw: seq<seq<string>>, d: Direction)
    ensures AllKnownRoutings(topo, Kept(raw, d, topo.Keys))
    ensures Covered(Kept(raw, d, topo.Keys)) <= topo.Keys
  {
    KeptMembers(raw, d, topo.Keys);
    var kept := Kept(raw, d, topo.Keys);
    forall i | 0 <= i < |kept| ensures AllKnown(topo, kept[i]) {
      var x := kept[i];
      assert x in kept;
      var j :| 0 <= j < |raw| && Accepted(raw[j], Marker(d)) && x == Orient(raw[j], d, topo.Keys);
      NormalizeKeepsKnownPrefixes(raw[j], topo.Keys, Marker(d));
    }
  }

  lemma RoutingsKnown(topo: Topo, route: Route)
    ensures AllKnownRoutings(topo, Routings(route, topo.Keys))
  {
    KeptKnown(topo, route.north, North);
    KeptKnown(topo, route.south, South);
    var all := Kept(route.north, North, topo.Keys) + Kept(route.south, South, topo.Keys);
    var r := Routings(route, topo.Keys);
    forall i | 0 <= i < |r| ensures AllKnown(topo, r[i]) {
      assert r[i] in all;
    }
  }

  /** The stations a route stops at northbound / southbound: those of its
      kept routings of that direction. */
  function NorthCovered(topo: Topo, route: Route): set<StationId>
  {
    Covered(Kept(route.north, North, topo.Keys))
  }

  function SouthCovered(topo: Topo, route: Route): set<StationId>
  {
    Covered(Kept(route.south, South, topo.Keys))
  }

  /** `routeStops[key]` (lines 159, 170, 188). */
  function RouteStops(topo: Topo, route: Route): set<StationId>
  {
    NorthCovered(topo, route) + SouthCovered(topo, route)
  }

  /** The polylines drawn for a route. */
  function RouteGeometryOf(topo: Topo, route: Route): seq<seq<Coord>>
  {
    RoutingsKnown(topo, route);
    Geometry(topo, Routings(route, topo.Keys))
  }

  /** What processing one route contributes: the stations it stops at
      northbound and southbound, and those its polylines cross. */
  datatype Marks = Marks(north: set<StationId>, south: set<StationId>, passed: set<StationId>)

  function RouteMarks(topo: Topo, locations: map<Coord, StationId>, route: Route): Marks
  {
    Marks(NorthCovered(topo, route), SouthCovered(topo, route), PassedStations(locations, RouteGeometryOf(topo, route)))
  }

  /** The sets of station s once the routes of `marks` have been processed
      after a reset. */
  function SetsAt(marks: map<RouteKey, Marks>, s: StationId): StopSets
  {
    StopSets(
      set k | k in marks && s in marks[k].north,
      set k | k in marks && s in marks[k].south,
      set k | k in marks && s in marks[k].passed,
      set k | k in marks && (s in marks[k].north || s in marks[k].south))
  }

  function MarksOf(topo: Topo, locations: map<Coord, StationId>, routes: map<RouteKey, Route>): map<RouteKey, Marks>
  {
    map k | k in routes :: RouteMarks(topo, locations, routes[k])
  }

  /** Every station's sets once the routes of `marks` have been processed. */
  function StationsFor(topo: Topo, marks: map<RouteKey, Marks>): map<StationId, StopSets>
  {
    map s | s in topo :: SetsAt(marks, s)
  }

  /** Every station's sets after a rebuild with `routes`. */
  function Rebuilt(topo: Topo, locations: map<Coord, StationId>, routes: map<RouteKey, Route>): map<StationId, StopSets>
  {
    StationsFor(topo, MarksOf(topo, locations, routes))
  }

  /** The routes serving each station, as `stations[stop].stops`. */
  function ServedBy(stations: map<StationId, StopSets>): map<StationId, set<RouteKey>>
  {
    map s | s in stations :: stations[s].stops
  }

  function RouteStopsMap(topo: Topo, routes: map<RouteKey, Route>): map<RouteKey, set<StationId>>
  {
    map k | k in routes :: RouteStops(topo, routes[k])
  }

  /** The offsets the allocation gives after a rebuild with `routes`. */
  ghost function OffsetsFor(topo: Topo, locations: map<Coord, StationId>, routes: map<RouteKey, Route>): map<RouteKey, nat>
  {
    AssignAll(TrainIds, RouteStopsMap(topo, routes), ServedBy(Rebuilt(topo, locations, routes)))
  }

  /** The layers drawn by a rebuild: one per route of `trainIds` in the feed. */
  ghost function Drawn(topo: Topo, locations: map<Coord, StationId>, routes: map<RouteKey, Route>): map<RouteKey, Layer>
  {
    LayersFor(OffsetsFor(topo, locations, routes), GeometriesOf(topo, routes))
  }

  function GeometriesOf(topo: Topo, routes: map<RouteKey, Route>): map<RouteKey, seq<seq<Coord>>>
  {
    map k | k in routes :: RouteGeometryOf(topo, routes[k])
  }

  /** A station's sets after `key` has added the marks `m`. */
  function AddMarks(ss: StopSets, key: RouteKey, s: StationId, m: Marks): StopSets
  {
    StopSets(
      if s in m.north then ss.northStops + {key} else ss.northStops,
      if s in m.south then ss.southStops + {key} else ss.southStops,
      if s in m.passed then ss.passed + {key} else ss.passed,
      if s in m.north || s in m.south then ss.stops + {key} else ss.stops)
  }

  function ApplyMarks(stations: map<StationId, StopSets>, key: RouteKey, m: Marks): map<StationId, StopSets>
  {
    map s | s in stations :: AddMarks(stations[s], key, s, m)
  }

  /** Adds `key` to the north or south set and to `stops` of one station. */
  function Stop(ss: StopSets, key: RouteKey, d: Direction): StopSets
  {
    if d == North then ss.(northStops := ss.northStops + {key}, stops := ss.stops + {key})
    else ss.(southStops := ss.southStops + {key}, stops := ss.stops + {key})
  }

  /** Marks every station of `marked` as stopped at by `key` in direction d. */
  function MarkDir(stations: map<StationId, StopSets>, key: RouteKey, marked: set<StationId>, d: Direction): map<StationId, StopSets>
  {
    map s | s in stations :: if s in marked then Stop(stations[s], key, d) else stations[s]
  }

  /** Adds `key` to the `passed` set of each station in `marked`. */
  function MarkPassed(stations: map<StationId, StopSets>, key: RouteKey, marked: set<StationId>): map<StationId, StopSets>
  {
    map s | s in stations :: if s in marked then stations[s].(passed := stations[s].passed + {key}) else stations[s]
  }

  class LineRenderer {
    /** `stationData`: the static topology. */
    const topo: Topo
    /** `stationLocations`: the station standing at each location. */
    const locations: map<Coord, StationId>
    /** `this.state.checksum` of the last routing feed applied. */
    var checksum: Option<string>
    /** The derived sets of each station of `stations`. */
    var stations: map<StationId, StopSets>
    /** The line layers on the map, by route. */
    var layers: map<RouteKey, Layer>

    ghost predicate Valid()
      reads this
    {
      stations.Keys == topo.Keys && LocationsValid(topo, locations)
    }

    /** Lines 36-48: every station starts with empty sets, and each
        station's location is recorded (for stations sharing a location, the
        last in `order` wins). `order` is the key order of the station data. */
    constructor (topo: Topo, order: seq<StationId>)
      requires forall s :: s in topo <==> s in order
      ensures Valid() && this.topo == topo
      ensures checksum == None && layers == map[]
      ensures stations == map s | s in topo :: Cleared
      ensures forall s :: s in topo ==> topo[s].coord in locations
      ensures locations == Recorded(topo, order)
    {
      var locs: map<Coord, StationId> := map[];
      var i := 0;
      while i < |order|
        invariant i <= |order|
        invariant LocationsValid(topo, locs)
        invariant forall j :: 0 <= j < i ==> topo[order[j]].coord in locs
        invariant locs == Recorded(topo, order[..i])
      {
        assert order[i] in topo;
        assert order[..i + 1][..i] == order[..i];
        locs := locs[topo[order[i]].coord := order[i]];
        i := i + 1;
      }
      assert order[..i] == order;
      this.topo := topo;
      locations := locs;
      checksum := None;
      stations := map s | s in topo :: Cleared;
      layers := map[];
      new;
      forall s | s in topo ensures topo[s].coord in locations {
        var j :| 0 <= j < |order| && order[j] == s;
      }
    }

    /** Lines 94-96: a fetched routing feed is rendered, then its checksum
        is stored. */
    method FetchRoutes(routes: map<RouteKey, Route>, newChecksum: string)
      requires Valid()
      modifies this
      ensures Valid() && checksum == Some(newChecksum)
      ensures old(checksum) == Some(newChecksum) ==> stations == old(stations) && layers == old(layers)
      ensures old(checksum) != Some(newChecksum) ==>
        stations == Rebuilt(topo, locations, routes) && layers == old(layers) + Drawn(topo, locations, routes)
    {
      RenderLines(routes, newChecksum);
      checksum := Some(newChecksum);
    }

    /** `renderLines(routes, newChecksum)`. */
    method RenderLines(routes: map<RouteKey, Route>, newChecksum: string)
      requires Valid()
      modifies this
      ensures Valid() && checksum == old(checksum)
      ensures old(checksum) == Some(newChecksum) ==> stations == old(stations) && layers == old(layers)
      ensures old(checksum) != Some(newChecksum) ==>
        stations == Rebuilt(topo, locations, routes) && layers == old(layers) + Drawn(topo, locations, routes)
    {
      if checksum == Some(newChecksum) {
        return;
      }
      var routeStops, geometries := RebuildStations(routes);
      RouteStopsKnown(topo, routes);
      DrawLayers(routeStops, geometries);
    }

    /** Lines 143-232: every station's sets are reset, then each route
        of the feed adds its marks; returns each route's stops and polylines. */
    method RebuildStations(routes: map<RouteKey, Route>)
      returns (routeStops: map<RouteKey, set<StationId>>, geometries: map<RouteKey, seq<seq<Coord>>>)
      requires Valid()
      modifies this`stations
      ensures Valid() && stations == Rebuilt(topo, locations, routes)
      ensures routeStops == RouteStopsMap(topo, routes) && geometries == GeometriesOf(topo, routes)
    {
      stations := map s | s in topo :: Cleared;
      routeStops, geometries := AddRoutes(routes);
    }

    /** Lines 153-232: each route of the feed adds its marks to the reset
        stations; returns each route's stops and polylines. */
    method AddRoutes(routes: map<RouteKey, Route>)
      returns (routeStops: map<RouteKey, set<StationId>>, geometries: map<RouteKey, seq<seq<Coord>>>)
      requires Valid() && stations == map s | s in topo :: Cleared
      modifies this`stations
      ensures Valid() && stations == Rebuilt(topo, locations, routes)
      ensures routeStops == RouteStopsMap(topo, routes) && geometries == GeometriesOf(topo, routes)
    {
      routeStops := map[];
      geometries := map[];
      var todo := routes.Keys;
      RebuiltNone(topo, locations);
      RestrictNone(routes, todo);
      while todo != {}
        invariant todo <= routes.Keys && Valid()
        invariant stations == Rebuilt(topo, locations, Restrict(routes, routes.Keys - todo))
        invariant routeStops == RouteStopsMap(topo, Restrict(routes, routes.Keys - todo))
        invariant geometries == GeometriesOf(topo, Restrict(routes, routes.Keys - todo))
        decreases todo
      {
        var key :| key in todo;
        RestrictAdd(routes, todo, key);
        routeStops, geometries := AddNext(Restrict(routes, routes.Keys - todo), key, routes[key], routeStops, geometries);
        todo := todo - {key};
      }
      RestrictAll(routes, todo);
    }

    /** One turn of the loop: the routes of `done` have been processed and
        `key` comes next. */
    method AddNext(ghost done: map<RouteKey, Route>, key: RouteKey, route: Route,
                   routeStops: map<RouteKey, set<StationId>>, geometries: map<RouteKey, seq<seq<Coord>>>)
      returns (routeStops': map<RouteKey, set<StationId>>, geometries': map<RouteKey, seq<seq<Coord>>>)
      requires Valid() && key !in done
      requires stations == Rebuilt(topo, locations, done)
      requires routeStops == RouteStopsMap(topo, done) && geometries == GeometriesOf(topo, done)
      modifies this`stations
      ensures Valid() && stations == Rebuilt(topo, locations, done[key := route])
      ensures routeStops' == RouteStopsMap(topo, done[key := route])
      ensures geometries' == GeometriesOf(topo, done[key := route])
    {
      RebuiltStep(topo, locations, done, key, route);
      RouteStopsStep(topo, done, key, route);
      GeometriesStep(topo, done, key, route);
      var stops, geometry := AddRoute(key, route);
      routeStops' := routeStops[key := stops];
      geometries' := geometries[key := geometry];
    }

    /** The body of the `Object.keys(routes).forEach` (lines 155-232) for
        one route: marks its stations, and returns its stops and polylines. */
    method AddRoute(key: RouteKey, route: Route) returns (stops: set<StationId>, geometry: seq<seq<Coord>>)
      requires Valid()
      modifies this`stations
      ensures Valid()
      ensures stops == RouteStops(topo, route) && geometry == RouteGeometryOf(topo, route)
      ensures stations == ApplyMarks(old(stations), key, RouteMarks(topo, locations, route))
    {
      var northRoutings := MarkRoutings(key, route.north, North);
      var southRoutings := MarkRoutings(key, route.south, South);
      stops := Covered(northRoutings) + Covered(southRoutings);
      var routings := Dedup(northRoutings + southRoutings);
      assert routings == Routings(route, topo.Keys);
      RoutingsKnown(topo, route);
      geometry := RoutingsGeoJson(topo, routings);
      MarkPassedStations(key, geometry);
      MarksCompose(old(stations), key, RouteMarks(topo, locations, route));
    }

    /** The filter and map of lines 160-177 (north) or 178-195 (south). */
    method MarkRoutings(key: RouteKey, raw: seq<seq<string>>, d: Direction) returns (kept: seq<seq<StationId>>)
      requires Valid()
      modifies this`stations
      ensures Valid()
      ensures kept == Kept(raw, d, topo.Keys)
      ensures stations == MarkDir(old(stations), key, Covered(kept), d)
    {
      kept := [];
      var i := 0;
      assert stations == MarkDir(old(stations), key, {}, d);
      while i < |raw|
        invariant i <= |raw| && Valid()
        invariant kept == Kept(raw[..i], d, topo.Keys)
        invariant stations == MarkDir(old(stations), key, Covered(kept), d)
      {
        KeptStep(raw[..i + 1], d, topo.Keys);
        assert raw[..i + 1][..i] == raw[..i];
        if Accepted(raw[i], Marker(d)) {
          var normalized := MarkRouting(key, raw[i], d);
          var oriented := if d == North then normalized else Reverse(normalized);
          OrientMembers(raw[i], d, topo.Keys);
          CoveredAppend(kept, oriented);
          MarkDirTwice(old(stations), key, Covered(kept), (set s | s in normalized), d);
          kept := kept + [oriented];
        }
        i := i + 1;
      }
      assert raw[..i] == raw;
    }

    /** The inner `map` of one routing (lines 165-176): each id cut to its
        prefix; a known station is marked, an unknown one dropped. */
    method MarkRouting(key: RouteKey, routing: seq<string>, d: Direction) returns (normalized: seq<StationId>)
      requires Valid()
      modifies this`stations
      ensures Valid()
      ensures normalized == Normalize(routing, topo.Keys)
      ensures stations == MarkDir(old(stations), key, (set s | s in normalized), d)
    {
      normalized := [];
      var j := 0;
      assert stations == MarkDir(old(stations), key, {}, d);
      while j < |routing|
        invariant j <= |routing| && Valid()
        invariant normalized == Normalize(routing[..j], topo.Keys)
        invariant stations == MarkDir(old(stations), key, (set s | s in normalized), d)
      {
        assert routing[..j + 1][..j] == routing[..j];
        var prefix := Prefix(routing[j]);
        if prefix in stations {
          MarkDirTwice(old(stations), key, set s | s in normalized, {prefix}, d);
          MarkDirOne(stations, key, prefix, d);
          stations := stations[prefix := Stop(stations[prefix], key, d)];
          assert (set s | s in normalized + [prefix]) == (set s | s in normalized) + {prefix};
          normalized := normalized + [prefix];
        }
        j := j + 1;
      }
      assert routing[..j] == routing;
    }

    /** Lines 206-213: every station standing at a coordinate of a polyline
        gets the route in its `passed` set. */
    method MarkPassedStations(key: RouteKey, geometry: seq<seq<Coord>>)
      requires Valid()
      modifies this`stations
      ensures Valid()
      ensures stations == MarkPassed(old(stations), key, PassedStations(locations, geometry))
    {
      var i := 0;
      assert stations == MarkPassed(old(stations), key, PassedStations(locations, geometry[..0]));
      while i < |geometry|
        invariant i <= |geometry| && Valid()
        invariant stations == MarkPassed(old(stations), key, PassedStations(locations, geometry[..i]))
      {
        MarkPassedPath(key, geometry[i]);
        MarkPassedTwice(old(stations), key, PassedStations(locations, geometry[..i]), StationsAt(locations, geometry[i]));
        PassedAppend(locations, geometry[..i], geometry[i]);
        assert geometry[..i + 1] == geometry[..i] + [geometry[i]];
        i := i + 1;
      }
      assert geometry[..i] == geometry;
    }

    /** The inner loop of lines 206-213, over the coordinates of one polyline. */
    method MarkPassedPath(key: RouteKey, path: seq<Coord>)
      requires Valid()
      modifies this`stations
      ensures Valid()
      ensures stations == MarkPassed(old(stations), key, StationsAt(locations, path))
    {
      var j := 0;
      assert stations == MarkPassed(old(stations), key, StationsAt(locations, path[..0]));
      while j < |path|
        invariant j <= |path| && Valid()
        invariant stations == MarkPassed(old(stations), key, StationsAt(locations, path[..j]))
      {
        var coord := path[j];
        assert path[..j + 1] == path[..j] + [coord];
        if coord in locations {
          var s := locations[coord];
          assert StationsAt(locations, path[..j + 1]) == StationsAt(locations, path[..j]) + {s};
          MarkPassedTwice(old(stations), key, StationsAt(locations, path[..j]), {s});
          MarkPassedOne(stations, key, s);
          stations := stations[s := stations[s].(passed := stations[s].passed + {key})];
        } else {
          assert StationsAt(locations, path[..j + 1]) == StationsAt(locations, path[..j]);
        }
        j := j + 1;
      }
      assert path[..j] == path;
    }

    /** The `trainIds.forEach` of lines 239-299: the offset search and the
        (re)added layer of every route of the fixed order that was drawn. */
    method DrawLayers(routeStops: map<RouteKey, set<StationId>>, geometries: map<RouteKey, seq<seq<Coord>>>)
      requires routeStops.Keys == geometries.Keys
      requires forall t :: t in routeStops ==> routeStops[t] <= stations.Keys
      modifies this`layers
      ensures layers == old(layers) + LayersFor(AssignAll(TrainIds, routeStops, ServedBy(stations)), geometries)
    {
      DrawInOrder(TrainIds, routeStops, geometries);
    }

    /** The loop of DrawLayers over any fixed order of routes. */
    method DrawInOrder(order: seq<RouteKey>, routeStops: map<RouteKey, set<StationId>>, geometries: map<RouteKey, seq<seq<Coord>>>)
      requires routeStops.Keys == geometries.Keys
      requires forall t :: t in routeStops ==> routeStops[t] <= stations.Keys
      modifies this`layers
      ensures layers == old(layers) + LayersFor(AssignAll(order, routeStops, ServedBy(stations)), geometries)
    {
      var servedBy := ServedBy(stations);
      var offsets: map<RouteKey, nat> := map[];
      var i := 0;
      while i < |order|
        invariant i <= |order|
        invariant offsets == AssignAll(order[..i], routeStops, servedBy)
        invariant layers == old(layers) + LayersFor(offsets, geometries)
      {
        var train := order[i];
        assert order[..i + 1] == order[..i] + [train];
        if train in geometries {
          var conflicts := CollectConflicts(routeStops[train], servedBy, offsets);
          var offset := SmallestFree(conflicts);
          SmallestFreeUnique(conflicts, offset, Mex(conflicts));
          LayersForStep(old(layers), offsets, geometries, train, offset);
          offsets := offsets[train := offset];
          layers := layers[train := Layer(geometries[train], offset)];
        }
        i := i + 1;
      }
      assert order[..i] == order;
    }
  }

  /** The layer of each route that has an offset. */
  function LayersFor(offsets: map<RouteKey, nat>, geometries: map<RouteKey, seq<seq<Coord>>>): map<RouteKey, Layer>
  {
    map t | t in offsets && t in geometries :: Layer(geometries[t], offsets[t])
  }

  lemma LayersForStep(layers: map<RouteKey, Layer>, offsets: map<RouteKey, nat>,
                      geometries: map<RouteKey, seq<seq<Coord>>>, t: RouteKey, offset: nat)
    requires t in geometries
    ensures (layers + LayersFor(offsets, geometries))[t := Layer(geometries[t], offset)]
         == layers + LayersFor(offsets[t := offset], geometries)
  {
  }

  lemma CoveredAppend<T(!new)>(ss: seq<seq<T>>, x: seq<T>)
    ensures Covered(ss + [x]) == Covered(ss) + set y | y in x
  {
    var all := ss + [x];
    forall y | y in Covered(all) ensures y in Covered(ss) || y in x {
      var i :| 0 <= i < |all| && y in all[i];
      if i < |ss| { assert all[i] == ss[i]; }
    }
    forall y | y in Covered(ss) ensures y in Covered(all) {
      var i :| 0 <= i < |ss| && y in ss[i];
      assert all[i] == ss[i];
    }
    forall y | y in x ensures y in Covered(all) {
      assert all[|ss|] == x;
    }
  }

  lemma KeptStep(raw: seq<seq<string>>, d: Direction, known: set<StationId>)
    requires raw != []
    ensures Kept(raw, d, known) == Kept(raw[..|raw| - 1], d, known)
      + (if Accepted(raw[|raw| - 1], Marker(d)) then [Orient(raw[|raw| - 1], d, known)] else [])
  {
  }

  lemma OrientMembers(routing: seq<string>, d: Direction, known: set<StationId>)
    ensures (set x | x in Orient(routing, d, known)) == (set x | x in Normalize(routing, known))
  {
    var n := Normalize(routing, known);
    var o := Orient(routing, d, known);
    forall x | x in n ensures x in o {
      var i :| 0 <= i < |n| && n[i] == x;
      if d == South { assert o[|n| - 1 - i] == x; }
    }
  }

  /** The stations located at the coordinates of one polyline. */
  function StationsAt(locations: map<Coord, StationId>, path: seq<Coord>): set<StationId>
  {
    set c | c in path && c in locations :: locations[c]
  }

  lemma PassedAppend(locations: map<Coord, StationId>, paths: seq<seq<Coord>>, path: seq<Coord>)
    ensures PassedStations(locations, paths + [path]) == PassedStations(locations, paths) + StationsAt(locations, path)
  {
    CoveredAppend(paths, path);
  }

  lemma MarkDirTwice(stations: map<StationId, StopSets>, key: RouteKey, a: set<StationId>, b: set<StationId>, d: Direction)
    ensures MarkDir(MarkDir(stations, key, a, d), key, b, d) == MarkDir(stations, key, a + b, d)
  {
  }

  lemma MarkDirOne(stations: map<StationId, StopSets>, key: RouteKey, s: StationId, d: Direction)
    requires s in stations
    ensures MarkDir(stations, key, {s}, d) == stations[s := Stop(stations[s], key, d)]
  {
  }

  lemma MarkPassedOne(stations: map<StationId, StopSets>, key: RouteKey, s: StationId)
    requires s in stations
    ensures MarkPassed(stations, key, {s}) == stations[s := stations[s].(passed := stations[s].passed + {key})]
  {
  }

  lemma MarkPassedTwice(stations: map<StationId, StopSets>, key: RouteKey, a: set<StationId>, b: set<StationId>)
    ensures MarkPassed(MarkPassed(stations, key, a), key, b) == MarkPassed(stations, key, a + b)
  {
  }

  lemma RouteStopsKnown(topo: Topo, routes: map<RouteKey, Route>)
    ensures forall k :: k in routes ==> RouteStops(topo, routes[k]) <= topo.Keys
  {
    forall k | k in routes ensures RouteStops(topo, routes[k]) <= topo.Keys {
      KeptKnown(topo, routes[k].north, North);
      KeptKnown(topo, routes[k].south, South);
    }
  }

  /** One more route processed after a reset adds its marks. */
  /** The routes of `routes` whose keys lie outside `todo`: those already processed. */
  function Restrict(routes: map<RouteKey, Route>, keys: set<RouteKey>): (r: map<RouteKey, Route>)
    ensures r.Keys == routes.Keys * keys
    ensures forall k :: k in r ==> r[k] == routes[k]
  {
    map k | k in routes && k in keys :: routes[k]
  }

  lemma RestrictNone(routes: map<RouteKey, Route>, todo: set<RouteKey>)
    requires todo == routes.Keys
    ensures Restrict(routes, routes.Keys - todo) == map[]
  {
  }

  lemma RestrictAdd(routes: map<RouteKey, Route>, todo: set<RouteKey>, key: RouteKey)
    requires todo <= routes.Keys && key in todo
    ensures Restrict(routes, routes.Keys - (todo - {key})) == Restrict(routes, routes.Keys - todo)[key := routes[key]]
  {
  }

  lemma RestrictAll(routes: map<RouteKey, Route>, todo: set<RouteKey>)
    requires todo == {}
    ensures Restrict(routes, routes.Keys - todo) == routes
  {
  }

  lemma RebuiltStep(topo: Topo, locations: map<Coord, StationId>, done: map<RouteKey, Route>, key: RouteKey, route: Route)
    requires key !in done
    ensures Rebuilt(topo, locations, done[key := route])
         == ApplyMarks(Rebuilt(topo, locations, done), key, RouteMarks(topo, locations, route))
  {
    MarksOfStep(topo, locations, done, key, route);
    SetsAtStep(topo, MarksOf(topo, locations, done), key, RouteMarks(topo, locations, route));
  }

  lemma RouteStopsStep(topo: Topo, done: map<RouteKey, Route>, key: RouteKey, route: Route)
    ensures RouteStopsMap(topo, done[key := route]) == RouteStopsMap(topo, done)[key := RouteStops(topo, route)]
  {
  }

  lemma GeometriesStep(topo: Topo, done: map<RouteKey, Route>, key: RouteKey, route: Route)
    ensures GeometriesOf(topo, done[key := route]) == GeometriesOf(topo, done)[key := RouteGeometryOf(topo, route)]
  {
  }

  lemma MarksOfStep(topo: Topo, locations: map<Coord, StationId>, done: map<RouteKey, Route>, key: RouteKey, route: Route)
    ensures MarksOf(topo, locations, done[key := route])
         == MarksOf(topo, locations, done)[key := RouteMarks(topo, locations, route)]
  {
  }

  lemma RebuiltNone(topo: Topo, locations: map<Coord, StationId>)
    ensures Rebuilt(topo, locations, map[]) == map s | s in topo :: Cleared
    ensures RouteStopsMap(topo, map[]) == map[] && GeometriesOf(topo, map[]) == map[]
  {
    assert MarksOf(topo, locations, map[]) == map[];
    SetsAtNone(topo);
  }

  /** With no route processed yet, every station has empty sets. */
  lemma SetsAtNone(topo: Topo)
    ensures StationsFor(topo, map[]) == map s | s in topo :: Cleared
  {
    forall s | s in topo ensures SetsAt(map[], s) == Cleared {
    }
  }

  /** Processing one more route adds exactly its marks. */
  lemma SetsAtStep(topo: Topo, marks: map<RouteKey, Marks>, key: RouteKey, m: Marks)
    requires key !in marks
    ensures StationsFor(topo, marks[key := m])
         == ApplyMarks(StationsFor(topo, marks), key, m)
  {
    forall s | s in topo ensures SetsAt(marks[key := m], s) == AddMarks(SetsAt(marks, s), key, s, m) {
      SetsAtAdd(marks, key, m, s);
    }
  }

  lemma SetsAtAdd(marks: map<RouteKey, Marks>, key: RouteKey, m: Marks, s: StationId)
    requires key !in marks
    ensures SetsAt(marks[key := m], s) == AddMarks(SetsAt(marks, s), key, s, m)
  {
    var after, before := SetsAt(marks[key := m], s), SetsAt(marks, s);
    assert after.northStops == before.northStops + (if s in m.north then {key} else {});
    assert after.southStops == before.southStops + (if s in m.south then {key} else {});
    assert after.passed == before.passed + (if s in m.passed then {key} else {});
    assert after.stops == before.stops + (if s in m.north || s in m.south then {key} else {});
  }

  /** Marking north stops, then south stops, then crossed stations adds a
      route's marks. */
  lemma MarksCompose(stations: map<StationId, StopSets>, key: RouteKey, m: Marks)
    ensures MarkPassed(MarkDir(MarkDir(stations, key, m.north, North), key, m.south, South), key, m.passed)
         == ApplyMarks(stations, key, m)
  {
  }
}

/** What a rebuild guarantees about the station sets, `routeStops` and the
    offsets of the drawn layers. */
module RebuildFacts {
  import opened Seqs
  import opened Topology
  import opened RouteGeometry
  import opened Offsets
  import opened MapView

  /** A rebuild covers exactly the stations of the station data. */
  lemma RebuiltStations(topo: Topo, locations: map<Coord, StationId>, routes: map<RouteKey, Route>)
    ensures Rebuilt(topo, locations, routes).Keys == topo.Keys
  {
  }

  /** After a rebuild every station's `stops` is the union of its north and
      south sets, and all four sets hold only routes of the current feed:
      nothing survives from an earlier feed. */
  lemma RebuiltSetsFromFeed(topo: Topo, locations: map<Coord, StationId>, routes: map<RouteKey, Route>, s: StationId)
    requires s in topo
    ensures var ss := Rebuilt(topo, locations, routes)[s];
      && ss.stops == ss.northStops + ss.southStops
      && ss.northStops <= routes.Keys && ss.southStops <= routes.Keys && ss.passed <= routes.Keys
  {
  }

  /** A route is in a station's `northStops` (`southStops`) exactly when one
      of its kept north (south) routings stops there. */
  lemma RebuiltNorthStops(topo: Topo, locations: map<Coord, StationId>, routes: map<RouteKey, Route>, s: StationId, k: RouteKey)
    requires s in topo
    ensures k in Rebuilt(topo, locations, routes)[s].northStops <==>
      k in routes && exists r :: r in Kept(routes[k].north, North, topo.Keys) && s in r
    ensures k in Rebuilt(topo, locations, routes)[s].southStops <==>
      k in routes && exists r :: r in Kept(routes[k].south, South, topo.Keys) && s in r
  {
    if k in routes {
      var n := Kept(routes[k].north, North, topo.Keys);
      var so := Kept(routes[k].south, South, topo.Keys);
      if s in Covered(n) {
        var i :| 0 <= i < |n| && s in n[i];
        assert n[i] in n;
      }
      if s in Covered(so) {
        var i :| 0 <= i < |so| && s in so[i];
        assert so[i] in so;
      }
    }
  }

  /** `routeStops[key]` is exactly the set of stations whose `stops` set
      holds the route. */
  lemma RouteStopsExact(topo: Topo, locations: map<Coord, StationId>, routes: map<RouteKey, Route>, k: RouteKey)
    requires k in routes
    ensures RouteStopsMap(topo, routes)[k] == set s | s in topo && k in Rebuilt(topo, locations, routes)[s].stops
  {
    RouteStopsKnown(topo, routes);
  }

  /** A route is in a station's `passed` set exactly when one of the
      route's polylines goes through the location recorded for the station. */
  lemma RebuiltPassed(topo: Topo, locations: map<Coord, StationId>, routes: map<RouteKey, Route>, s: StationId, k: RouteKey)
    requires s in topo
    ensures k in Rebuilt(topo, locations, routes)[s].passed <==>
      k in routes && exists p, c :: p in RouteGeometryOf(topo, routes[k]) && c in p && c in locations && locations[c] == s
  {
    if k in routes {
      PassedStationsMembers(locations, RouteGeometryOf(topo, routes[k]), s);
    }
  }

  /** Every stop of a route lists the route among those serving it. */
  lemma RebuiltConsistent(topo: Topo, locations: map<Coord, StationId>, routes: map<RouteKey, Route>)
    ensures Consistent(RouteStopsMap(topo, routes), ServedBy(Rebuilt(topo, locations, routes)))
  {
    RouteStopsKnown(topo, routes);
  }

  /** Layers are drawn for exactly the routes of the feed that appear in
      `trainIds`, each with the route's polylines. */
  lemma DrawnLayers(topo: Topo, locations: map<Coord, StationId>, routes: map<RouteKey, Route>)
    ensures forall t :: t in Drawn(topo, locations, routes) <==> t in TrainIds && t in routes
    ensures forall t :: t in Drawn(topo, locations, routes) ==>
      Drawn(topo, locations, routes)[t].geometry == RouteGeometryOf(topo, routes[t])
  {
    AssignAllKeys(TrainIds, RouteStopsMap(topo, routes), ServedBy(Rebuilt(topo, locations, routes)));
  }

  /** Two drawn routes that stop at a common station are drawn with
      different offsets. */
  lemma DrawnOffsetsDistinct(topo: Topo, locations: map<Coord, StationId>, routes: map<RouteKey, Route>,
                             t1: RouteKey, t2: RouteKey, s: StationId)
    requires t1 in Drawn(topo, locations, routes) && t2 in Drawn(topo, locations, routes) && t1 != t2
    requires s in RouteStops(topo, routes[t1]) && s in RouteStops(topo, routes[t2])
    ensures Drawn(topo, locations, routes)[t1].offset != Drawn(topo, locations, routes)[t2].offset
  {
    var routeStops := RouteStopsMap(topo, routes);
    var servedBy := ServedBy(Rebuilt(topo, locations, routes));
    DrawnOffset(topo, locations, routes, t1);
    DrawnOffset(topo, locations, routes, t2);
    RebuiltConsistent(topo, locations, routes);
    TrainIdsDistinct();
    SharedStopDistinct(TrainIds, routeStops, servedBy, t1, t2, s);
  }

  lemma DrawnOffset(topo: Topo, locations: map<Coord, StationId>, routes: map<RouteKey, Route>, t: RouteKey)
    requires t in Drawn(topo, locations, routes)
    ensures t in routes
    ensures t in AssignAll(TrainIds, RouteStopsMap(topo, routes), ServedBy(Rebuilt(topo, locations, routes)))
    ensures Drawn(topo, locations, routes)[t].offset
         == AssignAll(TrainIds, RouteStopsMap(topo, routes), ServedBy(Rebuilt(topo, locations, routes)))[t]
  {
    AssignAllKeys(TrainIds, RouteStopsMap(topo, routes), ServedBy(Rebuilt(topo, locations, routes)));
  }
}
