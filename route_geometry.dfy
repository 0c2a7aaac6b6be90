/** How `renderLines` turns a route's raw routings into the polylines it draws
    (src/app/mapbox.jsx:160-213, 302-327): the direction filter, the
    normalisation of stop ids, the reversal of south routings, the
    deduplication, and the polyline of one routing. */
module RouteGeometry {
  import opened Wrappers
  import opened Seqs
  import opened Topology
  import opened PathFinder

  datatype Direction = North | South

  /** The 4th character a stop id of the feed carries for a direction. */
  function Marker(d: Direction): char
  {
    if d == North then 'N' else 'S'
  }

  /** A route of the routing feed: its raw routings per direction. */
  datatype Route = Route(north: seq<seq<string>>, south: seq<seq<string>>)

  function RawRoutings(route: Route, d: Direction): seq<seq<string>>
  {
    if d == North then route.north else route.south
  }

  /** `stopId.substr(3, 1) == marker`. */
  predicate HasMarker(id: string, marker: char)
  {
    |id| >= 4 && id[3] == marker
  }

  /** `routing.every(stopId => stopId.substr(3, 1) == marker)`. */
  predicate Accepted(routing: seq<string>, marker: char)
  {
    forall i :: 0 <= i < |routing| ==> HasMarker(routing[i], marker)
  }

  /** `stopId.substr(0, 3)`. */
  function Prefix(id: string): StationId
  {
    if |id| <= 3 then id else id[..3]
  }

  function Prefixes(routing: seq<string>): (r: seq<StationId>)
    ensures |r| == |routing| && forall j :: 0 <= j < |routing| ==> r[j] == Prefix(routing[j])
  {
    if routing == [] then [] else Prefixes(routing[..|routing| - 1]) + [Prefix(routing[|routing| - 1])]
  }

  /** The routing's ids cut to their station prefix, unknown stations
      dropped (lines 165-176). */
  function Normalize(routing: seq<string>, known: set<StationId>): seq<StationId>
  {
    if routing == [] then []
    else
      var p := Prefix(routing[|routing| - 1]);
      var init := Normalize(routing[..|routing| - 1], known);
      if p in known then init + [p] else init
  }

  /** A normalised routing keeps, in their original order, exactly the
      prefixes that name known stations; on an accepted routing every
      prefix is three characters long. */
  lemma {:induction false} NormalizeKeepsKnownPrefixes(routing: seq<string>, known: set<StationId>, marker: char)
    ensures var r := Normalize(routing, known);
      && IsSubsequence(r, Prefixes(routing))
      && (forall s :: s in r <==> s in known && s in Prefixes(routing))
      && (Accepted(routing, marker) ==> forall j :: 0 <= j < |r| ==> |r[j]| == 3)
  {
    if routing == [] {
    } else {
      var init := routing[..|routing| - 1];
      var p := Prefix(routing[|routing| - 1]);
      NormalizeKeepsKnownPrefixes(init, known, marker);
      assert Prefixes(routing) == Prefixes(init) + [p];
      assert Accepted(routing, marker) ==> Accepted(init, marker);
      var r0 := Normalize(init, known);
      if p in known {
        SubsequenceConcat(r0, Prefixes(init), [p], [p]);
      } else {
        SubsequenceConcat(r0, Prefixes(init), [], [p]);
        assert r0 + [] == r0;
      }
    }
  }

  /** One kept routing: normalised, and reversed when it runs south. */
  function Orient(routing: seq<string>, d: Direction, known: set<StationId>): seq<StationId>
  {
    if d == North then Normalize(routing, known) else Reverse(Normalize(routing, known))
  }

  /** The routings of one direction that pass the marker filter, each
      normalised and oriented (lines 160-195). */
  function Kept(routings: seq<seq<string>>, d: Direction, known: set<StationId>): seq<seq<StationId>>
  {
    if routings == [] then []
    else
      var init := Kept(routings[..|routings| - 1], d, known);
      var last := routings[|routings| - 1];
      if Accepted(last, Marker(d)) then init + [Orient(last, d, known)] else init
  }

  lemma {:induction false} KeptMembers(routings: seq<seq<string>>, d: Direction, known: set<StationId>)
    ensures forall x :: x in Kept(routings, d, known) <==>
      exists i :: 0 <= i < |routings| && Accepted(routings[i], Marker(d)) && x == Orient(routings[i], d, known)
  {
    if routings != [] {
      var init := routings[..|routings| - 1];
      KeptMembers(init, d, known);
      forall x ensures x in Kept(routings, d, known) <==>
        exists i :: 0 <= i < |routings| && Accepted(routings[i], Marker(d)) && x == Orient(routings[i], d, known)
      {
        if exists i :: 0 <= i < |routings| && Accepted(routings[i], Marker(d)) && x == Orient(routings[i], d, known) {
          var i :| 0 <= i < |routings| && Accepted(routings[i], Marker(d)) && x == Orient(routings[i], d, known);
          if i < |routings| - 1 {
            assert init[i] == routings[i];
          }
        }
        if x in Kept(init, d, known) {
          var i :| 0 <= i < |init| && Accepted(init[i], Marker(d)) && x == Orient(init[i], d, known);
          assert routings[i] == init[i];
        }
      }
    }
  }

  /** The routings drawn for a route: north then south, deduplicated by
      structural equality, first occurrence kept (lines 196-197). */
  function Routings(route: Route, known: set<StationId>): seq<seq<StationId>>
  {
    Dedup(Kept(route.north, North, known) + Kept(route.south, South, known))
  }

  /** The drawn routings are pairwise different, and they are exactly the
      accepted north routings normalised and the accepted south routings
      normalised and reversed. */
  lemma RoutingsAreKeptRoutings(route: Route, known: set<StationId>)
    ensures NoDup(Routings(route, known))
    ensures forall x :: x in Routings(route, known) <==>
      || (exists i :: 0 <= i < |route.north| && Accepted(route.north[i], 'N') && x == Normalize(route.north[i], known))
      || (exists i :: 0 <= i < |route.south| && Accepted(route.south[i], 'S') && x == Reverse(Normalize(route.south[i], known)))
  {
    KeptMembers(route.north, North, known);
    KeptMembers(route.south, South, known);
  }

  /** The coordinates `findPath` contributes between two consecutive stops
      after the first: nothing when it fails (`undefined` and `[]` alike). */
  function Inner(topo: Topo, a: StationId, b: StationId): seq<Coord>
    requires b in topo
  {
    var r := Find(topo, a, b, 0, []);
    if r.found.Some? then r.found.value else []
  }

  /** The same for the first two stops. There the start is the one-element
      array that `splice` returns (line 304). `includes` never finds a
      station id equal to that array (line 330), so the visited list
      behaves as if the push (line 333) had recorded nothing, and a `north`
      cycle may reach the first stop and expand it a second time. */
  function FirstInner(topo: Topo, a: StationId, b: StationId): seq<Coord>
    requires b in topo
  {
    var r := Expand(topo, a, b, 0, []);
    if r.found.Some? then r.found.value else []
  }

  predicate AllKnown(topo: Topo, routing: seq<StationId>)
  {
    forall j :: 0 <= j < |routing| ==> routing[j] in topo
  }

  /** The polyline of a routing (lines 302-315): for each pair of
      consecutive stops, the first stop's coordinate, the searched curve and
      the second stop's coordinate. The first pair is searched as
      `FirstInner` says, the others as `Inner` does. */
  function RoutingPath(topo: Topo, routing: seq<StationId>): seq<Coord>
    requires AllKnown(topo, routing)
  {
    if |routing| < 2 then []
    else [topo[routing[0]].coord] + FirstInner(topo, routing[0], routing[1]) + [topo[routing[1]].coord]
         + LaterLegs(topo, routing[1..])
  }

  /** The legs of `routing` when each is searched from a station id. */
  function LaterLegs(topo: Topo, routing: seq<StationId>): seq<Coord>
    requires AllKnown(topo, routing)
  {
    if |routing| < 2 then []
    else [topo[routing[0]].coord] + Inner(topo, routing[0], routing[1]) + [topo[routing[1]].coord]
         + LaterLegs(topo, routing[1..])
  }

  function Coords(topo: Topo, routing: seq<StationId>): (r: seq<Coord>)
    requires AllKnown(topo, routing)
    ensures |r| == |routing| && forall j :: 0 <= j < |routing| ==> r[j] == topo[routing[j]].coord
  {
    if routing == [] then [] else [topo[routing[0]].coord] + Coords(topo, routing[1..])
  }

  /** A `north` cycle back to the first stop: a has neighbours k then k2, k
      leads back to a, and k2 leads to b, all edges straight. */
  predicate CycleBack(topo: Topo, a: StationId, k: StationId, k2: StationId, b: StationId)
  {
    && a in topo && k in topo && k2 in topo && b in topo
    && a != k && a != k2 && a != b && k != k2 && k != b && k2 != b
    && topo[a].north == Some([Edge(k, []), Edge(k2, [])])
    && topo[k].north == Some([Edge(a, [])])
    && topo[k2].north == Some([Edge(b, [])])
  }

  /** On such a cycle the first leg goes round it, through k and a again,
      before reaching b, while the same pair searched as a later leg skips
      k, whose only way on is the already visited a. */
  lemma FirstLegRevisitsStart(topo: Topo, a: StationId, k: StationId, k2: StationId, b: StationId)
    requires CycleBack(topo, a, k, k2, b)
    ensures FirstInner(topo, a, b) == [topo[k].coord, topo[a].coord, topo[k2].coord, topo[b].coord]
    ensures Inner(topo, a, b) == [topo[k2].coord, topo[b].coord]
    ensures RoutingPath(topo, [a, b])
         == [topo[a].coord, topo[k].coord, topo[a].coord, topo[k2].coord, topo[b].coord, topo[b].coord]
  {
    CycleFirstLeg(topo, a, k, k2, b);
    CycleLaterLeg(topo, a, k, k2, b);
    assert [a, b][1..] == [b];
  }

  lemma CycleFirstLeg(topo: Topo, a: StationId, k: StationId, k2: StationId, b: StationId)
    requires CycleBack(topo, a, k, k2, b)
    ensures FirstInner(topo, a, b) == [topo[k].coord, topo[a].coord, topo[k2].coord, topo[b].coord]
  {
    var ea := topo[a].north.value;
    var ca, ck, ck2, cb := topo[a].coord, topo[k].coord, topo[k2].coord, topo[b].coord;
    assert EdgeTo(ea, b) == None && EdgeTo(ea, k) == Some([]);
    assert |ea| == 2 && ea[0].to == k && ea[1].to == k2;
    CycleThroughK(topo, a, k, k2, b);
    assert [] + [ck] + [ca, ck2, cb] == [ck, ca, ck2, cb];
    assert Find(topo, k2, b, 1, [k, a, k2]) == Search(None, [k, a, k2]);
    assert Scan(topo, ea, 2, b, 0, [k, a, k2], [ck, ca, ck2, cb]) == Search(Some([ck, ca, ck2, cb]), [k, a, k2]);
    assert Scan(topo, ea, 1, b, 0, [k, a, k2], [ck, ca, ck2, cb]) == Search(Some([ck, ca, ck2, cb]), [k, a, k2]);
    assert Scan(topo, ea, 0, b, 0, [], []) == Search(Some([ck, ca, ck2, cb]), [k, a, k2]);
  }

  /** From k, the search goes back to a and on through k2 to b. */
  lemma CycleThroughK(topo: Topo, a: StationId, k: StationId, k2: StationId, b: StationId)
    requires CycleBack(topo, a, k, k2, b)
    ensures Find(topo, k, b, 1, []) == Search(Some([topo[a].coord, topo[k2].coord, topo[b].coord]), [k, a, k2])
  {
    var ek := topo[k].north.value;
    var ca, ck2, cb := topo[a].coord, topo[k2].coord, topo[b].coord;
    assert EdgeTo(ek, b) == None && EdgeTo(ek, a) == Some([]);
    assert |ek| == 1 && ek[0].to == a;
    assert [] + [k] == [k];
    CycleSecondVisit(topo, a, k, k2, b);
    assert [] + [ca] + [ck2, cb] == [ca, ck2, cb];
    assert Scan(topo, ek, 1, b, 1, [k, a, k2], [ca, ck2, cb]) == Search(Some([ca, ck2, cb]), [k, a, k2]);
    assert Scan(topo, ek, 0, b, 1, [k], []) == Search(Some([ca, ck2, cb]), [k, a, k2]);
    assert Expand(topo, k, b, 1, [k]) == Search(Some([ca, ck2, cb]), [k, a, k2]);
  }

  /** The second expansion of a, reached through k. */
  lemma CycleSecondVisit(topo: Topo, a: StationId, k: StationId, k2: StationId, b: StationId)
    requires CycleBack(topo, a, k, k2, b)
    ensures Find(topo, a, b, 2, [k]) == Search(Some([topo[k2].coord, topo[b].coord]), [k, a, k2])
  {
    var ea := topo[a].north.value;
    var ck2, cb := topo[k2].coord, topo[b].coord;
    assert EdgeTo(ea, b) == None && EdgeTo(ea, k2) == Some([]);
    assert EdgeTo(topo[k2].north.value, b) == Some([]);
    assert |ea| == 2 && ea[0].to == k && ea[1].to == k2;
    assert [k] + [a] == [k, a] && [k, a] + [k2] == [k, a, k2];
    assert Find(topo, k2, b, 3, [k, a]) == Search(Some([cb]), [k, a, k2]);
    assert [] + [ck2] + [cb] == [ck2, cb];
    assert Scan(topo, ea, 2, b, 2, [k, a, k2], [ck2, cb]) == Search(Some([ck2, cb]), [k, a, k2]);
    assert Scan(topo, ea, 1, b, 2, [k, a], []) == Search(Some([ck2, cb]), [k, a, k2]);
    assert Find(topo, k, b, 3, [k, a]) == Search(None, [k, a]);
    assert Scan(topo, ea, 0, b, 2, [k, a], []) == Search(Some([ck2, cb]), [k, a, k2]);
    assert Expand(topo, a, b, 2, [k, a]) == Search(Some([ck2, cb]), [k, a, k2]);
  }

  lemma CycleLaterLeg(topo: Topo, a: StationId, k: StationId, k2: StationId, b: StationId)
    requires CycleBack(topo, a, k, k2, b)
    ensures Inner(topo, a, b) == [topo[k2].coord, topo[b].coord]
  {
    var ea := topo[a].north.value;
    var ck2, cb := topo[k2].coord, topo[b].coord;
    assert EdgeTo(ea, b) == None && EdgeTo(ea, k2) == Some([]);
    assert EdgeTo(topo[k2].north.value, b) == Some([]);
    assert |ea| == 2 && ea[0].to == k && ea[1].to == k2;
    assert [] + [a] == [a] && [a, k] + [k2] == [a, k, k2];
    CycleDeadEnd(topo, a, k, k2, b);
    assert Find(topo, k2, b, 1, [a, k]) == Search(Some([cb]), [a, k, k2]);
    assert [] + [ck2] + [cb] == [ck2, cb];
    assert Scan(topo, ea, 2, b, 0, [a, k, k2], [ck2, cb]) == Search(Some([ck2, cb]), [a, k, k2]);
    assert Scan(topo, ea, 1, b, 0, [a, k], []) == Search(Some([ck2, cb]), [a, k, k2]);
    assert Scan(topo, ea, 0, b, 0, [a], []) == Search(Some([ck2, cb]), [a, k, k2]);
    assert Find(topo, a, b, 0, []) == Search(Some([ck2, cb]), [a, k, k2]);
  }

  /** With a already visited, k leads nowhere. */
  lemma CycleDeadEnd(topo: Topo, a: StationId, k: StationId, k2: StationId, b: StationId)
    requires CycleBack(topo, a, k, k2, b)
    ensures Find(topo, k, b, 1, [a]) == Search(Some([]), [a, k])
  {
    var ek := topo[k].north.value;
    assert EdgeTo(ek, b) == None;
    assert |ek| == 1 && ek[0].to == a;
    assert [a] + [k] == [a, k];
    assert Find(topo, a, b, 2, [a, k]) == Search(None, [a, k]);
    assert Scan(topo, ek, 1, b, 1, [a, k], []) == Search(Some([]), [a, k]);
    assert Scan(topo, ek, 0, b, 1, [a, k], []) == Search(Some([]), [a, k]);
  }


  /** A leg from the first stop to the second, followed by a polyline that
      ends at the last stop, ends at the last stop. */
  lemma LegEnds(topo: Topo, routing: seq<StationId>, mid: seq<Coord>, rest: seq<Coord>)
    requires AllKnown(topo, routing) && |routing| >= 2
    requires |routing| == 2 ==> rest == []
    requires |routing| > 2 ==> |rest| >= 2 && rest[|rest| - 1] == topo[routing[|routing| - 1]].coord
    ensures var path := [topo[routing[0]].coord] + mid + [topo[routing[1]].coord] + rest;
      && |path| >= 2
      && path[0] == topo[routing[0]].coord
      && path[|path| - 1] == topo[routing[|routing| - 1]].coord
  {
  }

  lemma {:induction false} LaterLegsEnds(topo: Topo, routing: seq<StationId>)
    requires AllKnown(topo, routing) && |routing| >= 2
    ensures var path := LaterLegs(topo, routing);
      && |path| >= 2
      && path[0] == topo[routing[0]].coord
      && path[|path| - 1] == topo[routing[|routing| - 1]].coord
  {
    if |routing| > 2 {
      LaterLegsEnds(topo, routing[1..]);
    }
    LegEnds(topo, routing, Inner(topo, routing[0], routing[1]), LaterLegs(topo, routing[1..]));
  }

  /** The polyline of a routing of two or more stops starts at the first
      stop and ends at the last stop. */
  lemma RoutingPathEnds(topo: Topo, routing: seq<StationId>)
    requires AllKnown(topo, routing) && |routing| >= 2
    ensures var path := RoutingPath(topo, routing);
      && |path| >= 2
      && path[0] == topo[routing[0]].coord
      && path[|path| - 1] == topo[routing[|routing| - 1]].coord
  {
    if |routing| > 2 {
      LaterLegsEnds(topo, routing[1..]);
    }
    LegEnds(topo, routing, FirstInner(topo, routing[0], routing[1]), LaterLegs(topo, routing[1..]));
  }

  /** Between two stops joined by a straight `north` edge (an empty curve),
      the search answers with the second stop's coordinate and the polyline
      then repeats it: the end point appears twice. */
  lemma StraightEdgeRepeatsEnd(topo: Topo, a: StationId, b: StationId)
    requires a in topo && b in topo
    requires topo[a].north.Some? && EdgeTo(topo[a].north.value, b) == Some([])
    ensures RoutingPath(topo, [a, b]) == [topo[a].coord, topo[b].coord, topo[b].coord]
  {
    assert Expand(topo, a, b, 0, []).found == Some([topo[b].coord]);
    assert FirstInner(topo, a, b) == [topo[b].coord];
    assert [a, b][1..] == [b];
    assert LaterLegs(topo, [b]) == [];
  }

  /** A leg from the first stop to the second, followed by a polyline that
      passes the remaining stops in order, passes every stop in order. */
  lemma LegVisitsStops(topo: Topo, routing: seq<StationId>, mid: seq<Coord>, rest: seq<Coord>)
    requires AllKnown(topo, routing) && |routing| >= 2
    requires |routing| == 2 ==> rest == []
    requires |routing| > 2 ==> IsSubsequence(Coords(topo, routing[1..]), rest)
    ensures IsSubsequence(Coords(topo, routing), [topo[routing[0]].coord] + mid + [topo[routing[1]].coord] + rest)
  {
    var c0, c1 := topo[routing[0]].coord, topo[routing[1]].coord;
    var tail := mid + [c1] + rest;
    assert [c0] + mid + [c1] + rest == [c0] + tail;
    assert Coords(topo, routing) == [c0] + Coords(topo, routing[1..]);
    SubsequenceRefl([c0]);
    if |routing| == 2 {
      assert Coords(topo, routing[1..]) == [c1];
      assert tail == mid + [c1];
      SubsequenceRefl([c1]);
      SubsequenceOfSuffixed([c1], [c1], mid);
    } else {
      SubsequenceOfSuffixed(Coords(topo, routing[1..]), rest, mid + [c1]);
    }
    SubsequenceConcat([c0], [c0], Coords(topo, routing[1..]), tail);
  }

  lemma {:induction false} LaterLegsVisitStops(topo: Topo, routing: seq<StationId>)
    requires AllKnown(topo, routing) && |routing| >= 2
    ensures IsSubsequence(Coords(topo, routing), LaterLegs(topo, routing))
  {
    if |routing| > 2 {
      LaterLegsVisitStops(topo, routing[1..]);
    }
    LegVisitsStops(topo, routing, Inner(topo, routing[0], routing[1]), LaterLegs(topo, routing[1..]));
  }

  /** The polyline passes every stop's coordinate, in routing order. */
  lemma RoutingPathVisitsStops(topo: Topo, routing: seq<StationId>)
    requires AllKnown(topo, routing) && |routing| >= 2
    ensures IsSubsequence(Coords(topo, routing), RoutingPath(topo, routing))
  {
    if |routing| > 2 {
      LaterLegsVisitStops(topo, routing[1..]);
    }
    LegVisitsStops(topo, routing, FirstInner(topo, routing[0], routing[1]), LaterLegs(topo, routing[1..]));
  }

  /** `routingGeoJson(routing)`: the polyline, built by pushing onto `path`
      while walking the routing after its first stop is spliced off. */
  method RoutingGeoJson(topo: Topo, routing: seq<StationId>) returns (path: seq<Coord>)
    requires AllKnown(topo, routing)
    ensures path == RoutingPath(topo, routing)
    ensures |routing| < 2 ==> path == []
  {
    path := [];
    if routing == [] {
      return;
    }
    ghost var coords, curves := Coords(topo, routing), Curves(topo, routing);
    assert coords[0..] == coords && curves[0..] == curves;
    var prev := routing[0];
    var i := 1;
    while i < |routing|
      invariant 1 <= i <= |routing| && prev == routing[i - 1]
      invariant i == 1 ==> path == []
      invariant path + Polyline(coords[i - 1..], curves[i - 1..]) == Polyline(coords, curves)
    {
      var stop := routing[i];
      ghost var before := path;
      path := PushLeg(topo, path, prev, stop, i == 1);
      PolylineStep(coords, curves, i - 1, before, path);
      prev := stop;
      i := i + 1;
    }
    RoutingPathPolyline(topo, routing);
  }

  /** The body of the walk for the pair prev, stop: pushes the first stop's
      coordinate, the searched curve when one is found, and the second
      stop's coordinate. On the first pair, `prev` is still the spliced
      array, which no visited check matches. */
  method PushLeg(topo: Topo, path: seq<Coord>, prev: StationId, stop: StationId, first: bool) returns (path': seq<Coord>)
    requires prev in topo && stop in topo
    ensures first ==> path' == path + [topo[prev].coord] + FirstInner(topo, prev, stop) + [topo[stop].coord]
    ensures !first ==> path' == path + [topo[prev].coord] + Inner(topo, prev, stop) + [topo[stop].coord]
  {
    path' := path + [topo[prev].coord];
    var potential: Option<seq<Coord>>, visited: seq<StationId>;
    if first {
      potential, visited := ExpandFrom(topo, prev, stop, 0, []);
    } else {
      potential, visited := FindPath(topo, prev, stop, 0, []);
    }
    if potential.Some? {
      path' := path' + potential.value;
    }
    path' := path' + [topo[stop].coord];
  }

  /** The polyline through the stop coordinates `coords`, with `curves[j]`
      the curve searched between stops j and j + 1. */
  function Polyline(coords: seq<Coord>, curves: seq<seq<Coord>>): seq<Coord>
    requires |coords| < 2 || |curves| >= |coords| - 1
  {
    if |coords| < 2 then [] else [coords[0]] + curves[0] + [coords[1]] + Polyline(coords[1..], curves[1..])
  }

  /** The curves of the legs of a routing: the first searched as
      `FirstInner` says, the others as `Inner` does. */
  function Curves(topo: Topo, routing: seq<StationId>): (cs: seq<seq<Coord>>)
    requires AllKnown(topo, routing)
    ensures |routing| < 2 ==> cs == []
    ensures |routing| >= 2 ==> |cs| == |routing| - 1 && cs[0] == FirstInner(topo, routing[0], routing[1])
    ensures forall j :: 1 <= j < |cs| ==> cs[j] == Inner(topo, routing[j], routing[j + 1])
  {
    if |routing| < 2 then [] else [FirstInner(topo, routing[0], routing[1])] + LaterCurves(topo, routing[1..])
  }

  function LaterCurves(topo: Topo, routing: seq<StationId>): (cs: seq<seq<Coord>>)
    requires AllKnown(topo, routing)
    ensures |cs| == if |routing| < 2 then 0 else |routing| - 1
    ensures forall j :: 0 <= j < |cs| ==> cs[j] == Inner(topo, routing[j], routing[j + 1])
  {
    if |routing| < 2 then [] else [Inner(topo, routing[0], routing[1])] + LaterCurves(topo, routing[1..])
  }

  lemma {:induction false} LaterLegsPolyline(topo: Topo, routing: seq<StationId>)
    requires AllKnown(topo, routing)
    ensures LaterLegs(topo, routing) == Polyline(Coords(topo, routing), LaterCurves(topo, routing))
  {
    if |routing| >= 2 {
      LaterLegsPolyline(topo, routing[1..]);
      assert Coords(topo, routing)[1..] == Coords(topo, routing[1..]);
      assert LaterCurves(topo, routing)[1..] == LaterCurves(topo, routing[1..]);
    }
  }

  /** The polyline of a routing is the one through its stops along its
      leg curves. */
  lemma RoutingPathPolyline(topo: Topo, routing: seq<StationId>)
    requires AllKnown(topo, routing)
    ensures RoutingPath(topo, routing) == Polyline(Coords(topo, routing), Curves(topo, routing))
  {
    if |routing| >= 2 {
      LaterLegsPolyline(topo, routing[1..]);
      assert Coords(topo, routing)[1..] == Coords(topo, routing[1..]);
      assert Curves(topo, routing)[1..] == LaterCurves(topo, routing[1..]);
    }
  }

  /** One turn of the walk: pushing leg k keeps the pushed path a prefix of
      the polyline, followed by the legs from k + 1 on. */
  lemma PolylineStep(coords: seq<Coord>, curves: seq<seq<Coord>>, k: nat, before: seq<Coord>, after: seq<Coord>)
    requires k + 1 < |coords| && |curves| >= |coords| - 1
    requires before + Polyline(coords[k..], curves[k..]) == Polyline(coords, curves)
    requires after == before + [coords[k]] + curves[k] + [coords[k + 1]]
    ensures after + Polyline(coords[k + 1..], curves[k + 1..]) == Polyline(coords, curves)
  {
    PolylineAt(coords, curves, k);
    LegStep(before, coords[k], curves[k], coords[k + 1], Polyline(coords[k + 1..], curves[k + 1..]));
  }

  lemma LegStep<T>(before: seq<T>, a: T, mid: seq<T>, b: T, rest: seq<T>)
    ensures before + [a] + mid + [b] + rest == before + ([a] + mid + [b] + rest)
  {
  }

  /** The legs from k on are leg k followed by the legs from k + 1 on. */
  lemma PolylineAt(coords: seq<Coord>, curves: seq<seq<Coord>>, k: nat)
    requires k + 1 < |coords| && |curves| >= |coords| - 1
    ensures Polyline(coords[k..], curves[k..])
         == [coords[k]] + curves[k] + [coords[k + 1]] + Polyline(coords[k + 1..], curves[k + 1..])
  {
    assert coords[k..][1..] == coords[k + 1..];
    assert curves[k..][1..] == curves[k + 1..];
  }

  /** The polylines of all drawn routings of a route. */
  function Geometry(topo: Topo, routings: seq<seq<StationId>>): (g: seq<seq<Coord>>)
    requires forall i :: 0 <= i < |routings| ==> AllKnown(topo, routings[i])
    ensures |g| == |routings|
    ensures forall i :: 0 <= i < |routings| ==> g[i] == RoutingPath(topo, routings[i])
  {
    if routings == [] then [] else [RoutingPath(topo, routings[0])] + Geometry(topo, routings[1..])
  }

  /** The `routings.map(routingGeoJson)` of lines 199-204: one polyline per
      routing, pushed in order. */
  method RoutingsGeoJson(topo: Topo, routings: seq<seq<StationId>>) returns (geometry: seq<seq<Coord>>)
    requires AllKnownRoutings(topo, routings)
    ensures geometry == Geometry(topo, routings)
  {
    geometry := [];
    var i := 0;
    while i < |routings|
      invariant i <= |routings| && |geometry| == i
      invariant forall j :: 0 <= j < i ==> geometry[j] == RoutingPath(topo, routings[j])
    {
      var path := RoutingGeoJson(topo, routings[i]);
      geometry := geometry + [path];
      i := i + 1;
    }
    GeometryIs(topo, routings, geometry);
  }

  /** A sequence holding the polyline of each routing, in order, is the
      geometry of the routings. */
  lemma GeometryIs(topo: Topo, routings: seq<seq<StationId>>, g: seq<seq<Coord>>)
    requires AllKnownRoutings(topo, routings) && |g| == |routings|
    requires forall j :: 0 <= j < |routings| ==> g[j] == RoutingPath(topo, routings[j])
    ensures g == Geometry(topo, routings)
  {
  }

  predicate AllKnownRoutings(topo: Topo, routings: seq<seq<StationId>>)
  {
    forall i :: 0 <= i < |routings| ==> AllKnown(topo, routings[i])
  }

  /** The stations whose exact location is a coordinate of some polyline:
      those that a route `passed` (lines 206-213). */
  function PassedStations(locations: map<Coord, StationId>, paths: seq<seq<Coord>>): set<StationId>
  {
    set c | c in Covered(paths) && c in locations :: locations[c]
  }

  /** A station is passed exactly when one of the polylines goes through the
      location recorded for it. */
  lemma PassedStationsMembers(locations: map<Coord, StationId>, paths: seq<seq<Coord>>, s: StationId)
    ensures s in PassedStations(locations, paths) <==>
      exists p, c :: p in paths && c in p && c in locations && locations[c] == s
  {
    if s in PassedStations(locations, paths) {
      var c :| c in Covered(paths) && c in locations && locations[c] == s;
      var i :| 0 <= i < |paths| && c in paths[i];
      assert paths[i] in paths;
    }
    if exists p, c :: p in paths && c in p && c in locations && locations[c] == s {
      var p, c :| p in paths && c in p && c in locations && locations[c] == s;
      var i :| 0 <= i < |paths| && paths[i] == p;
      assert c in Covered(paths);
    }
  }
}
