/** `findPath` (src/app/mapbox.jsx:329-357): the search for the track curve
    between two consecutive stops of a routing, following `north` edges.

    The list of visited stations is one array shared by every call of a
    search, so the method threads it in and out: a station expanded by one
    branch is never expanded again by a sibling branch. Among the neighbours
    that lead to the end, the last one in key order wins. */
module PathFinder {
  import opened Wrappers
  import opened Seqs
  import opened Topology

  /** Deepest step count at which the search still expands neighbours. */
  const MaxSteps: nat := 12

  /** What a call returns (None: `undefined`) and the visited list after it. */
  datatype Search = Search(found: Option<seq<Coord>>, visited: seq<StationId>)

  /** The coordinates contributed by a direct edge to the end stop: the
      curve, or the end stop's coordinate when the curve is empty. */
  function FinalLeg(topo: Topo, curve: seq<Coord>, end: StationId): seq<Coord>
    requires end in topo
  {
    if |curve| > 0 then curve else [topo[end].coord]
  }

  /** The search as a function of its inputs: what `FindPath` computes. */
  function Find(topo: Topo, start: StationId, end: StationId, steps: nat, visited: seq<StationId>): (r: Search)
    requires end in topo
    ensures r.found.Some? ==> start in topo && topo[start].north.Some?
    decreases if steps <= MaxSteps + 1 then MaxSteps + 1 - steps else 0, 2, 0
  {
    if start in visited then Search(None, visited)
    else Expand(topo, start, end, steps, visited + [start])
  }

  /** Lines 334-356: the search from `start` once the visited check and the
      push are done, with `seen` the visited list after the push. */
  function Expand(topo: Topo, start: StationId, end: StationId, steps: nat, seen: seq<StationId>): (r: Search)
    requires end in topo
    ensures r.found.Some? ==> start in topo && topo[start].north.Some?
    decreases if steps <= MaxSteps + 1 then MaxSteps + 1 - steps else 0, 1, 0
  {
    if start !in topo || topo[start].north.None? then Search(None, seen)
    else
      var edges := topo[start].north.value;
      var direct := EdgeTo(edges, end);
      if direct.Some? then Search(Some(FinalLeg(topo, direct.value, end)), seen)
      else if steps > MaxSteps then Search(None, seen)
      else Scan(topo, edges, 0, end, steps, seen, [])
  }

  /** The `forEach` over the neighbours from index i on, with the current
      `results`; a successful neighbour replaces the results. */
  function Scan(topo: Topo, edges: seq<Edge>, i: nat, end: StationId, steps: nat,
                visited: seq<StationId>, results: seq<Coord>): (r: Search)
    requires end in topo && i <= |edges| && steps <= MaxSteps
    decreases MaxSteps + 1 - steps, 0, |edges| - i
  {
    if i == |edges| then Search(Some(results), visited)
    else
      var key := edges[i].to;
      var sub := Find(topo, key, end, steps + 1, visited);
      var next :=
        if sub.found.Some? && |sub.found.value| > 0 then
          assert EdgeTo(edges, key).Some? by { assert edges[i].to == key; }
          // lines 350-353: curve, then the neighbour's coordinate, then the rest
          EdgeTo(edges, key).value + [topo[key].coord] + sub.found.value
        else results;
      Scan(topo, edges, i + 1, end, steps, sub.visited, next)
  }

  /** `findPath(start, end, stepsTaken, stopsVisited)`. */
  method FindPath(topo: Topo, start: StationId, end: StationId, steps: nat, visited: seq<StationId>)
    returns (found: Option<seq<Coord>>, visitedOut: seq<StationId>)
    requires end in topo
    ensures Search(found, visitedOut) == Find(topo, start, end, steps, visited)
    // lines 330-332: a station already visited is not searched again
    ensures start in visited ==> found == None && visitedOut == visited
    // lines 333-337: otherwise it is recorded; a station without `north` fails
    ensures start !in visited ==> |visitedOut| > |visited| && visitedOut[|visited|] == start
    ensures start !in visited && (start !in topo || topo[start].north.None?) ==> found == None
    // lines 338-342: a direct edge answers at once, at any depth
    ensures start !in visited && start in topo && topo[start].north.Some? && EdgeTo(topo[start].north.value, end).Some?
            ==> found == Some(FinalLeg(topo, EdgeTo(topo[start].north.value, end).value, end))
    // lines 343-345: past the depth bound, without a direct edge, it fails
    ensures (start !in visited && start in topo && topo[start].north.Some? && EdgeTo(topo[start].north.value, end).None?
             && steps > MaxSteps) ==> found == None
    decreases if steps <= MaxSteps + 1 then MaxSteps + 1 - steps else 0, 2
  {
    if start in visited {
      return None, visited;
    }
    visitedOut := visited + [start];
    ghost var seen := visitedOut;
    found, visitedOut := ExpandFrom(topo, start, end, steps, visitedOut);
    ExpandExtendsVisited(topo, start, end, steps, seen);
    assert visitedOut[..|seen|][|visited|] == seen[|visited|];
  }

  /** Lines 334-356, after `start` has been pushed onto the visited list. */
  method ExpandFrom(topo: Topo, start: StationId, end: StationId, steps: nat, seen: seq<StationId>)
    returns (found: Option<seq<Coord>>, visitedOut: seq<StationId>)
    requires end in topo
    ensures Search(found, visitedOut) == Expand(topo, start, end, steps, seen)
    ensures (start !in topo || topo[start].north.None?) ==> found == None
    ensures start in topo && topo[start].north.Some? && EdgeTo(topo[start].north.value, end).Some?
            ==> found == Some(FinalLeg(topo, EdgeTo(topo[start].north.value, end).value, end))
    decreases if steps <= MaxSteps + 1 then MaxSteps + 1 - steps else 0, 1
  {
    visitedOut := seen;
    if start !in topo || topo[start].north.None? {
      return None, visitedOut;
    }
    var edges := topo[start].north.value;
    var direct := EdgeTo(edges, end);
    if direct.Some? {
      if |direct.value| > 0 {
        return Some(direct.value), visitedOut;
      }
      return Some([topo[end].coord]), visitedOut;
    } else if steps > MaxSteps {
      return None, visitedOut;
    }
    found, visitedOut := ScanNeighbours(topo, edges, end, steps, visitedOut);
  }

  /** The `forEach` of lines 347-355 over the neighbours of the station whose
      `north` entries are `edges`. */
  method ScanNeighbours(topo: Topo, edges: seq<Edge>, end: StationId, steps: nat, visited: seq<StationId>)
    returns (found: Option<seq<Coord>>, visitedOut: seq<StationId>)
    requires end in topo && steps <= MaxSteps
    ensures Search(found, visitedOut) == Scan(topo, edges, 0, end, steps, visited, [])
    decreases MaxSteps + 1 - steps, 0
  {
    visitedOut := visited;
    var results: seq<Coord> := [];
    var i := 0;
    while i < |edges|
      invariant i <= |edges|
      invariant Scan(topo, edges, i, end, steps, visitedOut, results) == Scan(topo, edges, 0, end, steps, visited, [])
    {
      ghost var before := Scan(topo, edges, i, end, steps, visitedOut, results);
      var key := edges[i].to;
      var path, seen := FindPath(topo, key, end, steps + 1, visitedOut);
      visitedOut := seen;
      if path.Some? && |path.value| > 0 {
        assert edges[i].to == key;
        var curve := EdgeTo(edges, key).value;
        if |curve| > 0 {
          results := curve + [topo[key].coord] + path.value;
        } else {
          assert [topo[key].coord] + path.value == curve + [topo[key].coord] + path.value;
          results := [topo[key].coord] + path.value;
        }
      }
      assert before == Scan(topo, edges, i + 1, end, steps, visitedOut, results);
      i := i + 1;
    }
    found := Some(results);
  }

  /** The visited list only grows: what was visited stays, in place, and a
      call records its start station. No station is ever recorded twice. */
  lemma {:induction false} FindExtendsVisited(topo: Topo, start: StationId, end: StationId, steps: nat, visited: seq<StationId>)
    requires end in topo
    ensures var r := Find(topo, start, end, steps, visited);
      && |visited| <= |r.visited| && r.visited[..|visited|] == visited
      && (start !in visited ==> start in r.visited)
      && (NoDup(visited) ==> NoDup(r.visited))
    decreases if steps <= MaxSteps + 1 then MaxSteps + 1 - steps else 0, 2, 0
  {
    if start !in visited {
      var seen := visited + [start];
      assert seen[..|visited|] == visited;
      assert NoDup(visited) ==> NoDup(seen);
      ExpandExtendsVisited(topo, start, end, steps, seen);
      var r := Find(topo, start, end, steps, visited);
      assert r.visited[..|visited|] == r.visited[..|seen|][..|visited|];
      assert r.visited[|visited|] == r.visited[..|seen|][|visited|];
    }
  }

  lemma {:induction false} ExpandExtendsVisited(topo: Topo, start: StationId, end: StationId, steps: nat, seen: seq<StationId>)
    requires end in topo
    ensures var r := Expand(topo, start, end, steps, seen);
      && |seen| <= |r.visited| && r.visited[..|seen|] == seen
      && (NoDup(seen) ==> NoDup(r.visited))
    decreases if steps <= MaxSteps + 1 then MaxSteps + 1 - steps else 0, 1, 0
  {
    if start in topo && topo[start].north.Some? {
      var edges := topo[start].north.value;
      if EdgeTo(edges, end).None? && steps <= MaxSteps {
        ScanExtendsVisited(topo, edges, 0, end, steps, seen, []);
      }
    }
  }

  lemma {:induction false} ScanExtendsVisited(topo: Topo, edges: seq<Edge>, i: nat, end: StationId, steps: nat,
                                             visited: seq<StationId>, results: seq<Coord>)
    requires end in topo && i <= |edges| && steps <= MaxSteps
    ensures var r := Scan(topo, edges, i, end, steps, visited, results);
      && |visited| <= |r.visited| && r.visited[..|visited|] == visited
      && (NoDup(visited) ==> NoDup(r.visited))
    decreases MaxSteps + 1 - steps, 0, |edges| - i
  {
    if i < |edges| {
      var key := edges[i].to;
      var sub := Find(topo, key, end, steps + 1, visited);
      FindExtendsVisited(topo, key, end, steps + 1, visited);
      var next := if sub.found.Some? && |sub.found.value| > 0 then EdgeTo(edges, key).value + [topo[key].coord] + sub.found.value else results;
      ScanExtendsVisited(topo, edges, i + 1, end, steps, sub.visited, next);
      var r := Scan(topo, edges, i, end, steps, visited, results);
      assert r == Scan(topo, edges, i + 1, end, steps, sub.visited, next);
      assert r.visited[..|visited|] == r.visited[..|sub.visited|][..|visited|];
    }
  }

  /** `p` is the coordinate trail of a walk along `north` edges from station
      `a` to `end` that takes at most `hops` intermediate stations: each
      intermediate leg is the edge's curve followed by the next station's
      coordinate, and the last leg is the final edge's curve, or the end
      stop's coordinate when that curve is empty. */
  ghost predicate Leads(topo: Topo, a: StationId, end: StationId, p: seq<Coord>, hops: nat)
    requires end in topo
    decreases hops, 1
  {
    && a in topo && topo[a].north.Some?
    && ((EdgeTo(topo[a].north.value, end).Some? && p == FinalLeg(topo, EdgeTo(topo[a].north.value, end).value, end))
        || LeadsVia(topo, topo[a].north.value, end, p, hops))
  }

  /** `p` starts with the leg to one of the neighbours listed in `edges` and
      continues with a trail that `Leads` from that neighbour to `end`. */
  ghost predicate LeadsVia(topo: Topo, edges: seq<Edge>, end: StationId, p: seq<Coord>, hops: nat)
    requires end in topo
    decreases hops, 0
  {
    hops > 0 &&
    exists j :: 0 <= j < |edges| && edges[j].to in topo && Step(topo, edges, j, end, p, hops)
  }

  ghost predicate Step(topo: Topo, edges: seq<Edge>, j: nat, end: StationId, p: seq<Coord>, hops: nat)
    requires end in topo && j < |edges| && edges[j].to in topo && hops > 0
    decreases hops - 1, 2
  {
    var k := edges[j].to;
    assert EdgeTo(edges, k).Some? by { assert edges[j].to == k; }
    var leg := EdgeTo(edges, k).value + [topo[k].coord];
    |leg| < |p| && p[..|leg|] == leg && Leads(topo, k, end, p[|leg|..], hops - 1)
  }

  /** Every non-empty path the search returns hugs the track: it is the trail
      of a walk along `north` edges from `start` to `end`, through at most
      `MaxSteps + 1 - steps` intermediate stations. */
  lemma {:induction false} FindSound(topo: Topo, start: StationId, end: StationId, steps: nat, visited: seq<StationId>)
    requires end in topo && steps <= MaxSteps + 1
    ensures var r := Find(topo, start, end, steps, visited);
      r.found.Some? && |r.found.value| > 0 ==> Leads(topo, start, end, r.found.value, MaxSteps + 1 - steps)
    decreases MaxSteps + 1 - steps, 2, 0
  {
    if start !in visited {
      ExpandSound(topo, start, end, steps, visited + [start]);
    }
  }

  /** The same for the search after the visited check, as the first leg of
      a routing runs it. */
  lemma {:induction false} ExpandSound(topo: Topo, start: StationId, end: StationId, steps: nat, seen: seq<StationId>)
    requires end in topo && steps <= MaxSteps + 1
    ensures var r := Expand(topo, start, end, steps, seen);
      r.found.Some? && |r.found.value| > 0 ==> Leads(topo, start, end, r.found.value, MaxSteps + 1 - steps)
    decreases MaxSteps + 1 - steps, 1, 0
  {
    if start in topo && topo[start].north.Some? {
      var edges := topo[start].north.value;
      if EdgeTo(edges, end).None? && steps <= MaxSteps {
        ScanSound(topo, edges, 0, end, steps, seen, []);
      }
    }
  }

  lemma {:induction false} ScanSound(topo: Topo, edges: seq<Edge>, i: nat, end: StationId, steps: nat,
                                     visited: seq<StationId>, results: seq<Coord>)
    requires end in topo && i <= |edges| && steps <= MaxSteps
    requires |results| > 0 ==> LeadsVia(topo, edges, end, results, MaxSteps + 1 - steps)
    ensures var r := Scan(topo, edges, i, end, steps, visited, results);
      r.found.Some? && |r.found.value| > 0 ==> LeadsVia(topo, edges, end, r.found.value, MaxSteps + 1 - steps)
    decreases MaxSteps + 1 - steps, 0, |edges| - i
  {
    if i < |edges| {
      var key := edges[i].to;
      var sub := Find(topo, key, end, steps + 1, visited);
      if sub.found.Some? && |sub.found.value| > 0 {
        FindSound(topo, key, end, steps + 1, visited);
        assert EdgeTo(edges, key).Some? by { assert edges[i].to == key; }
        var leg := EdgeTo(edges, key).value + [topo[key].coord];
        var next := leg + sub.found.value;
        assert next[..|leg|] == leg && next[|leg|..] == sub.found.value;
        assert Step(topo, edges, i, end, next, MaxSteps + 1 - steps);
        ScanSound(topo, edges, i + 1, end, steps, sub.visited, next);
      } else {
        ScanSound(topo, edges, i + 1, end, steps, sub.visited, results);
      }
    }
  }
}
