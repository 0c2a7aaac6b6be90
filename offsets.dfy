/** The greedy line-offset allocation of `renderLines`
    (src/app/mapbox.jsx:28-31, 239-260): routes are taken in the fixed
    `trainIds` order, and each one drawn gets the smallest non-negative
    offset index not already held by a route that serves one of its stops.
    Only the index is modelled; the table of pixel offsets it selects from
    is presentation. */
module Offsets {
  import opened Seqs
  import opened Topology

  /** The fixed order in which routes receive their offsets, written as
      its two source lines. */
  const TrainIds: seq<RouteKey> := FirstLine + SecondLine
  const FirstLine: seq<RouteKey> := ["2", "3", "1", "4", "5", "6", "6X", "7", "7X", "A", "C", "E", "F", "FX"]
  const SecondLine: seq<RouteKey> := ["D", "B", "M", "J", "Z", "R", "N", "Q", "W", "G", "H", "FS", "GS", "L", "SI"]

  lemma TrainIdsDistinct()
    ensures NoDup(TrainIds)
  {
    FirstLineDistinct();
    SecondLineDistinct();
    LinesDisjoint();
    NoDupConcat(FirstLine, SecondLine);
  }

  lemma FirstLineDistinct()
    ensures NoDup(FirstLine)
  {
    forall i, j | 0 <= i < j < |FirstLine|
      ensures FirstLine[i] != FirstLine[j]
    {
      assert FirstLine[i][0] != FirstLine[j][0] || |FirstLine[i]| != |FirstLine[j]|;
    }
  }

  lemma SecondLineDistinct()
    ensures NoDup(SecondLine)
  {
    forall i, j | 0 <= i < j < |SecondLine|
      ensures SecondLine[i] != SecondLine[j]
    {
      assert SecondLine[i][0] != SecondLine[j][0] || |SecondLine[i]| != |SecondLine[j]|;
    }
  }

  lemma LinesDisjoint()
    ensures forall x :: x in FirstLine ==> x !in SecondLine
  {
  }

  /** Two duplicate-free sequences with no common element concatenate to a
      duplicate-free one. */
  lemma NoDupConcat<T>(a: seq<T>, b: seq<T>)
    requires NoDup(a) && NoDup(b)
    requires forall x :: x in a ==> x !in b
    ensures NoDup(a + b)
  {
    forall i, j | 0 <= i < j < |a + b|
      ensures (a + b)[i] != (a + b)[j]
    {
      if j >= |a| && i < |a| {
        assert a[i] in a && b[j - |a|] in b;
      }
    }
  }

  /** The offsets held by routes that serve one of `stops`, read through
      each stop's set of routes (lines 245-254). */
  function Conflicts(stops: set<StationId>, servedBy: map<StationId, set<RouteKey>>, offsets: map<RouteKey, nat>): set<nat>
  {
    set s, r | s in stops && s in servedBy && r in servedBy[s] && r in offsets :: offsets[r]
  }

  /** `held` contains every index below n. */
  lemma {:induction false} CountBelow(n: nat, held: set<nat>)
    requires forall i :: 0 <= i < n ==> i in held
    ensures n <= |held|
  {
    if n > 0 {
      CountBelow(n - 1, held - {n - 1});
    }
  }

  /** The smallest non-negative integer not in `held`. */
  ghost predicate IsSmallestFree(held: set<nat>, m: nat)
  {
    m !in held && forall i :: 0 <= i < m ==> i in held
  }

  lemma SmallestFreeUnique(held: set<nat>, a: nat, b: nat)
    requires IsSmallestFree(held, a) && IsSmallestFree(held, b)
    ensures a == b
  {
  }

  ghost function Mex(held: set<nat>): (m: nat)
    ensures IsSmallestFree(held, m)
  {
    assert exists m: nat :: IsSmallestFree(held, m) by {
      var m := SmallestFreeFrom(held, 0);
    }
    var m: nat :| IsSmallestFree(held, m);
    m
  }

  /** The `while (conflictingOffsets.has(offset)) offset++` search, as a
      recursion from n on. */
  function SmallestFreeFrom(held: set<nat>, n: nat): (m: nat)
    requires forall i :: 0 <= i < n ==> i in held
    ensures n <= m && IsSmallestFree(held, m)
    decreases |held| - n
  {
    CountBelow(n, held);
    if n !in held then n
    else
      CountBelow(n + 1, held);
      SmallestFreeFrom(held, n + 1)
  }

  /** Lines 244 and 256-258. */
  method SmallestFree(held: set<nat>) returns (offset: nat)
    ensures offset !in held
    ensures forall i :: 0 <= i < offset ==> i in held
  {
    offset := 0;
    while offset in held
      invariant forall i :: 0 <= i < offset ==> i in held
      decreases |held| - offset
    {
      CountBelow(offset + 1, held);
      offset := offset + 1;
    }
  }

  /** The nested `forEach` of lines 248-254. */
  method CollectConflicts(stops: set<StationId>, servedBy: map<StationId, set<RouteKey>>, offsets: map<RouteKey, nat>)
    returns (conflicts: set<nat>)
    requires stops <= servedBy.Keys
    ensures conflicts == Conflicts(stops, servedBy, offsets)
  {
    conflicts := {};
    var todo := stops;
    while todo != {}
      invariant todo <= stops
      invariant conflicts == Conflicts(stops - todo, servedBy, offsets)
      decreases todo
    {
      var stop :| stop in todo;
      var routes := servedBy[stop];
      ghost var start := conflicts;
      while routes != {}
        invariant routes <= servedBy[stop]
        invariant conflicts == start + set r | r in servedBy[stop] - routes && r in offsets :: offsets[r]
        decreases routes
      {
        var route :| route in routes;
        if route in offsets {
          conflicts := conflicts + {offsets[route]};
        }
        routes := routes - {route};
      }
      assert Conflicts(stops - (todo - {stop}), servedBy, offsets)
          == Conflicts(stops - todo, servedBy, offsets) + set r | r in servedBy[stop] && r in offsets :: offsets[r];
      todo := todo - {stop};
    }
  }

  /** The offsets after the routes of `order` have been taken in turn; a
      route gets one only if it was drawn, i.e. has an entry in
      `routeStops` (the `if (routeLayer)` of line 243). */
  ghost function AssignAll(order: seq<RouteKey>, routeStops: map<RouteKey, set<StationId>>,
                           servedBy: map<StationId, set<RouteKey>>): map<RouteKey, nat>
  {
    if order == [] then map[]
    else
      var before := AssignAll(order[..|order| - 1], routeStops, servedBy);
      var t := order[|order| - 1];
      if t in routeStops then before[t := Mex(Conflicts(routeStops[t], servedBy, before))] else before
  }

  /** Exactly the drawn routes of `order` get an offset. */
  lemma {:induction false} AssignAllKeys(order: seq<RouteKey>, routeStops: map<RouteKey, set<StationId>>,
                                         servedBy: map<StationId, set<RouteKey>>)
    ensures forall t :: t in AssignAll(order, routeStops, servedBy) <==> t in order && t in routeStops
  {
    if order != [] {
      var init := order[..|order| - 1];
      AssignAllKeys(init, routeStops, servedBy);
      assert order == init + [order[|order| - 1]];
    }
  }

  /** Once given, an offset is kept for the rest of the allocation. */
  lemma {:induction false} AssignAllKeeps(order: seq<RouteKey>, n: nat, routeStops: map<RouteKey, set<StationId>>,
                                          servedBy: map<StationId, set<RouteKey>>)
    requires NoDup(order) && n <= |order|
    ensures forall t :: t in AssignAll(order[..n], routeStops, servedBy) ==>
      t in AssignAll(order, routeStops, servedBy) && AssignAll(order, routeStops, servedBy)[t] == AssignAll(order[..n], routeStops, servedBy)[t]
  {
    if n < |order| {
      var init := order[..|order| - 1];
      assert NoDup(init);
      assert init[..n] == order[..n];
      AssignAllKeeps(init, n, routeStops, servedBy);
      AssignAllKeys(init, routeStops, servedBy);
      assert order[|order| - 1] !in init;
    } else {
      assert order[..n] == order;
    }
  }

  /** Each drawn route of `order` gets an offset that no route assigned
      before it and serving one of its stops holds, and every smaller
      offset is held by such a route. */
  lemma OffsetIsSmallestFree(order: seq<RouteKey>, i: nat, routeStops: map<RouteKey, set<StationId>>,
                             servedBy: map<StationId, set<RouteKey>>)
    requires NoDup(order) && i < |order| && order[i] in routeStops
    ensures var offsets := AssignAll(order, routeStops, servedBy);
      var held := Conflicts(routeStops[order[i]], servedBy, AssignAll(order[..i], routeStops, servedBy));
      && order[i] in offsets
      && offsets[order[i]] !in held
      && forall v :: 0 <= v < offsets[order[i]] ==> v in held
  {
    assert order[..i + 1][..i] == order[..i];
    AssignAllKeeps(order, i + 1, routeStops, servedBy);
  }

  /** Every stop a route serves lists that route among the routes serving it. */
  ghost predicate Consistent(routeStops: map<RouteKey, set<StationId>>, servedBy: map<StationId, set<RouteKey>>)
  {
    forall r, s :: r in routeStops && s in routeStops[r] ==> s in servedBy && r in servedBy[s]
  }

  /** Two drawn routes that serve a common stop never get the same offset. */
  lemma {:induction false} SharedStopDistinctOffsets(order: seq<RouteKey>, routeStops: map<RouteKey, set<StationId>>,
                                                     servedBy: map<StationId, set<RouteKey>>)
    requires NoDup(order) && Consistent(routeStops, servedBy)
    ensures var offsets := AssignAll(order, routeStops, servedBy);
      forall t1, t2, s :: t1 in offsets && t2 in offsets && t1 != t2 && t1 in routeStops && t2 in routeStops && s in routeStops[t1] && s in routeStops[t2]
        ==> offsets[t1] != offsets[t2]
  {
    if order != [] {
      var init := order[..|order| - 1];
      var t := order[|order| - 1];
      assert NoDup(init);
      SharedStopDistinctOffsets(init, routeStops, servedBy);
      AssignAllKeys(init, routeStops, servedBy);
      AssignAllKeys(order, routeStops, servedBy);
      var before := AssignAll(init, routeStops, servedBy);
      if t in routeStops {
        assert t !in before;
        SharersHeld(routeStops, servedBy, before, t);
      }
    }
  }

  /** The offset of every route sharing a stop with t is among t's conflicts. */
  lemma SharersHeld(routeStops: map<RouteKey, set<StationId>>, servedBy: map<StationId, set<RouteKey>>,
                    offsets: map<RouteKey, nat>, t: RouteKey)
    requires Consistent(routeStops, servedBy) && t in routeStops
    ensures forall t1, s :: t1 in offsets && t1 in routeStops && s in routeStops[t1] && s in routeStops[t] ==>
      offsets[t1] in Conflicts(routeStops[t], servedBy, offsets)
  {
    forall t1, s | t1 in offsets && t1 in routeStops && s in routeStops[t1] && s in routeStops[t]
      ensures offsets[t1] in Conflicts(routeStops[t], servedBy, offsets)
    {
      assert s in servedBy && t1 in servedBy[s];
    }
  }

  /** The same, for two given routes and the stop they share. */
  lemma SharedStopDistinct(order: seq<RouteKey>, routeStops: map<RouteKey, set<StationId>>,
                           servedBy: map<StationId, set<RouteKey>>, t1: RouteKey, t2: RouteKey, s: StationId)
    requires NoDup(order) && Consistent(routeStops, servedBy)
    requires t1 in AssignAll(order, routeStops, servedBy) && t2 in AssignAll(order, routeStops, servedBy) && t1 != t2
    requires t1 in routeStops && t2 in routeStops && s in routeStops[t1] && s in routeStops[t2]
    ensures AssignAll(order, routeStops, servedBy)[t1] != AssignAll(order, routeStops, servedBy)[t2]
  {
    SharedStopDistinctOffsets(order, routeStops, servedBy);
  }
}
