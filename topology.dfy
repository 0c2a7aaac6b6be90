/** The static station topology the map is drawn from: one record per station
    with its coordinate and its "north" adjacency, each neighbour carrying the
    intermediate coordinates of the track curve towards it. */
module Topology {
  import opened Wrappers

  type StationId = string
  type RouteKey = string

  /** A map position. Coordinates are only copied and compared, so they are
      kept abstract (integers) rather than floating point. */
  datatype Coord = Coord(longitude: int, latitude: int)

  /** One entry of a station's `north` object: the neighbour and the curve
      towards it (empty: a straight line). */
  datatype Edge = Edge(to: StationId, curve: seq<Coord>)

  /** A station record. `north` is None when the record has no `north`
      property; its entries are in the object's key-enumeration order. */
  datatype StationInfo = StationInfo(name: string, borough: string, coord: Coord, north: Option<seq<Edge>>)

  type Topo = map<StationId, StationInfo>

  /** `north[k]`: the curve of the entry for neighbour k, if there is one. */
  function EdgeTo(edges: seq<Edge>, k: StationId): (r: Option<seq<Coord>>)
    ensures r.Some? <==> exists i :: 0 <= i < |edges| && edges[i].to == k
    ensures r.Some? ==> exists i :: 0 <= i < |edges| && edges[i].to == k && edges[i].curve == r.value
  {
    if edges == [] then None
    else if edges[0].to == k then Some(edges[0].curve)
    else
      var r := EdgeTo(edges[1..], k);
      assert forall i :: 1 <= i < |edges| ==> edges[i] == edges[1..][i - 1];
      assert (exists i :: 0 <= i < |edges[1..]| && edges[1..][i].to == k) ==> exists i :: 0 <= i < |edges| && edges[i].to == k;
      r
  }
}
