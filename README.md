# Subway map core, modelled in Dafny

This project models the computational core of a live subway map web
application. The map side (`src/app/mapbox.jsx`) covers:

- Rebuilding every station's derived route sets (`northStops`,
  `southStops`, `passed`, `stops`) from a routing feed. The rebuild is
  guarded by the feed's checksum.
- Filtering, normalising, reversing and deduplicating each route's routings.
- Building one polyline per routing. It uses a depth-bounded search for the
  track curve between consecutive stops (`routingGeoJson`, `findPath`).
- Allocating each route's line offset greedily, in the fixed train order,
  so that routes sharing a stop are drawn apart.
- Classifying each stop's icon (`stopTypeIcon`).
- Reading the selected train or station from the page path
  (`selectedTrain`, `selectedStation`).

The station panel (`src/app/stationDetails.jsx`) covers:

- Its constant tables.
- `statusColor` and `shortenStationName`.
- The per-direction train lists with the M train's direction swap
  (`northStops`, `southStops`).
- The destinations reached from a station (`northDestinations`,
  `southDestinations`, `sortDestinations`).
- The direction caption of each platform (`northDirection`,
  `southDirection`). Examples are "Uptown & Brooklyn—" and
  "Queens—".

Modules:

| file | module | contents |
|---|---|---|
| `wrappers.dfy` | `Wrappers` | `Option` |
| `seqs.dfy` | `Seqs` | `Dedup` (the first-occurrence order of `Array.from(new Set(..))`), subsequences, unions of sequences |
| `text.dfy` | `Text` | `split`/`join` on one character, `endsWith`, the ` - ` → `–` replacement, and JavaScript's string `<` |
| `topology.dfy` | `Topology` | station records, coordinates, `north` adjacency |
| `path_finder.dfy` | `PathFinder` | `findPath` as a method threading the shared visited list, its specification function, and lemmas |
| `route_geometry.dfy` | `RouteGeometry` | routing filter/normalise/orient/dedup, and `routingGeoJson` as a method over its specification |
| `offsets.dfy` | `Offsets` | the greedy offset allocation |
| `map_view.dfy` | `MapView`, `RebuildFacts` | the class `LineRenderer` holding the checksum, station sets and layers, and lemmas about a rebuild |
| `stop_icons.dfy` | `StopIcons` | `stopTypeIcon` |
| `selection.dfy` | `Selection` | `selectedTrain`, `selectedStation` |
| `station_details.dfy` | `StationDetails` | constants, `statusColor`, `shortenStationName`, `*Stops`, `sortDestinations` |
| `station_routes.dfy` | `StationRoutes` | `*Destinations` and `*Direction`: loop methods over specification folds, and lemmas |

Coordinates and latitudes are integers: the code only copies them and
compares them with `==`, `<` and `>`. JavaScript objects iterated with
`Object.keys` become sequences in key order, or maps where order does not
matter. `Set`s that are only tested for membership become Dafny sets.

## Model

| member | source | states |
|---|---|---|
| MapView.LineRenderer.constructor | src/app/mapbox.jsx:36-48 | every station starts with four empty sets; the location map is the one recorded station by station in key order, so every station's coordinate is in it |
| MapView.RecordedLastWins | src/app/mapbox.jsx:36-48 | a coordinate is recorded iff some station stands there, and then for the last such station in key order |
| MapView.LineRenderer.FetchRoutes | src/app/mapbox.jsx:91-97 | a fetched feed is rendered and its checksum stored; with an unchanged checksum the stations and layers stay as they were |
| MapView.LineRenderer.RenderLines | src/app/mapbox.jsx:134-300 | an unchanged checksum changes nothing; otherwise the stations become the rebuild of the feed, and the layers gain the layer drawn for each route in `trainIds` |
| MapView.LineRenderer.RebuildStations | src/app/mapbox.jsx:143-233 | after resetting every station, the sets equal the rebuild of the whole feed; it returns each route's stops and polylines |
| MapView.LineRenderer.AddRoutes | src/app/mapbox.jsx:154-233 | adding the routes one at a time gives the rebuild of the feed, whatever the key order |
| MapView.LineRenderer.AddNext | src/app/mapbox.jsx:155-232 | one more route takes the station sets, stops and polylines from the rebuild of the routes done so far to the rebuild with that route added |
| MapView.LineRenderer.AddRoute | src/app/mapbox.jsx:155-213 | one route adds its key to the north, south and passed sets of exactly its marked stations, and returns its stops and polylines |
| MapView.LineRenderer.MarkRoutings | src/app/mapbox.jsx:160-195 | returns the kept routings of one direction; the route is added to that direction's set of every station on them |
| MapView.LineRenderer.MarkRouting | src/app/mapbox.jsx:165-176 | one routing is normalised; the route is marked at each known station on it |
| MapView.LineRenderer.MarkPassedStations | src/app/mapbox.jsx:206-213 | the route joins `passed` at every station located at a coordinate of one of its polylines |
| MapView.LineRenderer.MarkPassedPath | src/app/mapbox.jsx:207-212 | the same, for one polyline |
| MapView.LineRenderer.DrawLayers | src/app/mapbox.jsx:239-263 | the layers gain one layer per route of `trainIds` that has one, with the greedily allocated offset |
| MapView.LineRenderer.DrawInOrder | src/app/mapbox.jsx:239-299 | walking any order of routes, the layers gain the layer of each route of the feed, with the offset greedily allocated in that order |
| RebuildFacts.RebuiltStations | src/app/mapbox.jsx:143-149 | a rebuild covers exactly the stations of the station data |
| RebuildFacts.RebuiltSetsFromFeed | src/app/mapbox.jsx:143-189 | after a rebuild `stops` is `northStops ∪ southStops`; all four sets hold only routes of the current feed |
| RebuildFacts.RebuiltNorthStops | src/app/mapbox.jsx:160-195 | a route is in `northStops` (`southStops`) exactly when one of its kept north (south) routings stops there |
| RebuildFacts.RouteStopsExact | src/app/mapbox.jsx:159-189 | `routeStops[key]` is exactly the set of stations whose `stops` holds the route |
| RebuildFacts.RebuiltPassed | src/app/mapbox.jsx:199-213 | a route is in `passed` exactly when one of its polylines goes through the station's recorded location |
| RouteGeometry.PassedStationsMembers | src/app/mapbox.jsx:206-213 | a station is passed exactly when some polyline goes through the location recorded for it |
| RebuildFacts.RebuiltConsistent | src/app/mapbox.jsx:165-189 | every stop of a route lists that route among those stopping there |
| RebuildFacts.DrawnLayers | src/app/mapbox.jsx:215-243 | layers are drawn exactly for the feed's routes that appear in `trainIds`, each with the route's polylines |
| RebuildFacts.DrawnOffsetsDistinct | src/app/mapbox.jsx:239-260 | two drawn routes that stop at a common station get different offsets |
| RouteGeometry.Prefixes | src/app/mapbox.jsx:165-173 | each stop id is cut to its first three characters, one for one |
| RouteGeometry.NormalizeKeepsKnownPrefixes | src/app/mapbox.jsx:165-176 | a normalised routing keeps exactly the known prefixes, in their original order |
| RouteGeometry.KeptMembers | src/app/mapbox.jsx:160-195 | a routing is kept iff every id carries the direction's marker; it is normalised, and reversed when southbound |
| RouteGeometry.RoutingsAreKeptRoutings | src/app/mapbox.jsx:196-197 | the drawn routings have no two equal sequences, and as a set they equal the kept north routings ∪ the reversed kept south routings |
| RouteGeometry.RoutingGeoJson | src/app/mapbox.jsx:302-315 | the pushed path equals the polyline specification, whose first leg is searched without the first stop recorded as visited and whose later legs each start a fresh search from the station; a routing of fewer than two stops gives an empty path |
| RouteGeometry.PushLeg | src/app/mapbox.jsx:304-313 | one step of the walk appends the first stop's coordinate, the searched curve (nothing when the search fails) and the second stop's coordinate; on the first pair the search starts past the visited check with nothing recorded |
| RouteGeometry.FirstLegRevisitsStart | src/app/mapbox.jsx:302-357 | on a `north` cycle back to the first stop, the first leg goes round it through the first stop again, while the same pair as a later leg does not |
| RouteGeometry.RoutingPathPolyline | src/app/mapbox.jsx:302-315 | the polyline of a routing runs through its stops' coordinates, with the first leg's curve from the search that skips the visited check and each later leg's from a fresh search |
| RouteGeometry.RoutingPathEnds | src/app/mapbox.jsx:302-315 | the polyline of two or more stops starts at the first stop's coordinate and ends at the last stop's |
| RouteGeometry.RoutingPathVisitsStops | src/app/mapbox.jsx:302-315 | the polyline contains every stop's coordinate in routing order |
| RouteGeometry.LaterLegsEnds | src/app/mapbox.jsx:306-313 | the legs after the first start at their first stop and end at their last |
| RouteGeometry.LaterLegsVisitStops | src/app/mapbox.jsx:306-313 | the legs after the first pass their stops in order |
| RouteGeometry.StraightEdgeRepeatsEnd | src/app/mapbox.jsx:338-341 | between stops joined by a straight edge, the polyline holds the end coordinate twice |
| RouteGeometry.Geometry | src/app/mapbox.jsx:199-204 | one polyline per drawn routing, in order |
| RouteGeometry.RoutingsGeoJson | src/app/mapbox.jsx:199-204 | the `map` over the drawn routings yields exactly that geometry |
| Topology.EdgeTo | src/app/mapbox.jsx:338 | the neighbour entry is found iff the adjacency lists that neighbour, and then its curve is returned |
| PathFinder.Find | src/app/mapbox.jsx:329-357 | a found path only comes from a station with a `north` adjacency |
| PathFinder.FindPath | src/app/mapbox.jsx:329-357 | nothing when `start` was visited or has no `north`; the edge's curve or `[end coordinate]` on a direct edge; nothing past depth 12 without one; `start` is appended to the shared visited list |
| PathFinder.ExpandFrom | src/app/mapbox.jsx:334-356 | the search after the visited check: nothing without `north`, the edge's curve or `[end coordinate]` on a direct edge, otherwise the neighbour loop |
| PathFinder.ScanNeighbours | src/app/mapbox.jsx:346-356 | the neighbour loop threads one visited list through all siblings, and the last successful neighbour's result wins |
| PathFinder.FindExtendsVisited | src/app/mapbox.jsx:330-333 | the visited list only grows, keeping its prefix |
| PathFinder.ScanExtendsVisited | src/app/mapbox.jsx:346-355 | the same for the neighbour loop |
| PathFinder.FindSound | src/app/mapbox.jsx:338-356 | every non-empty result is the coordinate trail of a walk along `north` edges that ends at `end` |
| PathFinder.ExpandSound | src/app/mapbox.jsx:334-356 | the same for the search after the visited check |
| PathFinder.ScanSound | src/app/mapbox.jsx:347-355 | the same for the neighbour loop |
| Offsets.TrainIdsDistinct | src/app/mapbox.jsx:28-31 | the fixed train order, written as its two source lines, names no route twice |
| Offsets.SmallestFreeFrom | src/app/mapbox.jsx:256-258 | the search from a held prefix ends at the smallest free offset |
| Offsets.SmallestFree | src/app/mapbox.jsx:244-258 | the offset is not held, and every smaller offset is |
| Offsets.CollectConflicts | src/app/mapbox.jsx:248-254 | the offsets held by already assigned routes that stop at one of the route's stops |
| Offsets.AssignAllKeys | src/app/mapbox.jsx:239-243 | exactly the routes of the order that have a layer get an offset |
| Offsets.AssignAllKeeps | src/app/mapbox.jsx:239-260 | an offset once assigned is never changed |
| Offsets.OffsetIsSmallestFree | src/app/mapbox.jsx:244-260 | each route's offset is the smallest not held by an earlier route sharing one of its stops |
| Offsets.SharedStopDistinctOffsets | src/app/mapbox.jsx:239-260 | routes sharing a stop get different offsets |
| Offsets.SharersHeld | src/app/mapbox.jsx:245-254 | the offset of every route that shares a stop with the route being placed is among its conflicts |
| Offsets.SharedStopDistinct | src/app/mapbox.jsx:239-260 | the same, for two given routes and the stop they share |
| StopIcons.StopTypeIcon | src/app/mapbox.jsx:438-484 | with a selected train, the icon says in which directions that train stops, with the cross only when nothing stops there; without one, the cross iff no train stops, and the express stop iff every passing train stops both ways |
| StopIcons.UnselectedIcons | src/app/mapbox.jsx:453-484 | without a selection, each of the one-direction icons, the two "-all-trains" icons and the circle is chosen exactly when its combination of empty directions and directions served by every passing train holds |
| StopIcons.RebuiltExpressStop | src/app/mapbox.jsx:455-462 | on rebuilt sets: express stop iff every passing train stops both ways; a passing train stopping nowhere rules it out |
| StopIcons.SelectedNotStopping | src/app/mapbox.jsx:439-452 | a selected train that does not stop gets the cross iff no train stops, otherwise the circle |
| Selection.SelectedIn | src/app/mapbox.jsx:114-132 | segment 2 of the path iff there are more than two segments and segment 1 names the section; the result holds no `/` |
| Selection.SelectedTrain | src/app/mapbox.jsx:114-122 | the selected train has no `/` |
| Selection.SelectedStation | src/app/mapbox.jsx:124-132 | the selected station has no `/` |
| Selection.TrainOrStation | src/app/mapbox.jsx:114-132 | no path selects a train and a station at once |
| Selection.SelectedRoundTrip | src/app/mapbox.jsx:114-122 | `/section/id…` selects something, and selects `id` iff the id is followed by nothing or by `/` |
| Text.DisplayNameHasNoSpacedHyphen | src/app/stationDetails.jsx:413 | no ` - ` is left after the replacement |
| Text.DisplayNameUnchanged | src/app/stationDetails.jsx:413 | a name without ` - ` is shown as is |
| Text.DisplayNameIdempotent | src/app/stationDetails.jsx:413 | replacing twice is replacing once |
| Text.BelowIrreflexive | src/app/stationDetails.jsx:406-408 | the name comparison is a strict order: irreflexive |
| Text.BelowTransitive | src/app/stationDetails.jsx:406-408 | transitive |
| Text.BelowTotal | src/app/stationDetails.jsx:406-408 | total on different names |
| Text.BelowAsymmetric | src/app/stationDetails.jsx:406-408 | asymmetric |
| StationDetails.StatusColor | src/app/stationDetails.jsx:67-77 | a colour for exactly the five known statuses; yellow exactly for "Not Good" and "Slow" |
| StationDetails.ShortenStationName | src/app/stationDetails.jsx:424-445 | a name without `–` is unchanged; otherwise the result is the name or one of its first two parts |
| StationDetails.ShortenTwoParts | src/app/stationDetails.jsx:424-437 | for "a–b": W 4 St and squares give a, a square second part gives b, two street names give the whole name |
| StationDetails.ShortenIdempotent | src/app/stationDetails.jsx:424-445 | shortening a shortened name changes nothing |
| StationDetails.Without | src/app/stationDetails.jsx:289 | the filter removes exactly the given train |
| StationDetails.StopsFor | src/app/stationDetails.jsx:284-296 | own list except at shuffled stations, where M is present iff the opposite direction has it, and the others are unchanged |
| StationDetails.StopsForNoDup | src/app/stationDetails.jsx:381-393 | the listed trains never repeat |
| StationDetails.InsertByName | src/app/stationDetails.jsx:402-409 | insertion adds exactly the element |
| StationDetails.InsertByNameSorted | src/app/stationDetails.jsx:402-409 | insertion keeps the name order |
| StationDetails.SortByName | src/app/stationDetails.jsx:402-409 | the sort is a permutation |
| StationDetails.SortByNameSorted | src/app/stationDetails.jsx:402-409 | the result is in name order |
| StationDetails.DisplayNames | src/app/stationDetails.jsx:409-413 | each destination is shown with its display name |
| StationDetails.SortDestinationsSpec | src/app/stationDetails.jsx:395-422 | nothing iff no destinations; otherwise one entry per distinct destination, in name order, each shown with its display name |
| StationDetails.PermutationNoDup | src/app/stationDetails.jsx:402 | sorting distinct destinations leaves them distinct |
| StationRoutes.Lookup | src/app/stationDetails.jsx:211 | `trains[key]` is found iff some train has that key |
| StationRoutes.CollectTerminals | src/app/stationDetails.jsx:202-206 | appends the last stop of every routing through the station, in order |
| StationRoutes.CollectDestinations | src/app/stationDetails.jsx:298-319 | the nested loops push exactly the specified destinations, in order |
| StationRoutes.TerminalsMembers | src/app/stationDetails.jsx:202-206 | x is collected iff some routing through the station ends at x |
| StationRoutes.TrainTerminalsMembers | src/app/stationDetails.jsx:198-208 | the same over all considered trains |
| StationRoutes.DestinationIdsMembers | src/app/stationDetails.jsx:298-319 | a destination iff a considered train's routing through the station ends there, or at a shuffled station one of the M train's opposite routings does |
| StationRoutes.Destinations | src/app/stationDetails.jsx:298-322 | the destinations of a direction, sorted and shown by name |
| StationRoutes.IndexOf | src/app/stationDetails.jsx:237 | the first occurrence of the station |
| StationRoutes.BoroughNames | src/app/stationDetails.jsx:365 | each borough code is mapped through the borough table, unknown codes kept |
| StationRoutes.VisitStops | src/app/stationDetails.jsx:334-345 | the stop loop computes the specified walk step by step |
| StationRoutes.VisitRoutings | src/app/stationDetails.jsx:332-348 | the routing loop computes the specified walk |
| StationRoutes.VisitTrains | src/app/stationDetails.jsx:329-350 | the train loop computes the specified walk |
| StationRoutes.PlatformDirection | src/app/stationDetails.jsx:324-379 | the caption equals the specified direction text |
| StationRoutes.WalkStopsBoroughs | src/app/stationDetails.jsx:335-337 | a borough is gathered iff a stop lies in it and it is not the station's own; no borough twice |
| StationRoutes.WalkStopsLabel | src/app/stationDetails.jsx:338-343 | the label is set iff allowed and a same-borough stop lies further in the direction |
| StationRoutes.WalkRoutingsBoroughs | src/app/stationDetails.jsx:332-348 | the same over the stops after the station on each routing through it |
| StationRoutes.WalkRoutingsLabel | src/app/stationDetails.jsx:332-348 | the same for the label |
| StationRoutes.WalkTrainsBoroughs | src/app/stationDetails.jsx:329-350 | the same over the considered trains |
| StationRoutes.WalkTrainsLabel | src/app/stationDetails.jsx:329-350 | the same for the label |
| StationRoutes.ReachOnTrainsSnoc | src/app/stationDetails.jsx:329-350 | reaching a borough splits at the last train |
| StationRoutes.LabelOnTrainsSnoc | src/app/stationDetails.jsx:329-350 | reaching a labelling stop splits at the last train |
| StationRoutes.DirectionBoroughs | src/app/stationDetails.jsx:329-363 | the listed boroughs are distinct, and are exactly the other boroughs after the station on the walked routings, including the M train's opposite routings at shuffled stations |
| StationRoutes.DirectionLabel | src/app/stationDetails.jsx:334-363 | Uptown/Downtown iff the station is in M or Bx, is not exempt, and a considered routing reaches a same-borough stop further that way; the M pass never sets it |
| StationRoutes.DirectionTextShape | src/app/stationDetails.jsx:222-282 | nothing for southbound M18, or when neither label nor borough was found; otherwise the text ends with "—\n" and starts with the label when set |
| StationRoutes.ListTextStarts | src/app/stationDetails.jsx:278-281 | the "x, y & z" text starts with its first item |

## Left out

- Mapbox GL calls are foreign library side effects: adding and removing layers and sources, click and hover handlers, paint properties, camera moves, and bounds arithmetic. The model records each drawn layer as a value: its polylines and its offset index.
- Line-offset pixels and opacity are presentation. The `offsetMap`/`textOffsetMap` tables and the 0.1/1 line opacities are not modelled; only the offset index is, without a cap.
- Network fetches, `setInterval` polling and `setState` are I/O and timing. The feed is a parameter of `FetchRoutes`/`RenderLines`, and `this.state.checksum` is the `checksum` field.
- `renderStops`/`stopsGeoJson` only package `stopTypeIcon`'s answer for the map, so they are not modelled. `renderArrivalTimes` depends on the clock and float arithmetic. Cookies, `gtag`, `navigator.share` and all JSX rendering are browser I/O.
- Station transfers (`src/app/mapbox.jsx:46-53`) play no part in any modelled operation.
- StationDetails.SortDestinations and StationRoutes.Destinations model the `link` = false path only. The result is the sequence of display names. The JSX `reduce` that interleaves ", " and the `<Link>` nodes are rendering.
- StationDetails.SortDestinations: requires every destination to be a known station, since the comparator reads `stations[a].name`. When there is a single distinct unknown destination, the comparator is never called and the source yields an undefined entry instead.
- Text.Below: compares strings code point by code point, while JavaScript's `<` compares UTF-16 code units. The two differ only between characters outside the Basic Multilingual Plane and the surrogate range.
- StationRoutes.Destinations, StationRoutes.PlatformDirection: require the M train to be present at shuffled stations, and every stop read to be a known station. On such input the source throws reading `trains["M"]` or `stations[stationId]`; throwing is not modelled.
- A feed train whose `actual_routings`, or one of its directions, is missing is modelled with empty routings. `?.forEach` does nothing on such input, so the result is the same.
- Key order of JavaScript objects is modelled as a given sequence: the station data's keys in the constructor, the feed trains in `StationRoutes`, and each station's `north` entries in `PathFinder`.
- StationRoutes.BoroughName: looks up only the table's own keys. A borough code such as `constructor` would find an inherited JavaScript property; no station carries such a code.
- MapView.LineRenderer.RenderLines: the selected station is not an input. When the page path selects a station id absent from the station data, the source throws at `stations[selectedStation].stops` (src/app/mapbox.jsx:271-273) while drawing the first route, before any `addLayer`. No layer is then added or replaced, although the station sets have already been rebuilt. The contract describes a run without that throw.
- MapView.LineRenderer.FetchRoutes: with such an unknown selected station, the throw in `renderLines` also skips the `setState` of src/app/mapbox.jsx:96. The checksum is never stored and every later poll throws again. The contract describes a run without that throw.
- MapView.LineRenderer.RenderLines: layers of routes absent from a new feed are kept, as in the source, which removes only the layers it redraws. Clicking a layer is not modelled.

## Code and design

The model follows the code in these behaviours, which a reader of the design might not expect:

- `findPath` shares one `stopsVisited` array across all sibling branches. A station reached through one neighbour is therefore never tried through a later one, even on a different path (`PathFinder.ScanNeighbours`).
- Among several successful neighbours, the last one in key order wins, not the first or the shortest (`PathFinder.ScanNeighbours`).
- A direct edge with an empty curve returns `[end coordinate]`, which `routingGeoJson` then pushes again. The end coordinate therefore appears twice instead of once (`RouteGeometry.StraightEdgeRepeatsEnd`).
- The first leg of a routing starts from the array that `splice` returns, so the visited check never matches the first stop. A `north` cycle back to it is then walked instead of being cut off (`RouteGeometry.FirstLegRevisitsStart`).
- A coordinate shared by several stations is recorded for the last of them in key order; the earlier ones can never be marked as passed (`MapView.RecordedLastWins`, `RebuildFacts.RebuiltPassed`).
- The boroughs of a direction caption are listed in first-encounter order, not sorted by name (`StationRoutes.DirectionBoroughs`).
