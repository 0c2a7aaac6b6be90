/** The derivations of the station panel (src/app/stationDetails.jsx) that
    do not walk the train routings: its constants, `statusColor`,
    `shortenStationName`, `northStops`/`southStops` and `sortDestinations`. */
module StationDetails {
  import opened Wrappers
  import opened Seqs
  import opened Text

  type StationId = string
  type TrainKey = string

  /** A station as the panel reads it: its name, borough code, latitude
      (only compared) and the trains stopping at it northbound and
      southbound, in the insertion order of the sets they come from. */
  datatype Station = Station(id: StationId, name: string, borough: string, latitude: int,
                             northStops: seq<TrainKey>, southStops: seq<TrainKey>)

  datatype Direction = North | South

  function Opposite(d: Direction): Direction
  {
    if d == North then South else North
  }

  /** Lines 17-34. Between Essex St and Myrtle Av the M train's directions
      are swapped so that they match the J and Z trains'. */
  const MTrainShuffle: seq<StationId> := ["M21", "M20", "M19", "M18", "M16", "M14", "M13", "M12", "M11"]

  const ExemptFromUptownDowntown: set<StationId> :=
    {"901", "902", "723", "724", "725", "726", "L06", "L05", "L03", "L02", "L01"}

  const ExemptFromSouth: set<StationId> := {"M18"}

  const Boroughs: map<string, string> :=
    map["M" := "Manhattan", "Bx" := "The Bronx", "Bk" := "Brooklyn", "Q" := "Queens", "SI" := "Staten Island"]

  const StreetNameSuffixes: seq<string> := ["St", "Av", "Dr", "Blvd", "Rd"]

  predicate Shuffled(id: StationId)
  {
    id in MTrainShuffle
  }

  // ---------------------------------------------------------------- status

  datatype Color = Green | Orange | Yellow | Red

  /** Lines 67-77: the colour of a service status; none for any other text. */
  function StatusColor(status: string): (c: Option<Color>)
    ensures c.None? <==> status !in {"Good Service", "Service Change", "Not Good", "Slow", "Delay"}
    ensures c == Some(Yellow) <==> status == "Not Good" || status == "Slow"
  {
    if status == "Good Service" then Some(Green)
    else if status == "Service Change" then Some(Orange)
    else if status == "Not Good" || status == "Slow" then Some(Yellow)
    else if status == "Delay" then Some(Red)
    else None
  }

  // ------------------------------------------------------------ short name

  predicate HasStreetSuffix(s: string)
  {
    exists i :: 0 <= i < |StreetNameSuffixes| && EndsWith(s, StreetNameSuffixes[i])
  }

  /** Lines 424-445: the part of a two-part name ("A–B") the panel shows. */
  function ShortenStationName(name: string): (r: string)
    ensures EnDash !in name ==> r == name
    ensures r == name || (|Split(name, EnDash)| >= 2 && (r == Split(name, EnDash)[0] || r == Split(name, EnDash)[1]))
  {
    var parts := Split(name, EnDash);
    SplitUndashed(name);
    if |parts| == 1 then SplitWhole(name, EnDash); parts[0]
    else if parts[0] == "W 4 St" then parts[0]
    else if EndsWith(parts[0], "Sq") then parts[0]
    else if EndsWith(parts[1], "Sq") then parts[1]
    else if HasStreetSuffix(parts[0]) && HasStreetSuffix(parts[1]) then name
    else if parts[0] in ["Far Rockaway", "Rockaway Park"] then parts[0]
    else if parts[0] == "Jamaica" || parts[0] == "Mets" then name
    else if HasStreetSuffix(parts[1]) then parts[1]
    else parts[0]
  }

  lemma SplitUndashed(name: string)
    ensures EnDash !in name ==> Split(name, EnDash) == [name]
  {
    if EnDash !in name {
      SplitNoSeparator(name, EnDash);
    }
  }

  /** The one-part name is the name itself. */
  lemma {:induction false} SplitWhole(name: string, sep: char)
    requires |Split(name, sep)| == 1
    ensures Split(name, sep)[0] == name
  {
    JoinSplit(name, sep);
  }

  /** A shortened name that is not the whole name has no dash left, so
      shortening it again changes nothing. */
  lemma ShortenIdempotent(name: string)
    ensures ShortenStationName(ShortenStationName(name)) == ShortenStationName(name)
  {
    var r := ShortenStationName(name);
    if r != name {
      var parts := Split(name, EnDash);
      assert EnDash !in parts[0] && EnDash !in parts[|parts| - 1];
      if |parts| == 1 {
        SplitWhole(name, EnDash);
      }
    }
  }

  /** For a two-part name "a–b" the rules pick, in line order: the first
      part for W 4 St and the squares, the second part when it is a square,
      the whole name when both parts are streets, and always one of a, b or
      the whole name. */
  lemma ShortenTwoParts(a: string, b: string)
    requires EnDash !in a && EnDash !in b
    ensures var r := ShortenStationName(a + [EnDash] + b);
      && (r == a || r == b || r == a + [EnDash] + b)
      && (a == "W 4 St" || EndsWith(a, "Sq") ==> r == a)
      && (a != "W 4 St" && !EndsWith(a, "Sq") && EndsWith(b, "Sq") ==> r == b)
      && (a != "W 4 St" && !EndsWith(a, "Sq") && !EndsWith(b, "Sq") && HasStreetSuffix(a) && HasStreetSuffix(b)
          ==> r == a + [EnDash] + b)
  {
    SplitAtSeparator(a, EnDash, b);
    SplitNoSeparator(b, EnDash);
  }

  // ----------------------------------------------------------------- stops

  function OwnStops(station: Station, d: Direction): seq<TrainKey>
  {
    if d == North then station.northStops else station.southStops
  }

  /** `s.filter((t) => t !== x)`. */
  function Without(s: seq<TrainKey>, x: TrainKey): (r: seq<TrainKey>)
    ensures x !in r
    ensures forall y :: y in r <==> y in s && y != x
  {
    if s == [] then []
    else if s[|s| - 1] == x then Without(s[..|s| - 1], x)
    else
      assert forall y :: y in s <==> y in s[..|s| - 1] || y == s[|s| - 1] by {
        assert s == s[..|s| - 1] + [s[|s| - 1]];
      }
      Without(s[..|s| - 1], x) + [s[|s| - 1]]
  }

  lemma {:induction false} WithoutNoDup(s: seq<TrainKey>, x: TrainKey)
    requires NoDup(s)
    ensures NoDup(Without(s, x))
  {
    if s != [] {
      assert NoDup(s[..|s| - 1]);
      WithoutNoDup(s[..|s| - 1], x);
      assert s[|s| - 1] !in s[..|s| - 1];
    }
  }

  lemma {:induction false} WithoutAbsent(s: seq<TrainKey>, x: TrainKey)
    requires x !in s
    ensures Without(s, x) == s
  {
    if s != [] {
      WithoutAbsent(s[..|s| - 1], x);
      assert s == s[..|s| - 1] + [s[|s| - 1]];
    }
  }

  /** Lines 284-296 (`southStops`) and 381-393 (`northStops`): the trains
      listed for a direction. At a shuffled station the M train is taken
      from the opposite direction's set and moved to the end. */
  function StopsFor(station: Station, d: Direction): (r: seq<TrainKey>)
    ensures !Shuffled(station.id) ==> r == OwnStops(station, d)
    ensures Shuffled(station.id) ==> ("M" in r <==> "M" in OwnStops(station, Opposite(d)))
    ensures Shuffled(station.id) ==> Without(r, "M") == Without(OwnStops(station, d), "M")
  {
    if Shuffled(station.id) then
      var kept := Without(OwnStops(station, d), "M");
      WithoutAbsent(kept, "M");
      if "M" in OwnStops(station, Opposite(d)) then
        WithoutAppend(kept, "M");
        kept + ["M"]
      else kept
    else OwnStops(station, d)
  }

  lemma WithoutAppend(s: seq<TrainKey>, x: TrainKey)
    requires x !in s
    ensures Without(s + [x], x) == s
  {
    assert (s + [x])[..|s|] == s;
    WithoutAbsent(s, x);
  }

  /** The listed trains never repeat one, as the sets they come from do not. */
  lemma StopsForNoDup(station: Station, d: Direction)
    requires NoDup(station.northStops) && NoDup(station.southStops)
    ensures NoDup(StopsFor(station, d))
  {
    if Shuffled(station.id) {
      WithoutNoDup(OwnStops(station, d), "M");
    }
  }

  // ---------------------------------------------------------- destinations

  /** `stations[x].name` compared with JavaScript's `<`. */
  predicate NameBelow(stations: map<StationId, Station>, a: StationId, b: StationId)
    requires a in stations && b in stations
  {
    Below(stations[a].name, stations[b].name)
  }

  /** No later element's name is below an earlier one's. */
  predicate SortedByName(stations: map<StationId, Station>, s: seq<StationId>)
    requires forall x :: x in s ==> x in stations
  {
    forall i, j :: 0 <= i < j < |s| ==> !NameBelow(stations, s[j], s[i])
  }

  /** Inserts x after every element whose name is not above x's name. */
  function InsertByName(stations: map<StationId, Station>, x: StationId, s: seq<StationId>): (r: seq<StationId>)
    requires x in stations && forall y :: y in s ==> y in stations
    ensures multiset(r) == multiset(s) + multiset{x}
    ensures forall y :: y in r ==> y in stations
  {
    if s == [] then [x]
    else if NameBelow(stations, x, s[0]) then [x] + s
    else
      assert s == [s[0]] + s[1..];
      [s[0]] + InsertByName(stations, x, s[1..])
  }

  lemma {:induction false} InsertByNameSorted(stations: map<StationId, Station>, x: StationId, s: seq<StationId>)
    requires x in stations && forall y :: y in s ==> y in stations
    requires SortedByName(stations, s)
    ensures SortedByName(stations, InsertByName(stations, x, s))
  {
    if s == [] {
    } else if NameBelow(stations, x, s[0]) {
      PrependSorted(stations, x, s);
    } else {
      var rest := InsertByName(stations, x, s[1..]);
      InsertByNameSorted(stations, x, s[1..]);
      var r := [s[0]] + rest;
      forall j | 0 < j < |r| ensures !NameBelow(stations, r[j], s[0]) {
        assert r[j] in multiset(rest);
        if r[j] != x {
          assert r[j] in multiset(s[1..]);
          var k :| 0 <= k < |s[1..]| && s[1..][k] == r[j];
          assert s[k + 1] == r[j];
        }
      }
    }
  }

  /** An element whose name is below the first of a sorted sequence can go
      in front of it. */
  lemma PrependSorted(stations: map<StationId, Station>, x: StationId, s: seq<StationId>)
    requires x in stations && forall y :: y in s ==> y in stations
    requires SortedByName(stations, s) && s != [] && NameBelow(stations, x, s[0])
    ensures SortedByName(stations, [x] + s)
  {
    var r := [x] + s;
    forall j | 1 <= j < |r| ensures !NameBelow(stations, r[j], x) {
      assert r[j] == s[j - 1];
      if NameBelow(stations, r[j], x) {
        BelowTransitive(stations[r[j]].name, stations[x].name, stations[s[0]].name);
        if j == 1 {
          BelowIrreflexive(stations[s[0]].name);
        }
      }
    }
    assert forall i, j :: 1 <= i < j < |r| ==> r[i] == s[i - 1] && r[j] == s[j - 1];
  }

  /** `Array.prototype.sort` with the name comparator of lines 402-409: a
      stable sort by name, here an insertion sort that inserts each element
      after the equal names already placed. */
  function SortByName(stations: map<StationId, Station>, s: seq<StationId>): (r: seq<StationId>)
    requires forall y :: y in s ==> y in stations
    ensures multiset(r) == multiset(s)
    ensures forall y :: y in r ==> y in stations
  {
    if s == [] then []
    else
      var init := s[..|s| - 1];
      assert s == init + [s[|s| - 1]];
      InsertByName(stations, s[|s| - 1], SortByName(stations, init))
  }

  lemma {:induction false} SortByNameSorted(stations: map<StationId, Station>, s: seq<StationId>)
    requires forall y :: y in s ==> y in stations
    ensures SortedByName(stations, SortByName(stations, s))
  {
    if s != [] {
      var init := s[..|s| - 1];
      assert s == init + [s[|s| - 1]];
      SortByNameSorted(stations, init);
      InsertByNameSorted(stations, s[|s| - 1], SortByName(stations, init));
    }
  }

  /** The displayed name of each station of `ids`. */
  function DisplayNames(stations: map<StationId, Station>, ids: seq<StationId>): (r: seq<string>)
    requires forall y :: y in ids ==> y in stations
    ensures |r| == |ids|
    ensures forall i :: 0 <= i < |ids| ==> r[i] == DisplayName(stations[ids[i]].name)
  {
    if ids == [] then [] else [DisplayName(stations[ids[0]].name)] + DisplayNames(stations, ids[1..])
  }

  /** Lines 395-422 with `link` false: nothing for no destinations;
      otherwise the distinct destinations sorted by name, each shown with
      its display name. */
  function SortDestinations(stations: map<StationId, Station>, ids: seq<StationId>): (r: Option<seq<string>>)
    requires forall y :: y in ids ==> y in stations
  {
    if |ids| == 0 then None
    else
      var unique := Dedup(ids);
      Some(DisplayNames(stations, SortByName(stations, unique)))
  }

  /** The destinations listed: one per distinct destination, in name order,
      each destination's displayed name, and nothing exactly when there
      were none. */
  lemma SortDestinationsSpec(stations: map<StationId, Station>, ids: seq<StationId>)
    requires forall y :: y in ids ==> y in stations
    ensures SortDestinations(stations, ids).None? <==> ids == []
    ensures ids != [] ==>
      var order := SortByName(stations, Dedup(ids));
      && NoDup(order)
      && (forall x :: x in order <==> x in ids)
      && SortedByName(stations, order)
      && SortDestinations(stations, ids).value == DisplayNames(stations, order)
  {
    if ids != [] {
      var unique := Dedup(ids);
      var order := SortByName(stations, unique);
      SortByNameSorted(stations, unique);
      PermutationNoDup(unique, order);
      assert forall x :: x in order <==> x in multiset(unique);
    }
  }

  /** A permutation of a duplicate-free sequence is duplicate-free. */
  lemma PermutationNoDup(a: seq<StationId>, b: seq<StationId>)
    requires NoDup(a) && multiset(a) == multiset(b)
    ensures NoDup(b)
  {
    forall i, j | 0 <= i < j < |b| ensures b[i] != b[j] {
      if b[i] == b[j] {
        assert multiset(b)[b[i]] >= 2 by {
          assert b == b[..i] + [b[i]] + b[i + 1..j] + [b[j]] + b[j + 1..];
        }
        NoDupCount(a, b[i]);
      }
    }
  }

  lemma {:induction false} NoDupCount(a: seq<StationId>, x: StationId)
    requires NoDup(a)
    ensures multiset(a)[x] <= 1
  {
    if a != [] {
      assert a == [a[0]] + a[1..];
      assert NoDup(a[1..]);
      NoDupCount(a[1..], x);
    }
  }
}
