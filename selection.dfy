/** `selectedTrain` and `selectedStation` (src/app/mapbox.jsx:114-132): the
    train or station named by the page's path, `/trains/<id>` or
    `/stations/<id>`. */
module Selection {
  import opened Wrappers
  import opened Text

  /** Segment 2 of the path when segment 1 is `section`. */
  function SelectedIn(pathname: string, section: string): (r: Option<string>)
    ensures r.Some? ==> '/' !in r.value
    ensures r.Some? <==> |Split(pathname, '/')| > 2 && Split(pathname, '/')[1] == section
  {
    var parts := Split(pathname, '/');
    if |parts| > 2 && parts[1] == section then Some(parts[2]) else None
  }

  function SelectedTrain(pathname: string): (r: Option<string>)
    ensures r.Some? ==> '/' !in r.value
  {
    SelectedIn(pathname, "trains")
  }

  function SelectedStation(pathname: string): (r: Option<string>)
    ensures r.Some? ==> '/' !in r.value
  {
    SelectedIn(pathname, "stations")
  }

  /** A path never selects a train and a station at once. */
  lemma TrainOrStation(pathname: string)
    ensures SelectedTrain(pathname).None? || SelectedStation(pathname).None?
  {
  }

  /** The path of a section's page selects its id: `/trains/A` and
      `/trains/A/...` select train A; a path that continues the id with
      other characters selects a different id. */
  lemma {:induction false} SelectedRoundTrip(section: string, id: string, rest: string)
    requires '/' !in section && '/' !in id
    ensures SelectedIn("/" + section + "/" + id + rest, section).Some?
    ensures SelectedIn("/" + section + "/" + id + rest, section).value == id <==> rest == [] || rest[0] == '/'
  {
    var p := "/" + section + "/" + id + rest;
    SplitAtSeparator("", '/', section + "/" + id + rest);
    assert p == "" + "/" + (section + "/" + id + rest);
    SplitAtSeparator(section, '/', id + rest);
    assert section + "/" + id + rest == section + "/" + (id + rest);
    if rest == [] {
      SplitNoSeparator(id, '/');
      assert id + rest == id;
    } else if rest[0] == '/' {
      SplitAtSeparator(id, '/', rest[1..]);
      assert id + rest == id + "/" + rest[1..];
    } else {
      SplitPrefix(id, rest);
    }
  }

  /** A piece continues past a separator-free prefix: the first piece of
      `a + b` starts with `a` followed by `b`'s first character. */
  lemma {:induction false} SplitPrefix(a: string, b: string)
    requires '/' !in a && b != [] && b[0] != '/'
    ensures Split(a + b, '/')[0] != a
    ensures |Split(a + b, '/')[0]| > |a|
  {
    if a == [] {
      assert a + b == b;
    } else {
      SplitPrefix(a[1..], b);
      assert (a + b)[1..] == a[1..] + b;
    }
  }
}
