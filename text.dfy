/** String operations the source takes from JavaScript: `split` on one
    character, `endsWith`, the global replacement of " - " by an en dash that
    every displayed station name goes through, and the ordering of `<` on
    strings. */
module Text {

  /** The en dash (U+2013) that station names are displayed with. */
  const EnDash: char := '–'

  /** `s.split(sep)` for a one-character separator: the pieces between the
      separators, empty pieces included. */
  function Split(s: string, sep: char): (parts: seq<string>)
    ensures |parts| >= 1
    ensures forall i :: 0 <= i < |parts| ==> sep !in parts[i]
  {
    if s == [] then [""]
    else if s[0] == sep then [""] + Split(s[1..], sep)
    else
      var rest := Split(s[1..], sep);
      [[s[0]] + rest[0]] + rest[1..]
  }

  /** `parts.join(sep)`. */
  function Join(parts: seq<string>, sep: string): string
  {
    if parts == [] then ""
    else if |parts| == 1 then parts[0]
    else parts[0] + sep + Join(parts[1..], sep)
  }

  /** Joining the pieces of a split gives back the string. */
  lemma {:induction false} JoinSplit(s: string, sep: char)
    ensures Join(Split(s, sep), [sep]) == s
  {
    if s != [] {
      JoinSplit(s[1..], sep);
      var rest := Split(s[1..], sep);
      if s[0] == sep {
        assert Split(s, sep) == [""] + rest;
        assert ([""] + rest)[1..] == rest;
        assert s == [sep] + s[1..];
      } else if |rest| == 1 {
        assert s == [s[0]] + s[1..];
      } else {
        var parts := Split(s, sep);
        assert parts[1..] == rest[1..];
        assert Join(parts, [sep]) == [s[0]] + (rest[0] + [sep] + Join(rest[1..], [sep]));
        assert s == [s[0]] + s[1..];
      }
    }
  }

  lemma {:induction false} SplitNoSeparator(a: string, sep: char)
    requires sep !in a
    ensures Split(a, sep) == [a]
  {
    if a != [] {
      SplitNoSeparator(a[1..], sep);
      assert a == [a[0]] + a[1..];
    }
  }

  lemma {:induction false} SplitAtSeparator(a: string, sep: char, rest: string)
    requires sep !in a
    ensures Split(a + [sep] + rest, sep) == [a] + Split(rest, sep)
  {
    var s := a + [sep] + rest;
    if a == [] {
      assert s[1..] == rest;
    } else {
      SplitAtSeparator(a[1..], sep, rest);
      assert s[1..] == a[1..] + [sep] + rest;
      assert a == [a[0]] + a[1..];
    }
  }

  /** Splitting a join of separator-free pieces gives back the pieces. */
  lemma {:induction false} SplitJoin(parts: seq<string>, sep: char)
    requires |parts| >= 1
    requires forall i :: 0 <= i < |parts| ==> sep !in parts[i]
    ensures Split(Join(parts, [sep]), sep) == parts
  {
    if |parts| == 1 {
      SplitNoSeparator(parts[0], sep);
    } else {
      SplitJoin(parts[1..], sep);
      SplitAtSeparator(parts[0], sep, Join(parts[1..], [sep]));
      assert parts == [parts[0]] + parts[1..];
    }
  }

  /** `s.endsWith(suffix)`. */
  predicate EndsWith(s: string, suffix: string)
  {
    |suffix| <= |s| && s[|s| - |suffix|..] == suffix
  }

  /** " - " (space, hyphen, space) starts at index i of s. */
  predicate SpacedHyphenAt(s: string, i: nat)
  {
    i + 3 <= |s| && s[i] == ' ' && s[i + 1] == '-' && s[i + 2] == ' '
  }

  predicate HasSpacedHyphen(s: string)
  {
    exists i: nat | i < |s| :: SpacedHyphenAt(s, i)
  }

  /** `name.replace(/ - /g, "–")`: the name as the map and the station panel
      display it. Matches are found left to right and do not overlap. */
  function DisplayName(name: string): (r: string)
    ensures |r| <= |name|
  {
    if SpacedHyphenAt(name, 0) then [EnDash] + DisplayName(name[3..])
    else if name == [] then []
    else [name[0]] + DisplayName(name[1..])
  }

  /** A displayed name never contains " - ": the replacement is complete. */
  lemma {:induction false} DisplayNameHasNoSpacedHyphen(name: string)
    ensures !HasSpacedHyphen(DisplayName(name))
  {
    var r := DisplayName(name);
    if SpacedHyphenAt(name, 0) {
      DisplayNameHasNoSpacedHyphen(name[3..]);
      var tail := DisplayName(name[3..]);
      forall i: nat ensures !SpacedHyphenAt(r, i) {
        if i > 0 && SpacedHyphenAt(r, i) {
          assert SpacedHyphenAt(tail, i - 1);
        }
      }
    } else if name != [] {
      DisplayNameHasNoSpacedHyphen(name[1..]);
      var tail := DisplayName(name[1..]);
      forall i: nat ensures !SpacedHyphenAt(r, i) {
        if i > 0 && SpacedHyphenAt(r, i) {
          assert SpacedHyphenAt(tail, i - 1);
        }
      }
    }
  }

  /** A name without " - " is displayed as it is. */
  lemma {:induction false} DisplayNameUnchanged(name: string)
    requires !HasSpacedHyphen(name)
    ensures DisplayName(name) == name
  {
    assert !SpacedHyphenAt(name, 0);
    if name != [] {
      forall i: nat ensures !SpacedHyphenAt(name[1..], i) {
        assert !SpacedHyphenAt(name, i + 1);
      }
      DisplayNameUnchanged(name[1..]);
      assert name == [name[0]] + name[1..];
    }
  }

  /** Displaying a displayed name changes nothing. */
  lemma DisplayNameIdempotent(name: string)
    ensures DisplayName(DisplayName(name)) == DisplayName(name)
  {
    DisplayNameHasNoSpacedHyphen(name);
    DisplayNameUnchanged(DisplayName(name));
  }

  /** JavaScript's `a < b` on strings: lexicographic by character, a proper
      prefix coming first. */
  predicate Below(a: string, b: string)
  {
    if a == [] then b != []
    else if b == [] then false
    else if a[0] != b[0] then a[0] < b[0]
    else Below(a[1..], b[1..])
  }

  lemma {:induction false} BelowIrreflexive(a: string)
    ensures !Below(a, a)
  {
    if a != [] {
      BelowIrreflexive(a[1..]);
    }
  }

  lemma {:induction false} BelowTransitive(a: string, b: string, c: string)
    requires Below(a, b) && Below(b, c)
    ensures Below(a, c)
  {
    if a != [] && b != [] && c != [] && a[0] == b[0] == c[0] {
      BelowTransitive(a[1..], b[1..], c[1..]);
    }
  }

  lemma {:induction false} BelowTotal(a: string, b: string)
    requires a != b
    ensures Below(a, b) || Below(b, a)
  {
    if a != [] && b != [] && a[0] == b[0] {
      assert a == [a[0]] + a[1..] && b == [b[0]] + b[1..];
      BelowTotal(a[1..], b[1..]);
    }
  }

  lemma {:induction false} BelowAsymmetric(a: string, b: string)
    requires Below(a, b)
    ensures !Below(b, a)
  {
    if a != [] && b != [] && a[0] == b[0] {
      BelowAsymmetric(a[1..], b[1..]);
    }
  }
}
