/** `parseGeolocation` of components/MapView.tsx: a "lat, lng" string is
    split on commas, the first two fields are trimmed and parsed as numbers,
    and the pair is kept only when both parse and lie within the latitude and
    longitude ranges. JavaScript's `parseFloat` is given as a parameter:
    `None` stands for `NaN` (and for the infinities, which the range checks
    reject anyway). */
module MapView {
  import opened Wrappers

  /** The characters `String.prototype.trim` strips: the ECMAScript
      WhiteSpace and LineTerminator characters. */
  predicate IsWhitespace(c: char) {
    c == ' ' || c == '\t' || c == '\n' || c == '\r' ||
    c == '\U{000B}' || c == '\U{000C}' || c == '\U{00A0}' || c == '\U{1680}' ||
    ('\U{2000}' <= c <= '\U{200A}') ||
    c == '\U{2028}' || c == '\U{2029}' || c == '\U{202F}' || c == '\U{205F}' ||
    c == '\U{3000}' || c == '\U{FEFF}'
  }

  predicate AllWhitespace(s: string) {
    forall k :: 0 <= k < |s| ==> IsWhitespace(s[k])
  }

  /** Leading whitespace removed: `r` is a suffix of `s`, what was cut is all
      whitespace, and `r` does not start with whitespace. */
  function TrimStart(s: string): (r: string)
    ensures |r| <= |s| && r == s[|s| - |r|..]
    ensures AllWhitespace(s[..|s| - |r|])
    ensures r == [] || !IsWhitespace(r[0])
    decreases |s|
  {
    if s != [] && IsWhitespace(s[0]) then
      var r := TrimStart(s[1..]);
      assert s[..|s| - |r|] == [s[0]] + s[1..][..|s[1..]| - |r|];
      r
    else s
  }

  /** Trailing whitespace removed: `r` is a prefix of `s`, what was cut is
      all whitespace, and `r` does not end with whitespace. */
  function TrimEnd(s: string): (r: string)
    ensures |r| <= |s| && r == s[..|r|]
    ensures AllWhitespace(s[|r|..])
    ensures r == [] || !IsWhitespace(r[|r| - 1])
    decreases |s|
  {
    if s != [] && IsWhitespace(s[|s| - 1]) then
      var r := TrimEnd(s[..|s| - 1]);
      assert s[|r|..] == s[..|s| - 1][|r|..] + [s[|s| - 1]];
      r
    else s
  }

  /** `String.prototype.trim`. */
  function Trim(s: string): (r: string)
    ensures r == [] || (!IsWhitespace(r[0]) && !IsWhitespace(r[|r| - 1]))
  {
    var t := TrimStart(s);
    var r := TrimEnd(t);
    assert r != [] ==> r[0] == t[0];
    r
  }

  /** Stripping whitespace off a string that has none at its ends. */
  lemma {:induction false} TrimStartPadded(w: string, core: string)
    requires AllWhitespace(w)
    requires core == [] || !IsWhitespace(core[0])
    ensures TrimStart(w + core) == core
    decreases |w|
  {
    if w != [] {
      assert (w + core)[1..] == w[1..] + core;
      TrimStartPadded(w[1..], core);
    } else {
      assert w + core == core;
    }
  }

  lemma {:induction false} TrimEndPadded(core: string, w: string)
    requires AllWhitespace(w)
    requires core == [] || !IsWhitespace(core[|core| - 1])
    ensures TrimEnd(core + w) == core
    decreases |w|
  {
    if w != [] {
      assert (core + w)[..|core + w| - 1] == core + w[..|w| - 1];
      TrimEndPadded(core, w[..|w| - 1]);
    } else {
      assert core + w == core;
    }
  }

  /** `trim` gives back exactly the text between leading and trailing
      whitespace. */
  lemma TrimPadded(w1: string, core: string, w2: string)
    requires AllWhitespace(w1) && AllWhitespace(w2)
    requires core == [] || (!IsWhitespace(core[0]) && !IsWhitespace(core[|core| - 1]))
    ensures Trim(w1 + core + w2) == core
  {
    if core == [] {
      assert w1 + core + w2 == w1 + w2;
      assert AllWhitespace(w1 + w2);
      TrimStartPadded(w1 + w2, []);
      assert w1 + w2 + [] == w1 + w2;
    } else {
      assert w1 + core + w2 == w1 + (core + w2);
      TrimStartPadded(w1, core + w2);
      TrimEndPadded(core, w2);
    }
  }

  /** `trim` is idempotent. */
  lemma TrimIdempotent(s: string)
    ensures Trim(Trim(s)) == Trim(s)
  {
    var r := Trim(s);
    assert TrimStart(r) == r;
    assert TrimEnd(r) == r;
  }

  /** `s.split(',')`: the comma-separated fields, empty ones included;
      there is always at least one field and none holds a comma. */
  function Split(s: string): (parts: seq<string>)
    ensures |parts| >= 1
    ensures forall k :: 0 <= k < |parts| ==> ',' !in parts[k]
    decreases |s|
  {
    if s == [] then [""]
    else
      var rest := Split(s[1..]);
      if s[0] == ',' then [""] + rest
      else [[s[0]] + rest[0]] + rest[1..]
  }

  /** `parts.join(',')`. */
  function Join(parts: seq<string>): string
    requires |parts| >= 1
    decreases |parts|
  {
    if |parts| == 1 then parts[0] else parts[0] + "," + Join(parts[1..])
  }

  /** Joining the fields with commas gives back the string. */
  lemma {:induction false} JoinSplit(s: string)
    ensures Join(Split(s)) == s
    decreases |s|
  {
    if s != [] {
      var rest := Split(s[1..]);
      JoinSplit(s[1..]);
      if s[0] == ',' {
        assert ([""] + rest)[1..] == rest;
      } else {
        var parts := [[s[0]] + rest[0]] + rest[1..];
        if |rest| > 1 {
          assert parts[1..] == rest[1..];
          assert Join(rest) == rest[0] + "," + Join(rest[1..]);
        }
        assert s == [s[0]] + s[1..];
      }
    }
  }

  /** A comma-free prefix followed by a comma is split off as one field. */
  lemma {:induction false} SplitAtComma(a: string, t: string)
    requires ',' !in a
    ensures Split(a + "," + t) == [a] + Split(t)
    decreases |a|
  {
    if a == [] {
      assert a + "," + t == [','] + t;
      assert ([','] + t)[1..] == t;
    } else {
      assert (a + "," + t)[1..] == a[1..] + "," + t;
      SplitAtComma(a[1..], t);
      assert [a[0]] + a[1..] == a;
    }
  }

  /** A comma-free string is one field. */
  lemma {:induction false} SplitNoComma(a: string)
    requires ',' !in a
    ensures Split(a) == [a]
    decreases |a|
  {
    if a != [] {
      SplitNoComma(a[1..]);
      assert [a[0]] + a[1..] == a;
    }
  }

  /** Splitting comma-joined comma-free fields gives back the fields. */
  lemma {:induction false} SplitJoin(parts: seq<string>)
    requires |parts| >= 1
    requires forall k :: 0 <= k < |parts| ==> ',' !in parts[k]
    ensures Split(Join(parts)) == parts
    decreases |parts|
  {
    if |parts| == 1 {
      SplitNoComma(parts[0]);
    } else {
      SplitJoin(parts[1..]);
      SplitAtComma(parts[0], Join(parts[1..]));
      assert [parts[0]] + parts[1..] == parts;
    }
  }

  /** `{ latitude, longitude }`. */
  datatype Coordinates = Coordinates(latitude: real, longitude: real)

  /** Both bounds inclusive. */
  predicate InRange(c: Coordinates) {
    -90.0 <= c.latitude <= 90.0 && -180.0 <= c.longitude <= 180.0
  }

  /** The checks after parsing: both numbers present (not `NaN`), latitude in
      [-90, 90], longitude in [-180, 180]. */
  function Validate(latitude: Option<real>, longitude: Option<real>): (r: Option<Coordinates>)
    ensures r.Some? <==>
              latitude.Some? && longitude.Some? &&
              InRange(Coordinates(latitude.value, longitude.value))
    ensures r.Some? ==> r.value == Coordinates(latitude.value, longitude.value)
  {
    if latitude.None? || longitude.None? then None
    else if latitude.value < -90.0 || latitude.value > 90.0 then None
    else if longitude.value < -180.0 || longitude.value > 180.0 then None
    else Some(Coordinates(latitude.value, longitude.value))
  }

  /** `parseGeolocation`. An empty string is falsy and gives `null`; a string
      without a second field leaves `lngStr` undefined, whose `parseFloat`
      is `NaN`. */
  function ParseGeolocation(geolocation: string, parseFloat: string -> Option<real>): (r: Option<Coordinates>)
    ensures geolocation == "" ==> r == None
    ensures r.Some? ==> InRange(r.value)
  {
    if geolocation == "" then None
    else
      var fields := Split(geolocation);
      if |fields| < 2 then None
      else Validate(parseFloat(Trim(fields[0])), parseFloat(Trim(fields[1])))
  }

  /** The fields of two comma-free strings joined by a comma, and of the
      same followed by a comma and anything. */
  lemma SplitOfTwoFields(a: string, b: string, rest: string)
    requires ',' !in a && ',' !in b
    ensures Split(a + "," + b) == [a, b]
    ensures Split(a + "," + b + "," + rest) == [a, b] + Split(rest)
  {
    SplitAtComma(a, b);
    SplitNoComma(b);
    assert a + "," + b + "," + rest == a + "," + (b + "," + rest);
    SplitAtComma(a, b + "," + rest);
    SplitAtComma(b, rest);
  }

  /** Only the first two fields matter, each trimmed before parsing: any
      further fields are ignored. */
  lemma FirstTwoFields(a: string, b: string, rest: string, parseFloat: string -> Option<real>)
    requires ',' !in a && ',' !in b
    ensures ParseGeolocation(a + "," + b, parseFloat) ==
            Validate(parseFloat(Trim(a)), parseFloat(Trim(b)))
    ensures ParseGeolocation(a + "," + b + "," + rest, parseFloat) ==
            ParseGeolocation(a + "," + b, parseFloat)
  {
    SplitOfTwoFields(a, b, rest);
    var whole := a + "," + b + "," + rest;
    var fields := Split(whole);
    assert |fields| >= 2 && fields[0] == a && fields[1] == b;
    assert whole != "" && (a + "," + b) != "" by {
      assert |whole| > 0 && |a + "," + b| > 0;
    }
  }

  /** A string with no comma lacks the longitude field and gives `null`. */
  lemma MissingSecondField(s: string, parseFloat: string -> Option<real>)
    requires ',' !in s
    ensures ParseGeolocation(s, parseFloat) == None
  {
    SplitNoComma(s);
  }

  /** The outcome for two fields, case by case: `null` when either does not
      parse or a coordinate is out of range (bounds inclusive), and exactly
      the parsed pair otherwise. */
  lemma TwoFieldOutcome(a: string, b: string, parseFloat: string -> Option<real>)
    requires ',' !in a && ',' !in b
    ensures parseFloat(Trim(a)).None? || parseFloat(Trim(b)).None? ==>
              ParseGeolocation(a + "," + b, parseFloat) == None
    ensures parseFloat(Trim(a)).Some? && parseFloat(Trim(b)).Some? ==>
              var lat, lng := parseFloat(Trim(a)).value, parseFloat(Trim(b)).value;
              (!(-90.0 <= lat <= 90.0) ==> ParseGeolocation(a + "," + b, parseFloat) == None) &&
              (!(-180.0 <= lng <= 180.0) ==> ParseGeolocation(a + "," + b, parseFloat) == None) &&
              (-90.0 <= lat <= 90.0 && -180.0 <= lng <= 180.0 ==>
                 ParseGeolocation(a + "," + b, parseFloat) == Some(Coordinates(lat, lng)))
  {
    FirstTwoFields(a, b, "", parseFloat);
  }
}
