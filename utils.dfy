/**
 * The area filters over buildings: a building's `coordinates` column is a
 * "lat,lon" string, split on the comma and parsed into two numbers; the box
 * filter keeps the buildings no farther from corner 1 than corner 2 is, on
 * each axis separately, and the circle filter keeps the buildings within the
 * radius of the centre.
 *
 * The float parser and the WGS84 distance are parameters: `parse(s)` is
 * `Some(x)` when `float(s)` returns x and `None` when it raises ValueError,
 * and `distance` is the great-circle distance function, left uninterpreted.
 */
module Utils {
  import opened Base
  import opened Seqs
  import opened Models

  datatype BoxArea = BoxArea(lat1: real, lon1: real, lat2: real, lon2: real)

  datatype CircleArea = CircleArea(lat: real, lon: real, radius: real)

  datatype Point = Point(lat: real, lon: real)

  /** The exceptions reading a building's coordinates can raise. */
  datatype CoordError =
    | ValueError(text: string)  // `float` refused this field
    | IndexError                // the string has no second field

  // ---------------------------------------------------------------------------
  // Splitting on a separator
  // ---------------------------------------------------------------------------

  /**
   * `s.split(sep)`: the maximal separator-free pieces of `s`, in order; an
   * empty string is one empty field and a string of n separators has n + 1
   * fields.
   */
  function Split(s: string, sep: char): (fields: seq<string>)
    ensures |fields| >= 1
    ensures forall i :: 0 <= i < |fields| ==> sep !in fields[i]
    decreases |s|
  {
    if s == [] then [[]]
    else
      var rest := Split(s[1..], sep);
      if s[0] == sep then [[]] + rest
      else [[s[0]] + rest[0]] + rest[1..]
  }

  /** `sep.join(fields)`. */
  function Join(fields: seq<string>, sep: char): string
    requires |fields| >= 1
  {
    if |fields| == 1 then fields[0]
    else fields[0] + [sep] + Join(fields[1..], sep)
  }

  /** Splitting loses nothing: joining the fields back gives the string. */
  lemma {:induction false} SplitJoin(s: string, sep: char)
    ensures Join(Split(s, sep), sep) == s
    decreases |s|
  {
    if s != [] {
      var rest := Split(s[1..], sep);
      SplitJoin(s[1..], sep);
      if s[0] != sep && |rest| > 1 {
        assert rest == [rest[0]] + rest[1..];
        assert Join(rest, sep) == rest[0] + [sep] + Join(rest[1..], sep);
      }
    }
  }

  /** A string without the separator is a single field. */
  lemma {:induction false} SplitNoSeparator(s: string, sep: char)
    requires sep !in s
    ensures Split(s, sep) == [s]
    decreases |s|
  {
    if s != [] {
      assert s[0] != sep && sep !in s[1..];
      SplitNoSeparator(s[1..], sep);
      assert [s[0]] + s[1..] == s;
    }
  }

  /** The text before the first separator is the first field; the rest splits on its own. */
  lemma {:induction false} SplitAtFirst(a: string, b: string, sep: char)
    requires sep !in a
    ensures Split(a + [sep] + b, sep) == [a] + Split(b, sep)
    decreases |a|
  {
    var s := a + [sep] + b;
    if a == [] {
      assert s[1..] == b;
    } else {
      assert s[1..] == a[1..] + [sep] + b;
      SplitAtFirst(a[1..], b, sep);
      assert [a[0]] + a[1..] == a;
    }
  }

  // ---------------------------------------------------------------------------
  // Reading a building's coordinates
  // ---------------------------------------------------------------------------

  /**
   * `float(c.split(",")[0])`, then `float(c.split(",")[1])`, in Python's
   * order: the first field is parsed before the second is indexed, so an
   * unparsable first field raises ValueError even when there is no comma.
   */
  function ParseCoordinates(coordinates: string, parse: string -> Option<real>): (r: Result<Point, CoordError>)
    ensures r.Success? ==> |Split(coordinates, ',')| >= 2
    ensures r.Success? ==> Some(r.value.lat) == parse(Split(coordinates, ',')[0])
    ensures r.Success? ==> Some(r.value.lon) == parse(Split(coordinates, ',')[1])
  {
    var fields := Split(coordinates, ',');
    match parse(fields[0])
    case None => Failure(ValueError(fields[0]))
    case Some(lat) =>
      if |fields| < 2 then Failure(IndexError)
      else
        match parse(fields[1])
        case None => Failure(ValueError(fields[1]))
        case Some(lon) => Success(Point(lat, lon))
  }

  /**
   * For "a,b…" with no comma in `a`, latitude comes from `a` and longitude from
   * the text between the first and the second comma; when the first field is
   * not a number, the error names it.
   */
  lemma CoordinatesFromFields(a: string, b: string, parse: string -> Option<real>)
    requires ',' !in a
    ensures var lon := Split(b, ',')[0];
      && (parse(a).None? ==> ParseCoordinates(a + [','] + b, parse) == Failure(ValueError(a)))
      && (parse(a).Some? && parse(lon).None? ==> ParseCoordinates(a + [','] + b, parse) == Failure(ValueError(lon)))
      && (parse(a).Some? && parse(lon).Some? ==>
            ParseCoordinates(a + [','] + b, parse) == Success(Point(parse(a).value, parse(lon).value)))
  {
    SplitAtFirst(a, b, ',');
  }

  /** A coordinate string without a comma never yields a point: the second field is missing. */
  lemma NoCommaFails(s: string, parse: string -> Option<real>)
    requires ',' !in s
    ensures ParseCoordinates(s, parse).Failure?
    ensures parse(s).Some? ==> ParseCoordinates(s, parse) == Failure(IndexError)
  {
    SplitNoSeparator(s, ',');
  }

  // ---------------------------------------------------------------------------
  // The box filter
  // ---------------------------------------------------------------------------

  function Abs(x: real): real
  {
    if x < 0.0 then -x else x
  }

  /**
   * The box test as written: each coordinate is at most as far from corner 1
   * as corner 2 is. This is a box centred on corner 1, twice as large as the
   * one spanned by the two corners.
   */
  predicate InBox(p: Point, area: BoxArea)
    ensures InBox(p, area) <==>
              && area.lat1 - Abs(area.lat1 - area.lat2) <= p.lat <= area.lat1 + Abs(area.lat1 - area.lat2)
              && area.lon1 - Abs(area.lon1 - area.lon2) <= p.lon <= area.lon1 + Abs(area.lon1 - area.lon2)
    ensures p == Point(area.lat1, area.lon1) || p == Point(area.lat2, area.lon2) ==> InBox(p, area)
  {
    && Abs(area.lat1 - p.lat) <= Abs(area.lat1 - area.lat2)
    && Abs(area.lon1 - p.lon) <= Abs(area.lon1 - area.lon2)
  }

  /** The loop body of the box filter for one building: read its point, then test it. */
  function BoxTest(area: BoxArea, parse: string -> Option<real>): Building -> Result<bool, CoordError>
  {
    (b: Building) => match ParseCoordinates(b.coordinates, parse)
                     case Failure(e) => Failure(e)
                     case Success(p) => Success(InBox(p, area))
  }

  /** `find_buildings_in_box_area`: the loop appending every building inside the area. */
  method FindBuildingsInBoxArea(buildings: seq<Building>, area: BoxArea, parse: string -> Option<real>)
    returns (r: Result<seq<Building>, CoordError>)
    ensures r == KeepWhere(buildings, BoxTest(area, parse))
  {
    var res: seq<Building> := [];
    var i := 0;
    while i < |buildings|
      invariant 0 <= i <= |buildings|
      invariant KeepWhere(buildings[..i], BoxTest(area, parse)) == Success(res)
    {
      var b := buildings[i];
      assert buildings[..i + 1][..i] == buildings[..i];
      var p := ParseCoordinates(b.coordinates, parse);
      if p.Failure? {
        KeepWhereFailurePersists(buildings, i + 1, BoxTest(area, parse));
        return Failure(p.error);
      }
      if InBox(p.value, area) {
        res := res + [b];
      }
      i := i + 1;
    }
    assert buildings[..i] == buildings;
    return Success(res);
  }

  /**
   * The box filter fails exactly when some building's coordinates cannot be
   * read, with the error of the first such building; otherwise it returns,
   * in their original order and without adding duplicates, exactly the
   * buildings whose point passes the box test.
   */
  lemma BoxFilterSpec(buildings: seq<Building>, area: BoxArea, parse: string -> Option<real>)
    ensures var r := KeepWhere(buildings, BoxTest(area, parse));
      && (r.Success? <==> forall b :: b in buildings ==> ParseCoordinates(b.coordinates, parse).Success?)
      && (r.Success? ==> forall b :: b in r.value <==>
            && b in buildings
            && InBox(ParseCoordinates(b.coordinates, parse).value, area))
      && (r.Success? ==> IsSubsequence(r.value, buildings) && multiset(r.value) <= multiset(buildings))
      && (r.Failure? ==> exists i :: && 0 <= i < |buildings|
                                     && ParseCoordinates(buildings[i].coordinates, parse) == Failure(r.error)
                                     && forall j :: 0 <= j < i ==> ParseCoordinates(buildings[j].coordinates, parse).Success?)
  {
    var test := BoxTest(area, parse);
    KeepWhereSpec(buildings, test);
    FilterIsSubsequence(buildings, Kept(test));
    SubsequenceMultiset(Filter(buildings, Kept(test)), buildings);
  }

  /** One building whose coordinates have no comma makes the whole box filter fail. */
  lemma BoxFilterRejectsMalformed(buildings: seq<Building>, area: BoxArea, parse: string -> Option<real>, b: Building)
    requires b in buildings && ',' !in b.coordinates
    ensures KeepWhere(buildings, BoxTest(area, parse)).Failure?
  {
    NoCommaFails(b.coordinates, parse);
    BoxFilterSpec(buildings, area, parse);
  }

  /** A degenerate box, both corners equal, holds a single point: the corner. */
  lemma DegenerateBoxPoint(p: Point, area: BoxArea)
    requires area.lat1 == area.lat2 && area.lon1 == area.lon2
    ensures InBox(p, area) <==> p == Point(area.lat1, area.lon1)
  {
  }

  /** The box filter over a degenerate box keeps only the buildings exactly at the corner. */
  lemma DegenerateBox(buildings: seq<Building>, area: BoxArea, parse: string -> Option<real>)
    requires area.lat1 == area.lat2 && area.lon1 == area.lon2
    ensures var r := KeepWhere(buildings, BoxTest(area, parse));
      r.Success? ==> forall b :: b in r.value <==>
        b in buildings && ParseCoordinates(b.coordinates, parse) == Success(Point(area.lat1, area.lon1))
  {
    var r := KeepWhere(buildings, BoxTest(area, parse));
    BoxFilterSpec(buildings, area, parse);
    if r.Success? {
      forall b | b in buildings
        ensures b in r.value <==> ParseCoordinates(b.coordinates, parse) == Success(Point(area.lat1, area.lon1))
      {
        DegenerateBoxPoint(ParseCoordinates(b.coordinates, parse).value, area);
      }
    }
  }

  /**
   * The box is centred on corner 1: a building at either corner is kept, and
   * so is one at corner 2 reflected through corner 1, which lies outside the
   * rectangle the corners span whenever the box is not degenerate on that axis.
   */
  lemma BoxCentredOnCorner1(buildings: seq<Building>, area: BoxArea, parse: string -> Option<real>, b: Building)
    requires b in buildings
    requires var p := ParseCoordinates(b.coordinates, parse);
      && p.Success?
      && p.value in {Point(area.lat1, area.lon1), Point(area.lat2, area.lon2),
                     Point(2.0 * area.lat1 - area.lat2, 2.0 * area.lon1 - area.lon2)}
    ensures var r := KeepWhere(buildings, BoxTest(area, parse));
      r.Success? ==> b in r.value
    ensures area.lat1 < area.lat2 ==> 2.0 * area.lat1 - area.lat2 < area.lat1
    ensures area.lat2 < area.lat1 ==> 2.0 * area.lat1 - area.lat2 > area.lat1
  {
    BoxFilterSpec(buildings, area, parse);
  }

  // ---------------------------------------------------------------------------
  // The circle filter
  // ---------------------------------------------------------------------------

  predicate InCircle(p: Point, area: CircleArea, distance: (real, real, real, real) -> real)
  {
    distance(p.lat, p.lon, area.lat, area.lon) <= area.radius
  }

  /** The loop body of the circle filter for one building. */
  function CircleTest(area: CircleArea, parse: string -> Option<real>, distance: (real, real, real, real) -> real)
    : Building -> Result<bool, CoordError>
  {
    (b: Building) => match ParseCoordinates(b.coordinates, parse)
                     case Failure(e) => Failure(e)
                     case Success(p) => Success(InCircle(p, area, distance))
  }

  /** `find_buildings_in_circle_area`: the loop appending every building within the radius. */
  method FindBuildingsInCircleArea(
    buildings: seq<Building>, area: CircleArea,
    parse: string -> Option<real>, distance: (real, real, real, real) -> real)
    returns (r: Result<seq<Building>, CoordError>)
    ensures r == KeepWhere(buildings, CircleTest(area, parse, distance))
  {
    var res: seq<Building> := [];
    var i := 0;
    while i < |buildings|
      invariant 0 <= i <= |buildings|
      invariant KeepWhere(buildings[..i], CircleTest(area, parse, distance)) == Success(res)
    {
      var b := buildings[i];
      assert buildings[..i + 1][..i] == buildings[..i];
      var p := ParseCoordinates(b.coordinates, parse);
      if p.Failure? {
        KeepWhereFailurePersists(buildings, i + 1, CircleTest(area, parse, distance));
        return Failure(p.error);
      }
      if InCircle(p.value, area, distance) {
        res := res + [b];
      }
      i := i + 1;
    }
    assert buildings[..i] == buildings;
    return Success(res);
  }

  /**
   * The circle filter fails exactly when some building's coordinates cannot
   * be read, with the first such error; otherwise it returns, in order and
   * without adding duplicates, exactly the buildings within the radius.
   */
  lemma CircleFilterSpec(
    buildings: seq<Building>, area: CircleArea,
    parse: string -> Option<real>, distance: (real, real, real, real) -> real)
    ensures var r := KeepWhere(buildings, CircleTest(area, parse, distance));
      && (r.Success? <==> forall b :: b in buildings ==> ParseCoordinates(b.coordinates, parse).Success?)
      && (r.Success? ==> forall b :: b in r.value <==>
            && b in buildings
            && InCircle(ParseCoordinates(b.coordinates, parse).value, area, distance))
      && (r.Success? ==> IsSubsequence(r.value, buildings) && multiset(r.value) <= multiset(buildings))
      && (r.Failure? ==> exists i :: && 0 <= i < |buildings|
                                     && ParseCoordinates(buildings[i].coordinates, parse) == Failure(r.error)
                                     && forall j :: 0 <= j < i ==> ParseCoordinates(buildings[j].coordinates, parse).Success?)
  {
    var test := CircleTest(area, parse, distance);
    KeepWhereSpec(buildings, test);
    FilterIsSubsequence(buildings, Kept(test));
    SubsequenceMultiset(Filter(buildings, Kept(test)), buildings);
  }

  /** One building whose coordinates have no comma makes the whole circle filter fail. */
  lemma CircleFilterRejectsMalformed(
    buildings: seq<Building>, area: CircleArea,
    parse: string -> Option<real>, distance: (real, real, real, real) -> real, b: Building)
    requires b in buildings && ',' !in b.coordinates
    ensures KeepWhere(buildings, CircleTest(area, parse, distance)).Failure?
  {
    NoCommaFails(b.coordinates, parse);
    CircleFilterSpec(buildings, area, parse, distance);
  }

  /**
   * With a distance that is zero from a point to itself and a non-negative
   * radius, a building at the centre is kept.
   */
  lemma CircleKeepsCentre(
    buildings: seq<Building>, area: CircleArea,
    parse: string -> Option<real>, distance: (real, real, real, real) -> real, b: Building)
    requires forall x, y :: distance(x, y, x, y) == 0.0
    requires area.radius >= 0.0
    requires b in buildings
    requires ParseCoordinates(b.coordinates, parse) == Success(Point(area.lat, area.lon))
    ensures var r := KeepWhere(buildings, CircleTest(area, parse, distance));
      r.Success? ==> b in r.value
  {
    CircleFilterSpec(buildings, area, parse, distance);
  }
}
