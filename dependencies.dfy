/**
 * The area query parameters: four optional box coordinates and three
 * optional circle values, each within the range the query declares, are
 * assembled into at most one box and at most one circle, and exactly one of
 * the two must be present.
 */
module Dependencies {
  import opened Base
  import opened Utils
  import opened Service

  datatype HttpError = HttpError(status: int, detail: string)

  const HTTP_422_UNPROCESSABLE_CONTENT: int := 422

  /** An optional query value, when present, lies in [lo, hi]. */
  predicate WithinRange(x: Option<real>, lo: real, hi: real)
  {
    x.Some? ==> lo <= x.value <= hi
  }

  /** A box from all four corner coordinates, or none if any of them is missing. */
  function BoxQuery(lat1: Option<real>, lon1: Option<real>, lat2: Option<real>, lon2: Option<real>)
    : (r: Option<BoxArea>)
    requires WithinRange(lat1, -90.0, 90.0) && WithinRange(lat2, -90.0, 90.0)
    requires WithinRange(lon1, -180.0, 180.0) && WithinRange(lon2, -180.0, 180.0)
    ensures r.Some? <==> lat1.Some? && lon1.Some? && lat2.Some? && lon2.Some?
    ensures r.Some? ==> r.value == BoxArea(lat1.value, lon1.value, lat2.value, lon2.value)
  {
    if lat1.None? || lon1.None? || lat2.None? || lon2.None? then None
    else Some(BoxArea(lat1.value, lon1.value, lat2.value, lon2.value))
  }

  /** A circle from its centre and radius, or none if any of them is missing. */
  function CircleQuery(lat: Option<real>, lon: Option<real>, radius: Option<real>): (r: Option<CircleArea>)
    requires WithinRange(lat, -90.0, 90.0) && WithinRange(lon, -180.0, 180.0)
    requires radius.Some? ==> radius.value >= 0.0
    ensures r.Some? <==> lat.Some? && lon.Some? && radius.Some?
    ensures r.Some? ==> r.value == CircleArea(lat.value, lon.value, radius.value)
    ensures r.Some? ==> r.value.radius >= 0.0
  {
    if lat.None? || lon.None? || radius.None? then None
    else Some(CircleArea(lat.value, lon.value, radius.value))
  }

  /** Exactly one area is accepted; both or neither is refused with 422. */
  function AreaQuery(box: Option<BoxArea>, circle: Option<CircleArea>): (r: Result<AreaValue, HttpError>)
    ensures box.Some? && circle.Some? ==>
              r == Failure(HttpError(HTTP_422_UNPROCESSABLE_CONTENT, "Specify only one area"))
    ensures box.None? && circle.None? ==>
              r == Failure(HttpError(HTTP_422_UNPROCESSABLE_CONTENT, "Area is required"))
    ensures box.Some? && circle.None? ==> r == Success(BoxValue(box.value))
    ensures box.None? && circle.Some? ==> r == Success(CircleValue(circle.value))
  {
    if box.Some? && circle.Some? then
      Failure(HttpError(HTTP_422_UNPROCESSABLE_CONTENT, "Specify only one area"))
    else if box.None? && circle.None? then
      Failure(HttpError(HTTP_422_UNPROCESSABLE_CONTENT, "Area is required"))
    else if box.Some? then
      Success(BoxValue(box.value))
    else
      Success(CircleValue(circle.value))
  }

  /**
   * An area that passed the query validation never reaches the service's
   * "Unsupported Area Type" branch: the only failures left are those of
   * reading a building's coordinates.
   */
  lemma ValidatedAreaIsSupported(
    db: Models.Snapshot, box: Option<BoxArea>, circle: Option<CircleArea>,
    parse: string -> Option<real>, distance: (real, real, real, real) -> real)
    requires AreaQuery(box, circle).Success?
    ensures var area := AreaQuery(box, circle).value;
      && !area.OtherValue?
      && (ListBuildingsInArea(db, area, parse, distance).Failure? ==>
            ListBuildingsInArea(db, area, parse, distance).error.FilterFailed?)
      && (ListOrganizationsInArea(db, area, parse, distance).Failure? ==>
            ListOrganizationsInArea(db, area, parse, distance).error.FilterFailed?)
  {
  }
}
