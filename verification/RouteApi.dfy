/**
 * The route handler (src/app/api/route/route.ts): geocode both ends (the
 * ORS geocoder, then Nominatim), ask ORS directions (only with an API key),
 * then OSRM, and fall back to a fixed Chicago to Dallas route.
 *
 * Outbound HTTP is not modelled: every provider is a function from its
 * request (the text, or the two geocoded points) to the reply it gave.
 */
module RouteApi {
  import opened Types

  /** Metres in a statute mile. */
  const MetresPerMile: real := 1609.344

  // ---------------------------------------------------------------------
  // Provider replies
  // ---------------------------------------------------------------------

  /**
   * A `fetch` whose failure is not caught: it threw (network error or an
   * unparsable body), answered with a non-2xx status, or gave a body.
   */
  datatype Fetched<T> = Threw | NotOk | Answered(body: T)

  /** A GeoJSON position `[lon, lat]` (RFC 7946 section 3.1.1); any altitude is ignored. */
  datatype Position = Position(lon: real, lat: real)

  /** The `summary` of an ORS route: metres and seconds. */
  datatype Summary = Summary(distance: real, duration: real)

  /**
   * The parts of an ORS directions body the handler reads: `routes[0].summary`
   * and `routes[0].geometry.coordinates` (None when missing or not an array).
   */
  datatype OrsBody = OrsBody(summary: Option<Summary>, coordinates: Option<seq<Position>>)

  /**
   * `routes[0]` of an OSRM body: metres, seconds and the geometry's
   * coordinates (None when missing).
   */
  datatype OsrmRoute = OsrmRoute(distance: real, duration: real, coordinates: Option<seq<Position>>)

  /** The first Nominatim hit: its `lon` and `lat` strings, None when absent. */
  datatype NominatimItem = NominatimItem(lon: Option<string>, lat: Option<string>)

  /**
   * The outside world as the handler sees it. The geocoders never fail
   * outward (their errors are caught); the directions services may throw.
   * `orsGeocode` gives `features[0].geometry.coordinates` when the request
   * succeeded and that is an array; `nominatim` gives the first hit when the
   * request succeeded and there is one; `parseFloat` is JavaScript's.
   */
  datatype Providers = Providers(
    orsKey: bool,
    orsGeocode: string -> Option<seq<real>>,
    nominatim: string -> Option<NominatimItem>,
    parseFloat: string -> real,
    orsDirections: (LatLng, LatLng) -> Fetched<OrsBody>,
    osrm: (LatLng, LatLng) -> Fetched<Option<OsrmRoute>>)

  // ---------------------------------------------------------------------
  // Geocoding
  // ---------------------------------------------------------------------

  /** What the ORS geocoder contributes: a point when it gave two or more coordinates. */
  function OrsPoint(orsKey: bool, coords: Option<seq<real>>): Option<LatLng>
  {
    if orsKey && coords.Some? && |coords.value| >= 2 then Some(LatLng(coords.value[1], coords.value[0]))
    else None
  }

  /** What Nominatim contributes: a point when both `lon` and `lat` are non-empty. */
  function NominatimPoint(item: Option<NominatimItem>, parseFloat: string -> real): Option<LatLng>
  {
    if item.Some? && Truthy(item.value.lon) && Truthy(item.value.lat) then
      Some(LatLng(parseFloat(item.value.lat.value), parseFloat(item.value.lon.value)))
    else None
  }

  /** `geocode(text)`: the ORS point if there is one, else the Nominatim point, else null. */
  function Geocode(p: Providers, text: string): Option<LatLng>
  {
    var ors := OrsPoint(p.orsKey, p.orsGeocode(text));
    if ors.Some? then ors else NominatimPoint(p.nominatim(text), p.parseFloat)
  }

  /**
   * The geocoder tries ORS (only with a key), then Nominatim: an ORS answer
   * with at least two coordinates wins as {lon: c[0], lat: c[1]}; otherwise a
   * Nominatim hit with non-empty lon and lat; null only when both fail.
   */
  lemma GeocodePrecedence(p: Providers, text: string)
    ensures var c := p.orsGeocode(text);
      p.orsKey && c.Some? && |c.value| >= 2 ==>
        Geocode(p, text) == Some(LatLng(c.value[1], c.value[0]))
    ensures var c := p.orsGeocode(text);
      !(p.orsKey && c.Some? && |c.value| >= 2) ==>
        Geocode(p, text) == NominatimPoint(p.nominatim(text), p.parseFloat)
    ensures Geocode(p, text).None? <==>
      OrsPoint(p.orsKey, p.orsGeocode(text)).None? && NominatimPoint(p.nominatim(text), p.parseFloat).None?
    ensures var item := p.nominatim(text);
      NominatimPoint(item, p.parseFloat).Some? <==>
        item.Some? && Truthy(item.value.lon) && Truthy(item.value.lat)
    ensures var item := p.nominatim(text);
      NominatimPoint(item, p.parseFloat).Some? ==>
        NominatimPoint(item, p.parseFloat).value
          == LatLng(p.parseFloat(item.value.lat.value), p.parseFloat(item.value.lon.value))
  {
  }

  // ---------------------------------------------------------------------
  // Directions
  // ---------------------------------------------------------------------

  /** `coords.map(([lon, lat]) => ({ lat, lon }))`. */
  function ToPolyline(coords: seq<Position>): (r: seq<LatLng>)
    ensures |r| == |coords|
    ensures forall i :: 0 <= i < |r| ==> r[i].lat == coords[i].lat && r[i].lon == coords[i].lon
  {
    seq(|coords|, i requires 0 <= i < |coords| => LatLng(coords[i].lat, coords[i].lon))
  }

  /** The inverse direction: `{lat, lon}` back to `[lon, lat]`. */
  function ToPositions(polyline: seq<LatLng>): (r: seq<Position>)
    ensures |r| == |polyline|
  {
    seq(|polyline|, i requires 0 <= i < |polyline| => Position(polyline[i].lon, polyline[i].lat))
  }

  /** Swapping the pair order loses nothing: the conversion is undone by its inverse. */
  lemma PolylineRoundTrip(coords: seq<Position>, polyline: seq<LatLng>)
    ensures ToPositions(ToPolyline(coords)) == coords
    ensures ToPolyline(ToPositions(polyline)) == polyline
  {
    assert forall i :: 0 <= i < |coords| ==> ToPositions(ToPolyline(coords))[i] == coords[i];
    assert forall i :: 0 <= i < |polyline| ==> ToPolyline(ToPositions(polyline))[i] == polyline[i];
  }

  function MetresToMiles(m: real): real { m / MetresPerMile }
  function MilesToMetres(mi: real): real { mi * MetresPerMile }
  function SecondsToMinutes(s: real): real { s / 60.0 }
  function MinutesToSeconds(min: real): real { min * 60.0 }

  /** The unit conversions are exact inverses of each other on the reals. */
  lemma UnitRoundTrip(x: real)
    ensures MilesToMetres(MetresToMiles(x)) == x && MetresToMiles(MilesToMetres(x)) == x
    ensures MinutesToSeconds(SecondsToMinutes(x)) == x && SecondsToMinutes(MinutesToSeconds(x)) == x
    ensures x >= 0.0 ==> 0.0 <= MetresToMiles(x) <= x && 0.0 <= SecondsToMinutes(x) <= x
  {
  }

  /** A provider route in the dashboard's units, with the geocoded ends as waypoints. */
  function ToRoute(metres: real, seconds: real, coords: seq<Position>, a: LatLng, b: LatLng): RouteResponse
  {
    RouteResponse(MetresToMiles(metres), SecondsToMinutes(seconds), ToPolyline(coords), Waypoints(a, b))
  }

  /** What calling a directions service amounts to: it threw, or it gave a route or null. */
  datatype Attempt = Raised | Gave(route: Option<RouteResponse>)

  /** `directions(a, b)`: null without a key, on a non-2xx status, or without summary or coordinates. */
  function Directions(p: Providers, a: LatLng, b: LatLng): Attempt
  {
    if !p.orsKey then Gave(None)
    else match p.orsDirections(a, b)
      case Threw => Raised
      case NotOk => Gave(None)
      case Answered(body) =>
        if body.summary.None? || body.coordinates.None? then Gave(None)
        else Gave(Some(ToRoute(body.summary.value.distance, body.summary.value.duration,
                               body.coordinates.value, a, b)))
  }

  /** `osrmDirections(a, b)`: null on a non-2xx status or without a route's coordinates. */
  function Osrm(p: Providers, a: LatLng, b: LatLng): Attempt
  {
    match p.osrm(a, b)
    case Threw => Raised
    case NotOk => Gave(None)
    case Answered(route) =>
      if route.None? || route.value.coordinates.None? then Gave(None)
      else Gave(Some(ToRoute(route.value.distance, route.value.duration, route.value.coordinates.value, a, b)))
  }

  /**
   * A route a directions service gives is its answer converted: metres to
   * miles, seconds to minutes, every [lon, lat] to {lat, lon} in the same
   * order, and the geocoded points as waypoints. ORS gives none without a
   * key; each gives null on a non-2xx status or without its summary or
   * coordinates, and a route whenever a 2xx answer has them.
   */
  lemma DirectionsConvert(p: Providers, a: LatLng, b: LatLng)
    ensures var r := Directions(p, a, b);
      && (!p.orsKey ==> r == Gave(None))
      && (r.Raised? <==> p.orsKey && p.orsDirections(a, b).Threw?)
      && (p.orsKey && p.orsDirections(a, b).NotOk? ==> r == Gave(None))
      && (p.orsKey && p.orsDirections(a, b).Answered? ==>
            var body := p.orsDirections(a, b).body;
            && (body.summary.None? || body.coordinates.None? ==> r == Gave(None))
            && (body.summary.Some? && body.coordinates.Some? ==> r.Gave? && r.route.Some?))
      && (r.Gave? && r.route.Some? ==>
            var body := p.orsDirections(a, b).body;
            && p.orsKey && body.summary.Some? && body.coordinates.Some?
            && r.route.value.distanceMi * MetresPerMile == body.summary.value.distance
            && r.route.value.durationMin * 60.0 == body.summary.value.duration
            && ToPositions(r.route.value.polyline) == body.coordinates.value
            && r.route.value.waypoints == Waypoints(a, b))
    ensures var r := Osrm(p, a, b);
      && (r.Raised? <==> p.osrm(a, b).Threw?)
      && (p.osrm(a, b).NotOk? ==> r == Gave(None))
      && (p.osrm(a, b).Answered? ==>
            var route := p.osrm(a, b).body;
            && (route.None? || route.value.coordinates.None? ==> r == Gave(None))
            && (route.Some? && route.value.coordinates.Some? ==> r.Gave? && r.route.Some?))
      && (r.Gave? && r.route.Some? ==>
            var route := p.osrm(a, b).body;
            && route.Some? && route.value.coordinates.Some?
            && r.route.value.distanceMi * MetresPerMile == route.value.distance
            && r.route.value.durationMin * 60.0 == route.value.duration
            && ToPositions(r.route.value.polyline) == route.value.coordinates.value
            && r.route.value.waypoints == Waypoints(a, b))
  {
    var r := Directions(p, a, b);
    if r.Gave? && r.route.Some? {
      PolylineRoundTrip(p.orsDirections(a, b).body.coordinates.value, []);
    }
    var o := Osrm(p, a, b);
    if o.Gave? && o.route.Some? {
      PolylineRoundTrip(p.osrm(a, b).body.value.coordinates.value, []);
    }
  }

  // ---------------------------------------------------------------------
  // The static fallback and the handler
  // ---------------------------------------------------------------------

  /** Chicago, Kansas City, Oklahoma City, Dallas. */
  const FallbackPolyline: seq<LatLng> := [
    LatLng(41.8781, -87.6298),
    LatLng(39.0997, -94.5786),
    LatLng(35.4676, -97.5164),
    LatLng(32.7767, -96.797)
  ]

  /** The route answered when no provider gave one: 925 miles, 14 hours. */
  function FallbackRoute(): RouteResponse
  {
    RouteResponse(925.0, 14.0 * 60.0, FallbackPolyline,
      Waypoints(FallbackPolyline[0], FallbackPolyline[|FallbackPolyline| - 1]))
  }

  /**
   * The request body: `Unparsable` when it is not JSON or is the JSON value
   * `null` (destructuring `null` throws, so both reach the 400 answer);
   * otherwise its `origin` and `destination`.
   */
  datatype RouteRequest = Unparsable | Parsed(origin: string, destination: string)

  /** The handler's answer: a route, or the 400 "Invalid request". */
  datatype RouteResult = RouteOk(route: RouteResponse) | InvalidRequest

  /** After geocoding: OSRM, then the fallback route. */
  function TryOsrm(p: Providers, a: LatLng, b: LatLng): RouteResult
  {
    match Osrm(p, a, b)
    case Raised => InvalidRequest
    case Gave(Some(r)) => RouteOk(r)
    case Gave(None) => RouteOk(FallbackRoute())
  }

  /** POST /api/route. */
  function Post(req: RouteRequest, p: Providers): RouteResult
  {
    match req
    case Unparsable => InvalidRequest
    case Parsed(origin, destination) =>
      var a := Geocode(p, origin);
      var b := Geocode(p, destination);
      if a.None? || b.None? then RouteOk(FallbackRoute())
      else if p.orsKey then
        match Directions(p, a.value, b.value)
        case Raised => InvalidRequest
        case Gave(Some(r)) => RouteOk(r)
        case Gave(None) => TryOsrm(p, a.value, b.value)
      else TryOsrm(p, a.value, b.value)
  }

  /** The fallback route: 925 miles, 840 minutes, the 4-point path, its ends as waypoints. */
  lemma FallbackRouteShape()
    ensures var r := FallbackRoute();
      && r.distanceMi == 925.0 && r.durationMin == 840.0
      && |r.polyline| == 4 && r.polyline == FallbackPolyline
      && r.waypoints.origin == r.polyline[0] && r.waypoints.destination == r.polyline[3]
  {
  }

  /**
   * The provider chain. An unparsable body, or a directions service that
   * throws, gives the 400 answer. Otherwise: with a missing geocode the
   * fallback route; else the ORS route when there is a key and it gave one;
   * else the OSRM route when it gave one; else the fallback route.
   */
  lemma PostProviderOrder(req: RouteRequest, p: Providers)
    requires req.Parsed?
    ensures var a := Geocode(p, req.origin);
      var b := Geocode(p, req.destination);
      var r := Post(req, p);
      && (a.None? || b.None? ==> r == RouteOk(FallbackRoute()))
      && (a.Some? && b.Some? ==>
            var ors := Directions(p, a.value, b.value);
            var osrm := Osrm(p, a.value, b.value);
            && (ors.Raised? ==> r == InvalidRequest)
            && (ors == Gave(None) && osrm.Raised? ==> r == InvalidRequest)
            && (ors.Gave? && ors.route.Some? ==> r == RouteOk(ors.route.value))
            && (ors == Gave(None) && osrm.Gave? && osrm.route.Some? ==> r == RouteOk(osrm.route.value))
            && (ors == Gave(None) && osrm == Gave(None) ==> r == RouteOk(FallbackRoute())))
  {
    var a := Geocode(p, req.origin);
    var b := Geocode(p, req.destination);
    if a.Some? && b.Some? {
      DirectionsConvert(p, a.value, b.value);
    }
  }

  /**
   * The only errors the caller sees: an unparsable body (not JSON, or the
   * JSON value `null`) or a directions service that threw once both ends
   * were geocoded. A route the handler answers is either the fallback route
   * or one whose waypoints are the two geocoded points.
   */
  lemma PostOutcomes(req: RouteRequest, p: Providers)
    ensures Post(req, p).InvalidRequest? <==>
      req.Unparsable? ||
      (var a := Geocode(p, req.origin);
       var b := Geocode(p, req.destination);
       a.Some? && b.Some? &&
       (Directions(p, a.value, b.value).Raised? ||
        (Directions(p, a.value, b.value) == Gave(None) && Osrm(p, a.value, b.value).Raised?)))
    ensures Post(req, p).RouteOk? ==>
      Post(req, p).route == FallbackRoute() ||
      (Geocode(p, req.origin).Some? && Geocode(p, req.destination).Some? &&
       Post(req, p).route.waypoints == Waypoints(Geocode(p, req.origin).value, Geocode(p, req.destination).value))
  {
    if req.Parsed? {
      var a := Geocode(p, req.origin);
      var b := Geocode(p, req.destination);
      if a.Some? && b.Some? {
        DirectionsConvert(p, a.value, b.value);
        if !p.orsKey {
          assert Directions(p, a.value, b.value) == Gave(None);
        }
      }
    }
  }

  /** With every geocoder unreachable, the answer is exactly the fallback route. */
  lemma UnreachableGeocodersGiveFallback(req: RouteRequest, p: Providers)
    requires req.Parsed?
    requires forall t :: p.orsGeocode(t).None? && p.nominatim(t).None?
    ensures Post(req, p) == RouteOk(FallbackRoute())
  {
    assert Geocode(p, req.origin).None?;
  }
}
