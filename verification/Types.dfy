/**
 * The record shapes shared by the route handler, the fuel handler and the
 * dashboard (src/lib/types.ts). Numbers are modelled as `real`: the model
 * works with exact decimal arithmetic, not with IEEE-754 doubles.
 */
module Types {

  /** An optional value: `None` stands for JavaScript's `null`/`undefined`. */
  datatype Option<+T> = None | Some(value: T)

  /** JavaScript truthiness of an optional string: present and not empty. */
  predicate Truthy(s: Option<string>)
  {
    s.Some? && s.value != ""
  }

  /** A JSON value as far as the handlers inspect it (`typeof v === "number"`). */
  datatype JsonValue =
    | JNumber(n: real)
    | JString(s: string)
    | JBool(b: bool)
    | JNull
    | JUndefined
    | JObject

  /** `LatLng`: a point of a polyline. */
  datatype LatLng = LatLng(lat: real, lon: real)

  /** The two end points of a route. */
  datatype Waypoints = Waypoints(origin: LatLng, destination: LatLng)

  /** `RouteResponse`: a driving route in miles and minutes. */
  datatype RouteResponse = RouteResponse(
    distanceMi: real,
    durationMin: real,
    polyline: seq<LatLng>,
    waypoints: Waypoints)

  /** `TripStopCandidate`: a fuel stop offered to the driver. */
  datatype FuelStop = FuelStop(
    name: string,
    lat: real,
    lon: real,
    pricePerGal: real,
    detourMinutes: real)

  /** `FuelPriceResponse`: the reference diesel price and the candidate stops. */
  datatype FuelPriceResponse = FuelPriceResponse(dieselUsdPerGal: real, stops: seq<FuelStop>)
}
