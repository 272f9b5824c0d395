/**
 * Properties of the pipeline as a whole: the route handler's answer feeds
 * the fuel handler, whose stops the dashboard ranks.
 */
module Pipeline {
  import opened Types
  import RouteApi
  import opened FuelApi
  import opened Dashboard

  /**
   * The fallback route's four points yield three candidates, the points
   * after Chicago; the last of them is the destination, Dallas, itself.
   */
  lemma FallbackRouteCandidates()
    ensures var poly := RouteApi.FallbackRoute().polyline;
      && Candidates(poly) == poly[1..]
      && |Candidates(poly)| == 3
      && Candidates(poly)[2] == RouteApi.FallbackRoute().waypoints.destination
  {
    var poly := RouteApi.FallbackRoute().polyline;
    RouteApi.FallbackRouteShape();
    ShortPolylineCandidates(poly);
  }

  /**
   * Asking for stops along the fallback route gives three stops, priced
   * and timed as stops 0, 1 and 2, each the station found around its
   * sample or the sample itself under its fallback label.
   */
  lemma FallbackRouteStops(eia: EiaReply, overpass: LatLng -> OverpassReply)
    ensures var poly := RouteApi.FallbackRoute().polyline;
      var r := Post(Parsed(Points(poly)), eia, overpass);
      && r.FuelOk?
      && |r.response.stops| == 3
      && (forall idx :: 0 <= idx < 3 ==>
            var s := r.response.stops[idx];
            var found := NearestFuel(overpass(poly[idx + 1]));
            && s.pricePerGal == StopPrice(ReferencePrice(eia), idx)
            && s.detourMinutes == DetourMinutes(idx)
            && (found.Some? ==> s.name == found.value.name && s.lat == found.value.lat && s.lon == found.value.lon)
            && (found.None? ==> s.name == FallbackName(idx) && s.lat == poly[idx + 1].lat && s.lon == poly[idx + 1].lon))
  {
    var poly := RouteApi.FallbackRoute().polyline;
    FallbackRouteCandidates();
    PostStopsFollowCandidates(poly, eia, overpass);
  }

  /**
   * What a stop synthesised for position idx saves against the price base:
   * at an odd position (priced above base) it only costs its detour, while
   * at an even position it saves 11.5 to 12.5 cents on every gallon bought,
   * less its detour.
   */
  predicate SavesAsSynthesised(s: FuelStop, base: real, tankSize: real, fuelPct: real, idx: nat)
  {
    var saving := NetSavings(s, base, tankSize, fuelPct);
    && (idx % 2 == 1 ==> saving == -(1.5 + idx as real) < 0.0)
    && (idx % 2 == 0 ==>
          && 0.115 <= base - s.pricePerGal <= 0.125
          && saving == (base - s.pricePerGal) * GallonsToBuy(tankSize, fuelPct) - (1.5 + idx as real))
  }

  /** A stop priced and timed by the synthesis heuristic for position idx saves as above. */
  lemma SynthesisedSavings(s: FuelStop, base: real, tankSize: real, fuelPct: real, idx: nat)
    requires s.pricePerGal == StopPrice(base, idx) && s.detourMinutes == DetourMinutes(idx)
    ensures SavesAsSynthesised(s, base, tankSize, fuelPct, idx)
  {
    StopPriceBounds(base, idx);
    if idx % 2 == 1 {
      NoSavingsAtOrAboveReference(s, base, tankSize, fuelPct);
    }
  }

  /** Every stop POST returns saves as above against the price in the same response. */
  lemma SynthesisedStopSavings(points: seq<LatLng>, eia: EiaReply, overpass: LatLng -> OverpassReply,
                               tankSize: real, fuelPct: real, idx: nat)
    requires |points| >= 2
    requires idx < |Candidates(points)|
    ensures var r := Post(Parsed(Points(points)), eia, overpass).response;
      SavesAsSynthesised(r.stops[idx], r.dieselUsdPerGal, tankSize, fuelPct, idx)
  {
    var r := Post(Parsed(Points(points)), eia, overpass).response;
    PostStopsFollowCandidates(points, eia, overpass);
    PostAnswersWithReferencePrice(Parsed(Points(points)), eia, overpass);
    SynthesisedSavings(r.stops[idx], r.dieselUsdPerGal, tankSize, fuelPct, idx);
  }
}
