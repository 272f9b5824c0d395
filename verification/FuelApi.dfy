/**
 * The fuel handler (src/app/api/fuel/route.ts): the reference diesel price
 * with its fallback, the fixed stop lists of GET, and the stops POST
 * synthesises along a route polyline (sample up to four polyline points,
 * look up the nearest fuel station around each, price and time the detour).
 *
 * Outbound HTTP is not modelled: the EIA answer is an `EiaReply` value and
 * the Overpass lookup is a function from the sampled point to its reply.
 */
module FuelApi {
  import opened Types
  import opened Decimal

  /** The price used when no provider value is available, USD per gallon. */
  const FallbackDieselPrice: real := 4.15

  /** How many polyline points POST samples. */
  const SampleCount: nat := 4

  /**
   * What the EIA series lookup produced: no API key configured (no request
   * is made), a failed request (network error, non-2xx, unparsable body),
   * or the `response.data[0].value` field of the answer.
   */
  datatype EiaReply = NoApiKey | Failed | Answered(value: JsonValue)

  // ---------------------------------------------------------------------
  // Reference price
  // ---------------------------------------------------------------------

  /** The provider's value when it is a number, the fixed fallback otherwise. */
  function ReferencePrice(eia: EiaReply): (p: real)
    ensures eia.Answered? && eia.value.JNumber? ==> p == eia.value.n
    ensures !(eia.Answered? && eia.value.JNumber?) ==> p == FallbackDieselPrice
  {
    match eia
    case Answered(JNumber(v)) => v
    case _ => FallbackDieselPrice
  }

  // ---------------------------------------------------------------------
  // GET: fixed demonstration stops
  // ---------------------------------------------------------------------

  /** The three demonstration stops priced relative to a live price. */
  function LiveStops(price: real): seq<FuelStop>
  {
    [ FuelStop("Love's Joliet, IL", 41.5, -88.08, price - 0.1, 6.0),
      FuelStop("TA Oklahoma City, OK", 35.45, -97.53, price - 0.2, 10.0),
      FuelStop("Pilot Dallas, TX", 32.9, -96.9, price + 0.05, 4.0) ]
  }

  /** The answer of GET when no live price is available. */
  function OfflineResponse(): FuelPriceResponse
  {
    FuelPriceResponse(FallbackDieselPrice,
      [ FuelStop("Love's Joliet, IL", 41.5, -88.08, 4.05, 6.0),
        FuelStop("TA Oklahoma City, OK", 35.45, -97.53, 3.95, 10.0),
        FuelStop("Pilot Dallas, TX", 32.9, -96.9, 4.20, 4.0) ])
  }

  /** GET: the live list when the provider gave a number, the offline list otherwise. */
  function Get(eia: EiaReply): (r: FuelPriceResponse)
    ensures r.dieselUsdPerGal == ReferencePrice(eia)
    ensures |r.stops| == 3
  {
    match eia
    case Answered(JNumber(v)) => FuelPriceResponse(v, LiveStops(v))
    case _ => OfflineResponse()
  }

  /** The price offsets of the GET stops relative to the reference price. */
  function GetOffset(i: nat): real
    requires i < 3
  {
    [-0.1, -0.2, 0.05][i]
  }

  /**
   * Both GET lists are the same three stops (names, places, detours of
   * 6, 10 and 4 minutes) priced at the reference price plus the offsets
   * -0.10, -0.20 and +0.05: the offline prices 4.05, 3.95 and 4.20 are
   * exactly those offsets applied to 4.15.
   */
  lemma GetStopsFollowReference(eia: EiaReply, i: nat)
    requires i < 3
    ensures var r := Get(eia);
      && r.stops[i].pricePerGal == r.dieselUsdPerGal + GetOffset(i)
      && r.stops[i].detourMinutes == [6.0, 10.0, 4.0][i]
      && r.stops[i].lat == [41.5, 35.45, 32.9][i]
      && r.stops[i].lon == [-88.08, -97.53, -96.9][i]
      && r.stops[i].name == ["Love's Joliet, IL", "TA Oklahoma City, OK", "Pilot Dallas, TX"][i]
  {
  }

  // ---------------------------------------------------------------------
  // POST: sampling the polyline
  // ---------------------------------------------------------------------

  /**
   * The spacing of the samples: floor(len / (SampleCount + 1)), but at
   * least 1, i.e. the largest s >= 1 with 5·s <= len, or 1 when len < 10.
   */
  function Step(len: nat): (s: nat)
    ensures s >= 1
    ensures s == 1 || (SampleCount + 1) * s <= len
    ensures (SampleCount + 1) * (s + 1) > len
  {
    var q := len / (SampleCount + 1);
    if q < 1 then 1 else q
  }

  /** The polyline index of sample k (k = 0 .. SampleCount - 1). */
  function SampleIndex(len: nat, k: nat): nat
  {
    (k + 1) * Step(len)
  }

  /** `polyline[k]`: undefined (None) when k is out of bounds. */
  function Probe(polyline: seq<LatLng>, k: nat): (r: Option<LatLng>)
    ensures r.Some? <==> k < |polyline|
    ensures r.Some? ==> r.value == polyline[k]
  {
    if k < |polyline| then Some(polyline[k]) else None
  }

  /** `Array.from({length: 4}, (_, i) => polyline[(i + 1) * step])`. */
  function Samples(polyline: seq<LatLng>): (r: seq<Option<LatLng>>)
    ensures |r| == SampleCount
  {
    seq(SampleCount, i requires 0 <= i < SampleCount => Probe(polyline, SampleIndex(|polyline|, i)))
  }

  /** `.filter(Boolean)`: the present entries, in order. */
  function Present<T>(xs: seq<Option<T>>): (r: seq<T>)
    ensures |r| <= |xs|
  {
    if xs == [] then []
    else (if xs[0].Some? then [xs[0].value] else []) + Present(xs[1..])
  }

  /** The sampled points POST looks up fuel stations around. */
  function Candidates(polyline: seq<LatLng>): seq<LatLng>
  {
    Present(Samples(polyline))
  }

  /**
   * How many samples are in bounds: sample k is in bounds exactly when
   * k < InBounds(len), because the sample indices grow with k.
   */
  function InBounds(len: nat): (n: nat)
    ensures n <= SampleCount
    ensures forall k :: 0 <= k < SampleCount ==> (SampleIndex(len, k) < len <==> k < n)
  {
    var s := Step(len);
    var n := if 4 * s < len then 4 else if 3 * s < len then 3 else if 2 * s < len then 2
      else if s < len then 1 else 0;
    assert forall k :: 0 <= k < SampleCount ==> (SampleIndex(len, k) < len <==> k < n) by {
      forall k | 0 <= k < SampleCount
        ensures SampleIndex(len, k) < len <==> k < n
      {
        assert SampleIndex(len, k) == (k + 1) * s;
        if k == 0 {} else if k == 1 {} else if k == 2 {} else {}
      }
    }
    n
  }

  /** Filtering a sequence whose first n entries are present keeps exactly those. */
  lemma {:induction false} PresentPrefix<T>(xs: seq<Option<T>>, n: nat)
    requires n <= |xs|
    requires forall i :: 0 <= i < |xs| ==> (xs[i].Some? <==> i < n)
    ensures |Present(xs)| == n
    ensures forall i :: 0 <= i < n ==> Present(xs)[i] == xs[i].value
  {
    if xs != [] {
      var m := if n == 0 then 0 else n - 1;
      assert forall i :: 0 <= i < |xs[1..]| ==> (xs[1..][i].Some? <==> i < m) by {
        forall i | 0 <= i < |xs[1..]| ensures xs[1..][i].Some? <==> i < m {
          assert xs[1..][i] == xs[i + 1];
        }
      }
      PresentPrefix(xs[1..], m);
      if n > 0 {
        forall i | 0 <= i < n ensures Present(xs)[i] == xs[i].value {
          if i > 0 { assert Present(xs)[i] == Present(xs[1..])[i - 1]; }
        }
      } else {
        assert Present(xs) == Present(xs[1..]);
      }
    }
  }

  /**
   * The candidates are the in-bounds samples, in order: candidate k is
   * polyline[(k+1)·step], its index lies strictly after index 0 and inside
   * the polyline, and the indices strictly increase.
   */
  lemma CandidatesAreSamples(polyline: seq<LatLng>)
    ensures var c := Candidates(polyline);
      && |c| == InBounds(|polyline|) <= SampleCount
      && (forall k :: 0 <= k < |c| ==>
            1 <= SampleIndex(|polyline|, k) < |polyline| && c[k] == polyline[SampleIndex(|polyline|, k)])
      && (forall j, k :: 0 <= j < k < |c| ==> SampleIndex(|polyline|, j) < SampleIndex(|polyline|, k))
  {
    var len := |polyline|;
    var xs := Samples(polyline);
    var n := InBounds(len);
    PresentPrefix(xs, n);
    forall j, k | 0 <= j < k < n
      ensures SampleIndex(len, j) < SampleIndex(len, k)
    {
      var s := Step(len);
      assert (k + 1) * s == (j + 1) * s + (k - j) * s;
    }
    forall k | 0 <= k < n ensures 1 <= SampleIndex(len, k)
    {
      var s := Step(len);
      assert (k + 1) * s >= s;
    }
  }

  /** A polyline of at least five points yields exactly four candidates. */
  lemma LongPolylineHasFourCandidates(polyline: seq<LatLng>)
    requires |polyline| >= SampleCount + 1
    ensures |Candidates(polyline)| == SampleCount
  {
    CandidatesAreSamples(polyline);
  }

  /**
   * A polyline of two to four points yields every point after the first,
   * so the destination itself is among the candidates.
   */
  lemma ShortPolylineCandidates(polyline: seq<LatLng>)
    requires 2 <= |polyline| <= SampleCount
    ensures Candidates(polyline) == polyline[1..]
    ensures Candidates(polyline)[|polyline| - 2] == polyline[|polyline| - 1]
  {
    CandidatesAreSamples(polyline);
    assert Step(|polyline|) == 1;
    var c := Candidates(polyline);
    assert |c| == |polyline| - 1;
    forall k | 0 <= k < |c| ensures c[k] == polyline[1..][k] {
      assert SampleIndex(|polyline|, k) == k + 1;
    }
  }

  // ---------------------------------------------------------------------
  // POST: the nearest fuel station (Overpass)
  // ---------------------------------------------------------------------

  /** The `tags` of an Overpass element; a missing tag is None. */
  datatype PoiTags = PoiTags(name: Option<string>, brand: Option<string>)

  /** The `center` an Overpass way carries. */
  datatype Center = Center(lat: JsonValue, lon: JsonValue)

  /** An Overpass element: `type`, `tags`, own `lat`/`lon` (nodes) and `center` (ways). */
  datatype OverpassElement = OverpassElement(
    kind: string,
    tags: PoiTags,
    lat: JsonValue,
    lon: JsonValue,
    center: Option<Center>)

  /**
   * The Overpass answer: None for a network error, a non-2xx status or an
   * unparsable body; otherwise its `elements` list.
   */
  type OverpassReply = Option<seq<OverpassElement>>

  /** A fuel station found near a sample. */
  datatype Poi = Poi(name: string, lat: real, lon: real)

  /** `tags.name || tags.brand || "Fuel Station"`. */
  function PoiName(tags: PoiTags): (r: string)
    ensures r != ""
    ensures Truthy(tags.name) ==> r == tags.name.value
    ensures !Truthy(tags.name) && Truthy(tags.brand) ==> r == tags.brand.value
    ensures !Truthy(tags.name) && !Truthy(tags.brand) ==> r == "Fuel Station"
  {
    if Truthy(tags.name) then tags.name.value
    else if Truthy(tags.brand) then tags.brand.value
    else "Fuel Station"
  }

  /** The coordinates of an element: its own for a node, its `center` otherwise. */
  function ElementPosition(el: OverpassElement): (JsonValue, JsonValue)
  {
    if el.kind == "node" then (el.lat, el.lon)
    else match el.center
      case Some(c) => (c.lat, c.lon)
      case None => (JUndefined, JUndefined)
  }

  /** `fetchNearestFuel` after the request: the first element, when it has numeric coordinates. */
  function NearestFuel(reply: OverpassReply): (r: Option<Poi>)
    ensures r.Some? ==> reply.Some? && |reply.value| > 0
    ensures r.Some? ==> r.value.name == PoiName(reply.value[0].tags) && r.value.name != ""
  {
    match reply
    case None => None
    case Some(els) =>
      if |els| == 0 then None
      else
        var el := els[0];
        var (lat, lon) := ElementPosition(el);
        if lat.JNumber? && lon.JNumber? then Some(Poi(PoiName(el.tags), lat.n, lon.n)) else None
  }

  /**
   * Only the first element matters; it yields a station exactly when its
   * coordinates (a node's own, anything else's centre) are both numbers,
   * and the station sits at those coordinates. A way or relation without
   * a centre yields none.
   */
  lemma NearestFuelUsesFirst(el: OverpassElement, rest: seq<OverpassElement>)
    ensures NearestFuel(Some([el] + rest)) == NearestFuel(Some([el]))
    ensures var (lat, lon) := ElementPosition(el);
      && (NearestFuel(Some([el])).Some? <==> lat.JNumber? && lon.JNumber?)
      && (lat.JNumber? && lon.JNumber? ==>
            NearestFuel(Some([el])).value == Poi(PoiName(el.tags), lat.n, lon.n))
    ensures el.kind == "node" ==> ElementPosition(el) == (el.lat, el.lon)
    ensures el.kind != "node" && el.center.Some? ==>
      ElementPosition(el) == (el.center.value.lat, el.center.value.lon)
    ensures el.kind != "node" && el.center.None? ==> NearestFuel(Some([el])).None?
  {
  }

  // ---------------------------------------------------------------------
  // POST: the synthesised stops
  // ---------------------------------------------------------------------

  /** The heuristic price offset of stop idx: -0.12 for even, +0.08 for odd. */
  function PriceOffset(idx: nat): real
  {
    if idx % 2 == 0 then -0.12 else 0.08
  }

  /** `parseFloat((dieselPrice + offset).toFixed(2))`. */
  function StopPrice(dieselPrice: real, idx: nat): real
  {
    RoundFixed(dieselPrice + PriceOffset(idx), 2)
  }

  /** `3 + idx * 2` minutes. */
  function DetourMinutes(idx: nat): real
  {
    3.0 + 2.0 * idx as real
  }

  /** The label of a stop for which no station was found. */
  function FallbackName(idx: nat): string
  {
    "Fuel Stop " + NatToDecimal(idx + 1)
  }

  /** Stop idx: the station found, or the sampled point under a fallback label. */
  function MakeStop(dieselPrice: real, idx: nat, base: LatLng, found: Option<Poi>): FuelStop
  {
    match found
    case Some(p) => FuelStop(p.name, p.lat, p.lon, StopPrice(dieselPrice, idx), DetourMinutes(idx))
    case None => FuelStop(FallbackName(idx), base.lat, base.lon, StopPrice(dieselPrice, idx), DetourMinutes(idx))
  }

  /** `nearestList.map((n, idx) => ...)`: one stop per candidate, in order. */
  function BuildStops(dieselPrice: real, candidates: seq<LatLng>, nearest: seq<Option<Poi>>): (stops: seq<FuelStop>)
    requires |nearest| == |candidates|
    ensures |stops| == |candidates|
    ensures forall idx :: 0 <= idx < |stops| ==>
      stops[idx] == MakeStop(dieselPrice, idx, candidates[idx], nearest[idx])
  {
    seq(|nearest|, idx requires 0 <= idx < |nearest| => MakeStop(dieselPrice, idx, candidates[idx], nearest[idx]))
  }

  /**
   * A stop takes the station's name and position when one was found and the
   * sampled point with the label "Fuel Stop {idx+1}" otherwise; its price is
   * the rounded reference price plus its offset and its detour 3 + 2·idx.
   */
  lemma MakeStopFields(dieselPrice: real, idx: nat, base: LatLng, found: Option<Poi>)
    ensures var s := MakeStop(dieselPrice, idx, base, found);
      && (found.Some? ==> s.name == found.value.name && s.lat == found.value.lat && s.lon == found.value.lon)
      && (found.None? ==> s.name == FallbackName(idx) && s.lat == base.lat && s.lon == base.lon)
      && s.pricePerGal == StopPrice(dieselPrice, idx)
      && s.detourMinutes == DetourMinutes(idx)
  {
  }

  /** Distinct positions get distinct fallback labels. */
  lemma FallbackNamesDistinct(i: nat, j: nat)
    requires i != j
    ensures FallbackName(i) != FallbackName(j)
  {
    var p := "Fuel Stop ";
    assert FallbackName(i)[|p|..] == NatToDecimal(i + 1);
    assert FallbackName(j)[|p|..] == NatToDecimal(j + 1);
    NatToDecimalInjective(i + 1, j + 1);
  }

  /** Detours strictly increase along the list and are at least 3 minutes. */
  lemma DetoursIncrease(i: nat, j: nat)
    requires i < j
    ensures 3.0 <= DetourMinutes(i) < DetourMinutes(j)
  {
  }

  /**
   * After rounding, an even-indexed stop is 11.5 to 12.5 cents cheaper than
   * the reference price and an odd-indexed one 7.5 to 8.5 cents dearer; so
   * even stops are always below and odd stops always above the reference.
   */
  lemma StopPriceBounds(dieselPrice: real, idx: nat)
    ensures idx % 2 == 0 ==>
      dieselPrice - 0.125 <= StopPrice(dieselPrice, idx) <= dieselPrice - 0.115
    ensures idx % 2 == 1 ==>
      dieselPrice + 0.075 <= StopPrice(dieselPrice, idx) <= dieselPrice + 0.085
    ensures idx % 2 == 0 <==> StopPrice(dieselPrice, idx) < dieselPrice
  {
    CentsClose(dieselPrice + PriceOffset(idx));
  }

  /** A reference price in whole cents gives exactly price - 0.12 and price + 0.08. */
  lemma StopPriceExact(cents: int, idx: nat)
    ensures StopPrice(cents as real / 100.0, idx) == cents as real / 100.0 + PriceOffset(idx)
  {
    var k := if idx % 2 == 0 then cents - 12 else cents + 8;
    assert cents as real / 100.0 + PriceOffset(idx) == k as real / 100.0;
    CentsExact(k);
  }

  // ---------------------------------------------------------------------
  // POST: the handler
  // ---------------------------------------------------------------------

  /** The `polyline` field of the request body. */
  datatype PolylineField = Absent | NotAnArray | Points(points: seq<LatLng>)

  /** The request body: unparsable JSON, or the parsed `polyline` field. */
  datatype FuelRequest = Unparsable | Parsed(polyline: PolylineField)

  /** The handler's answer: a price and stops, or the 400 "Invalid request". */
  datatype FuelResult = FuelOk(response: FuelPriceResponse) | InvalidRequest

  /** The station lookups, one per candidate, in candidate order. */
  function NearestList(candidates: seq<LatLng>, overpass: LatLng -> OverpassReply): (r: seq<Option<Poi>>)
    ensures |r| == |candidates|
    ensures forall i :: 0 <= i < |r| ==> r[i] == NearestFuel(overpass(candidates[i]))
  {
    seq(|candidates|, i requires 0 <= i < |candidates| => NearestFuel(overpass(candidates[i])))
  }

  /** POST /api/fuel. */
  function Post(req: FuelRequest, eia: EiaReply, overpass: LatLng -> OverpassReply): FuelResult
  {
    match req
    case Unparsable => InvalidRequest
    case Parsed(field) =>
      var price := ReferencePrice(eia);
      var points := if field.Points? then field.points else [];
      if field.NotAnArray? || |points| < 2 then FuelOk(FuelPriceResponse(price, []))
      else
        var candidates := Candidates(points);
        FuelOk(FuelPriceResponse(price, BuildStops(price, candidates, NearestList(candidates, overpass))))
  }

  /**
   * Only an unparsable body gives the 400 answer; every parsed request is
   * answered with the reference price.
   */
  lemma PostAnswersWithReferencePrice(req: FuelRequest, eia: EiaReply, overpass: LatLng -> OverpassReply)
    ensures Post(req, eia, overpass).InvalidRequest? <==> req.Unparsable?
    ensures req.Parsed? ==> Post(req, eia, overpass).response.dieselUsdPerGal == ReferencePrice(eia)
  {
  }

  /** A missing polyline, a non-array or fewer than two points give no stops. */
  lemma PostWithoutRouteHasNoStops(field: PolylineField, eia: EiaReply, overpass: LatLng -> OverpassReply)
    requires field.Absent? || field.NotAnArray? || (field.Points? && |field.points| < 2)
    ensures Post(Parsed(field), eia, overpass) == FuelOk(FuelPriceResponse(ReferencePrice(eia), []))
  {
  }

  /**
   * With a polyline of two or more points there is one stop per candidate,
   * at most four, in candidate order; stop idx is the station found around
   * candidate idx, or that candidate under the label "Fuel Stop {idx+1}".
   */
  lemma PostStopsFollowCandidates(points: seq<LatLng>, eia: EiaReply, overpass: LatLng -> OverpassReply)
    requires |points| >= 2
    ensures var r := Post(Parsed(Points(points)), eia, overpass);
      var c := Candidates(points);
      var price := ReferencePrice(eia);
      && r.FuelOk?
      && |r.response.stops| == |c| <= SampleCount
      && (|points| >= SampleCount + 1 ==> |r.response.stops| == SampleCount)
      && (forall idx :: 0 <= idx < |c| ==>
            var s := r.response.stops[idx];
            var found := NearestFuel(overpass(c[idx]));
            && (found.Some? ==> s.name == found.value.name && s.lat == found.value.lat && s.lon == found.value.lon)
            && (found.None? ==> s.name == FallbackName(idx) && s.lat == c[idx].lat && s.lon == c[idx].lon)
            && s.pricePerGal == StopPrice(price, idx)
            && s.detourMinutes == DetourMinutes(idx))
  {
    var c := Candidates(points);
    CandidatesAreSamples(points);
    if |points| >= SampleCount + 1 {
      LongPolylineHasFourCandidates(points);
    }
    var nearest := NearestList(c, overpass);
    var price := ReferencePrice(eia);
    forall idx | 0 <= idx < |c| {
      MakeStopFields(price, idx, c[idx], nearest[idx]);
    }
  }
}
