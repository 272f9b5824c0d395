# Route, fuel-stop and savings pipeline of a logistics dashboard

This Dafny project models the decision logic of a trucking dashboard. The
dashboard resolves an origin and a destination to a driving route. It then
proposes fuel stops along that route and ranks them by net savings: the
price advantage on a tank fill, minus a $30/h cost for the detour.

The logic sits in three places, and each is a module here:

- `RouteApi` models `src/app/api/route/route.ts`. Each end is geocoded
  with the ORS geocoder (only with an API key), then Nominatim. The route
  comes from ORS directions (only with a key), then OSRM, and otherwise a
  fixed Chicago → Dallas route of 925 miles and 840 minutes. GeoJSON
  `[lon, lat]` positions (RFC 7946 section 3.1.1) become `{lat, lon}`
  records. Metres become miles and seconds become minutes.
- `FuelApi` models `src/app/api/fuel/route.ts`.
  - The reference diesel price is the EIA value when it is a number, else
    4.15.
  - GET answers with three stops at fixed places, priced from the reference
    price.
  - POST samples up to four polyline points at `k·step`, where
    `step = max(1, floor(len/5))`. It looks up the first Overpass fuel
    station around each sample, or keeps the sample under the label
    "Fuel Stop {idx+1}". The price of stop idx is the reference −0.12 for
    even idx and +0.08 for odd idx, rounded to cents. Its detour is
    `3 + 2·idx` minutes.
- `Dashboard` and `CsvExport` model the computations in
  `src/components/dashboard/Tabs.tsx`.
  - The trip figures: gallons, CO₂, fuel cost, cost per mile and the
    effective price.
  - The stable descending ranking of stops by net savings.
  - The CSV report, whose fields are quoted per RFC 4180 section 2, rule 7.

`Types` holds the record shapes of `src/lib/types.ts`. `Decimal` holds
JavaScript's number formatting on exact reals: `${n}` and `toFixed`.
`Pipeline` states properties that span the modules.

Every function is pure. The handlers have no loops. Their one mutable
variable, the fuel handler's diesel price that starts at a default and is
overwritten by the provider's number, becomes the function `ReferencePrice`.
Their `.map`, `.filter` and `.sort` calls become sequence functions.

Each network provider is an input. The EIA lookup is an `EiaReply` value.
The Overpass lookup is a function from the sampled point to its reply. The
geocoders, the directions services and `parseFloat` are fields of a
`Providers` record. Nothing is fetched, and no clock or randomness is
involved.

Three behaviours of the code are easy to miss:

- A `fetch` inside `directions` or `osrmDirections` that throws is not
  caught there. It reaches the handler's `catch`, which answers 400
  "Invalid request". The route never falls back to OSRM or to the static
  route in that case.
- ORS directions accept an empty `coordinates` array. OSRM accepts any
  present `coordinates`. Neither is checked for being non-empty.
- The sampler can pick the last polyline point. It does so for 2 to 4
  points, where it picks indices 1..len−1, and for exactly 5 points, where
  it picks index 4.

## Model

| member | source | states |
|---|---|---|
| `Decimal.NatToDecimal` | src/app/api/fuel/route.ts:123 | `${n}` for the stop label: a non-empty digit string without a leading zero whose decimal value is n |
| `Decimal.FormatFixedShape` | src/components/dashboard/Tabs.tsx:109-116 | `x.toFixed(d)` prints '-' exactly when x < 0, then an integer part of one or more digits with no leading '0' unless it is the only digit, then, when d > 0, a '.' and exactly d digits; the digits read as one number are round-half-up of \|x\|·10^d |
| `Decimal.CentsClose` | src/app/api/fuel/route.ts:128 | `parseFloat(x.toFixed(2))` lies within half a cent of x |
| `Decimal.CentsExact` | src/app/api/fuel/route.ts:128 | a whole number of cents passes `toFixed(2)` unchanged |
| `FuelApi.ReferencePrice` | src/app/api/fuel/route.ts:59-80 | the price is the provider's value exactly when it is a number, and 4.15 in every other case (no key, failure, non-numeric value) |
| `FuelApi.Get` | src/app/api/fuel/route.ts:6-51 | GET answers with the same reference price as POST and always three stops |
| `FuelApi.GetStopsFollowReference` | src/app/api/fuel/route.ts:27-49 | in both GET lists, stop i costs the reference price plus −0.10, −0.20 or +0.05, with detours 6, 10 and 4, fixed names and fixed coordinates; the offline prices 4.05/3.95/4.20 are those offsets applied to 4.15 |
| `FuelApi.Step` | src/app/api/fuel/route.ts:89-90 | the step is at least 1; it is the largest s with 5·s ≤ len, or 1 when len < 10 |
| `FuelApi.InBounds` | src/app/api/fuel/route.ts:90-91 | at most 4 samples; sample k is in bounds exactly when k is below this count |
| `FuelApi.CandidatesAreSamples` | src/app/api/fuel/route.ts:89-91 | the candidates are the in-bounds samples in order: candidate k is `polyline[(k+1)·step]`, with index ≥ 1 (never index 0) and in bounds; indices strictly increase; at most 4 |
| `FuelApi.LongPolylineHasFourCandidates` | src/app/api/fuel/route.ts:89-91 | five or more points give exactly four candidates |
| `FuelApi.ShortPolylineCandidates` | src/app/api/fuel/route.ts:89-91 | 2 to 4 points give exactly the points after the first, so the last point is selected |
| `FuelApi.PoiName` | src/app/api/fuel/route.ts:109 | the station name is the non-empty `name` tag, else the non-empty `brand` tag, else "Fuel Station"; it is never empty |
| `FuelApi.NearestFuel` | src/app/api/fuel/route.ts:105-115 | a station is found only from a successful, non-empty reply, and it carries the first element's name |
| `FuelApi.NearestFuelUsesFirst` | src/app/api/fuel/route.ts:107-115 | only the first element matters; a station is found exactly when its coordinates are both numbers (a node's own, else the way's centre), and the station is at those coordinates; a way without a centre gives no station |
| `FuelApi.NearestList` | src/app/api/fuel/route.ts:118 | one lookup per candidate, in candidate order |
| `FuelApi.BuildStops` | src/app/api/fuel/route.ts:119-131 | exactly one stop per candidate, stop idx built from candidate idx and lookup idx |
| `FuelApi.MakeStopFields` | src/app/api/fuel/route.ts:119-130 | a found station gives the name, lat and lon; otherwise the candidate's lat and lon with the label "Fuel Stop {idx+1}"; the price and detour come from the heuristic |
| `FuelApi.FallbackNamesDistinct` | src/app/api/fuel/route.ts:123 | different positions get different fallback labels |
| `FuelApi.DetoursIncrease` | src/app/api/fuel/route.ts:129 | detours start at 3 minutes and strictly increase along the list |
| `FuelApi.StopPriceBounds` | src/app/api/fuel/route.ts:128 | after rounding, even stops are 11.5–12.5 cents below the reference and odd stops 7.5–8.5 cents above it; a stop is below the reference exactly when its index is even |
| `FuelApi.StopPriceExact` | src/app/api/fuel/route.ts:128 | with a reference price in whole cents, the stop price is exactly the reference −0.12 or +0.08 |
| `FuelApi.PostAnswersWithReferencePrice` | src/app/api/fuel/route.ts:54-137 | POST answers 400 exactly when the body is unparsable; every other answer carries the reference price |
| `FuelApi.PostWithoutRouteHasNoStops` | src/app/api/fuel/route.ts:82-86 | a missing or non-array polyline, or one with fewer than 2 points, gives no stops and still returns the reference price |
| `FuelApi.PostStopsFollowCandidates` | src/app/api/fuel/route.ts:88-134 | with two or more points: one stop per candidate, at most 4 (exactly 4 from 5 points up), in order, each the station found around its candidate or the candidate itself, priced and timed by position |
| `RouteApi.GeocodePrecedence` | src/app/api/route/route.ts:14-47 | an ORS answer with ≥ 2 coordinates wins as {lon: c[0], lat: c[1]} (only with a key); otherwise the Nominatim hit if its lon and lat are non-empty, as {lon: parseFloat(lon), lat: parseFloat(lat)}; null exactly when both fail |
| `RouteApi.ToPolyline` | src/app/api/route/route.ts:72-73 | each `[lon, lat]` becomes `{lat, lon}`; length and order are kept |
| `RouteApi.PolylineRoundTrip` | src/app/api/route/route.ts:91-92 | the position conversion loses nothing: the swap back gives the original coordinates, and the reverse holds too |
| `RouteApi.UnitRoundTrip` | src/app/api/route/route.ts:74-76 | metres→miles (÷1609.344) and seconds→minutes (÷60) are undone exactly by their inverses and shrink non-negative values |
| `RouteApi.DirectionsConvert` | src/app/api/route/route.ts:49-99 | ORS gives nothing without a key; each service throws exactly when its fetch throws, gives null on a non-2xx status or when the summary or coordinates are missing, and gives a route whenever a 2xx answer has them; that route has the distance and duration converted, the coordinates converted in order, and the geocoded points as waypoints |
| `RouteApi.FallbackRouteShape` | src/app/api/route/route.ts:117-125 | the static route is 925 miles, 840 minutes, the 4-point path of lines 7-12, with its first and last points as waypoints |
| `RouteApi.PostProviderOrder` | src/app/api/route/route.ts:101-126 | providers are tried only when both geocodes succeed; ORS first, then OSRM; the first route given is returned; the static route otherwise; a throw gives 400 |
| `RouteApi.PostOutcomes` | src/app/api/route/route.ts:101-129 | 400 exactly for an unparsable body (not JSON, or JSON `null`, whose destructuring throws) or a directions call that throws; every route answered is the static one or has the two geocoded points as waypoints |
| `RouteApi.UnreachableGeocodersGiveFallback` | src/app/api/route/route.ts:106-126 | with every geocoder unreachable, the answer is exactly the static route |
| `Dashboard.EffectivePrice` | src/components/dashboard/Tabs.tsx:68 | the user's price when set, else the fetched reference price, else 0 |
| `Dashboard.CostsMeaning` | src/components/dashboard/Tabs.tsx:66-70 | without a route, gallons, CO₂, cost and cost per mile are 0; with one, gallons·mpg = distance, CO₂·mpg = distance·10.21, cost·mpg = distance·price and cost per mile = price/mpg |
| `Dashboard.CostsNonNegative` | src/components/dashboard/Tabs.tsx:66-70 | with positive distance and mpg and a non-negative price, no figure is negative |
| `Dashboard.SavingsPerGal` | src/components/dashboard/Tabs.tsx:83 | savings per gallon are ≥ 0 and ≥ base − price, and equal to one of them |
| `Dashboard.GallonsToBuy` | src/components/dashboard/Tabs.tsx:84 | gallons to buy are ≥ 0 and ≥ tank·(1 − pct/100), and equal to one of them |
| `Dashboard.NoSavingsAtOrAboveReference` | src/components/dashboard/Tabs.tsx:83-86 | a stop priced at or above the reference, with a non-negative detour, saves exactly minus its detour penalty, which is ≤ 0 |
| `Dashboard.SavingsNonIncreasingInDetour` | src/components/dashboard/Tabs.tsx:85-86 | a longer detour never raises net savings |
| `Dashboard.SavingsNonDecreasingInAdvantage` | src/components/dashboard/Tabs.tsx:83-86 | a larger advantage of the reference over the stop price never lowers net savings |
| `Dashboard.WorkedExample` | src/components/dashboard/Tabs.tsx:82-86 | reference 4.00, stop 3.80, a 200 gal tank at 50%, 6 min detour: $17 saved; at 4.20: −$3 |
| `Dashboard.WithSavings` | src/components/dashboard/Tabs.tsx:81-87 | each stop is kept whole, in place, with its net savings against the fetched price |
| `Dashboard.Insert` | src/components/dashboard/Tabs.tsx:88 | insertion keeps the list sorted by savings (descending) and adds exactly the one entry |
| `Dashboard.SortBySavings` | src/components/dashboard/Tabs.tsx:88 | the sort returns a permutation of its input, sorted by savings descending |
| `Dashboard.InsertStable` | src/components/dashboard/Tabs.tsx:88 | inserting keeps the order within every class of equal savings |
| `Dashboard.SortStable` | src/components/dashboard/Tabs.tsx:88 | the sort is stable: for every savings value, the entries with that value keep their input order |
| `Dashboard.RankedMeaning` | src/components/dashboard/Tabs.tsx:79-89 | empty without fuel data or a route; otherwise a permutation of the stops with their savings, sorted descending, ties in input order, every entry an input stop with its own net savings |
| `CsvExport.EscapeCsv` | src/components/dashboard/Tabs.tsx:105 | an escaped field starts and ends with a double quote |
| `CsvExport.ReadQuotedEscaped` | src/components/dashboard/Tabs.tsx:105 | reading a doubled-quote body up to its closing quote gives back the value and what follows |
| `CsvExport.EscapeRoundTrip` | src/components/dashboard/Tabs.tsx:105 | RFC 4180 rule 7: stripping the outer quotes and collapsing `""` gives the original value |
| `CsvExport.EscapeInjective` | src/components/dashboard/Tabs.tsx:105 | different values escape differently |
| `CsvExport.ParseFieldsOfLine` | src/components/dashboard/Tabs.tsx:118 | a comma-joined line of escaped fields reads back as exactly those fields |
| `CsvExport.CsvRoundTrip` | src/components/dashboard/Tabs.tsx:118 | newline-joined lines read back as exactly their records |
| `CsvExport.TwoLinesReadBack` | src/components/dashboard/Tabs.tsx:118 | a header line and a data line read back as exactly those two records |
| `CsvExport.ReportRow` | src/components/dashboard/Tabs.tsx:106-117 | the data row has one field per header |
| `CsvExport.ReportReadsBack` | src/components/dashboard/Tabs.tsx:105-118 | the report text reads back as exactly two records, the ten headers and the `ReportRow` data line, whatever quotes, commas or line breaks the place names hold |
| `CsvExport.ExportCsvIsReport` | src/components/dashboard/Tabs.tsx:91-119 | no report exactly when there is no route; with one, the report of the trip's current figures |
| `CsvExport.ExportCsvReadsBack` | src/components/dashboard/Tabs.tsx:91-119 | no report without a route; otherwise the downloaded text reads back as the headers and a data line of 10 fields |
| `Pipeline.FallbackRouteCandidates` | src/app/api/fuel/route.ts:89-91 | the static route's 4 points give 3 candidates, the points after Chicago, and the last one is the destination |
| `Pipeline.FallbackRouteStops` | src/app/api/fuel/route.ts:88-134 | stops along the static route are three, priced from the reference price by position and timed 3, 5 and 7 minutes; each is the station found around its sample (its name, lat and lon) or the sample itself under its "Fuel Stop {idx+1}" label |
| `Pipeline.SynthesisedSavings` | src/app/api/fuel/route.ts:128-129 | against its reference price, an odd-position synthesised stop saves exactly −(1.5 + idx) < 0; an even one saves 11.5–12.5 cents per gallon bought, minus 1.5 + idx |
| `Pipeline.SynthesisedStopSavings` | src/app/api/fuel/route.ts:119-133 | the same holds for every stop POST returns, ranked against the price in the same response |

## Left out

- Outbound HTTP. This covers the EIA, ORS, Nominatim, OSRM and Overpass
  requests, and how their URLs, headers, query strings and Overpass QL are
  built. Each provider's answer is an input to the model.
- `parseFloat` of Nominatim's coordinate strings. It is a parameter of
  `RouteApi.Providers`, not a decimal parser.
- `Promise.all` concurrency. Both fan-outs are modelled as an ordered map.
  Each Overpass lookup is a function of its sample point alone, so two
  samples at the same point get the same answer.
- IEEE-754 doubles. Numbers are exact reals, so 1609.344 and 60 divide
  exactly. NaN, Infinity and `toFixed`'s exponent notation from 1e21 up are
  not modelled.
- Division by zero. The source does not guard `mpg` or `distanceMi`.
  `Dashboard.Costs` and `CsvExport.ExportCsv` require both to be non-zero.
  JavaScript would print Infinity or NaN there.
- Malformed JSON shapes beyond those the handlers test.
  - Polyline entries are always `{lat, lon}` records. A `null` entry,
    which `filter(Boolean)` would also drop, is not modelled.
  - Tag values are strings.
  - ORS geocoder coordinates are numbers.
  - A GeoJSON position's altitude is ignored.
- React state and effects. This covers `useState`, `useEffect` (including
  the one-time `toFixed(3)` copy of the fetched price into the editable
  price), `useQuery` caching, toasts and `fileDownload`. The values held in
  state are parameters.
- Persistence (src/app/api/trips/route.ts), the map, the splash screen
  and configuration. They are not part of this model.
