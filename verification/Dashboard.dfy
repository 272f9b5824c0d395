/**
 * The dashboard's cost model (src/components/dashboard/Tabs.tsx): gallons,
 * CO2, fuel cost and cost per mile of the current route, the price they
 * use, and the fuel stops ranked by net savings under a $30/h detour
 * penalty. React state is not modelled: the values the component holds in
 * state (mpg, tank size, fuel percentage, the user's price) are parameters.
 */
module Dashboard {
  import opened Types

  /** kg of CO2 per gallon of diesel burnt. */
  const Co2KgPerGallon: real := 10.21

  /** The value of a driver's hour, in dollars. */
  const TimeValuePerHour: real := 30.0

  // ---------------------------------------------------------------------
  // Trip costs
  // ---------------------------------------------------------------------

  /** `route ? route.distanceMi / mpg : 0`. */
  function GallonsNeeded(route: Option<RouteResponse>, mpg: real): real
    requires mpg != 0.0
  {
    if route.Some? then route.value.distanceMi / mpg else 0.0
  }

  function Co2Kg(gallons: real): real
  {
    gallons * Co2KgPerGallon
  }

  /** `dieselPrice ?? fuel?.dieselUsdPerGal ?? 0`. */
  function EffectivePrice(userPrice: Option<real>, fuel: Option<FuelPriceResponse>): (p: real)
    ensures userPrice.Some? ==> p == userPrice.value
    ensures userPrice.None? && fuel.Some? ==> p == fuel.value.dieselUsdPerGal
    ensures userPrice.None? && fuel.None? ==> p == 0.0
  {
    if userPrice.Some? then userPrice.value
    else if fuel.Some? then fuel.value.dieselUsdPerGal
    else 0.0
  }

  function FuelCost(gallons: real, price: real): real
  {
    gallons * price
  }

  /** `route ? fuelCost / route.distanceMi : 0`. */
  function CostPerMile(route: Option<RouteResponse>, fuelCost: real): real
    requires route.Some? ==> route.value.distanceMi != 0.0
  {
    if route.Some? then fuelCost / route.value.distanceMi else 0.0
  }

  /** The figures the Costs and CO2 tabs show. */
  datatype TripCosts = TripCosts(gallons: real, co2Kg: real, price: real, fuelCost: real, costPerMile: real)

  /** The `useMemo` chain of the component, in the order it evaluates. */
  function Costs(route: Option<RouteResponse>, mpg: real, userPrice: Option<real>, fuel: Option<FuelPriceResponse>): TripCosts
    requires mpg != 0.0
    requires route.Some? ==> route.value.distanceMi != 0.0
  {
    var gallons := GallonsNeeded(route, mpg);
    var price := EffectivePrice(userPrice, fuel);
    var cost := FuelCost(gallons, price);
    TripCosts(gallons, Co2Kg(gallons), price, cost, CostPerMile(route, cost))
  }

  /**
   * Without a route every figure but the price is zero. With one, the fuel
   * burnt is distance/mpg, CO2 is 10.21 kg per gallon of it, and the cost
   * per mile is price/mpg whatever the distance.
   */
  lemma CostsMeaning(route: Option<RouteResponse>, mpg: real, userPrice: Option<real>, fuel: Option<FuelPriceResponse>)
    requires mpg != 0.0
    requires route.Some? ==> route.value.distanceMi != 0.0
    ensures var c := Costs(route, mpg, userPrice, fuel);
      && c.price == EffectivePrice(userPrice, fuel)
      && (route.None? ==> c.gallons == 0.0 && c.co2Kg == 0.0 && c.fuelCost == 0.0 && c.costPerMile == 0.0)
      && (route.Some? ==>
            && c.gallons * mpg == route.value.distanceMi
            && c.co2Kg * mpg == route.value.distanceMi * Co2KgPerGallon
            && c.fuelCost * mpg == route.value.distanceMi * c.price
            && c.costPerMile * mpg == c.price)
  {
    if route.Some? {
      var d := route.value.distanceMi;
      var c := Costs(route, mpg, userPrice, fuel);
      assert c.gallons == d / mpg;
      assert c.fuelCost == (d / mpg) * c.price;
      assert c.costPerMile == ((d / mpg) * c.price) / d;
      assert ((d / mpg) * c.price) / d == c.price / mpg;
    }
  }

  /** On a real route (distance >= 0, mpg > 0, price >= 0) no figure is negative. */
  lemma CostsNonNegative(route: Option<RouteResponse>, mpg: real, userPrice: Option<real>, fuel: Option<FuelPriceResponse>)
    requires mpg > 0.0
    requires route.Some? ==> route.value.distanceMi > 0.0
    requires EffectivePrice(userPrice, fuel) >= 0.0
    ensures var c := Costs(route, mpg, userPrice, fuel);
      c.gallons >= 0.0 && c.co2Kg >= 0.0 && c.fuelCost >= 0.0 && c.costPerMile >= 0.0
  {
    var c := Costs(route, mpg, userPrice, fuel);
    if route.Some? {
      CostsMeaning(route, mpg, userPrice, fuel);
      assert c.gallons >= 0.0;
      assert c.fuelCost == c.gallons * c.price;
    }
  }

  // ---------------------------------------------------------------------
  // Net savings of a stop
  // ---------------------------------------------------------------------

  /** `Math.max(0, base - price)`. */
  function SavingsPerGal(base: real, price: real): (r: real)
    ensures r >= 0.0 && r >= base - price
    ensures r == 0.0 || r == base - price
  {
    if base - price > 0.0 then base - price else 0.0
  }

  /** `Math.max(0, tankSize * (1 - fuelPct / 100))`: what fills the tank. */
  function GallonsToBuy(tankSize: real, fuelPct: real): (r: real)
    ensures r >= 0.0 && r >= tankSize * (1.0 - fuelPct / 100.0)
    ensures r == 0.0 || r == tankSize * (1.0 - fuelPct / 100.0)
  {
    var g := tankSize * (1.0 - fuelPct / 100.0);
    if g > 0.0 then g else 0.0
  }

  /** The time cost of a detour: minutes at $30 an hour. */
  function DetourPenalty(detourMinutes: real): real
  {
    (detourMinutes / 60.0) * TimeValuePerHour
  }

  /** Price savings on a tank fill minus the detour's time cost. */
  function NetSavings(stop: FuelStop, base: real, tankSize: real, fuelPct: real): real
  {
    SavingsPerGal(base, stop.pricePerGal) * GallonsToBuy(tankSize, fuelPct) - DetourPenalty(stop.detourMinutes)
  }

  /** A stop priced at or above the reference price never saves money. */
  lemma NoSavingsAtOrAboveReference(stop: FuelStop, base: real, tankSize: real, fuelPct: real)
    requires stop.pricePerGal >= base && stop.detourMinutes >= 0.0
    ensures NetSavings(stop, base, tankSize, fuelPct) == -DetourPenalty(stop.detourMinutes) <= 0.0
  {
  }

  /** A longer detour never raises the savings, everything else unchanged. */
  lemma SavingsNonIncreasingInDetour(stop: FuelStop, longer: real, base: real, tankSize: real, fuelPct: real)
    requires stop.detourMinutes <= longer
    ensures NetSavings(stop.(detourMinutes := longer), base, tankSize, fuelPct)
         <= NetSavings(stop, base, tankSize, fuelPct)
  {
  }

  /** A larger price advantage over the reference never lowers the savings. */
  lemma SavingsNonDecreasingInAdvantage(stop: FuelStop, base: real, other: FuelStop, otherBase: real, tankSize: real, fuelPct: real)
    requires base - stop.pricePerGal <= otherBase - other.pricePerGal
    requires stop.detourMinutes == other.detourMinutes
    ensures NetSavings(stop, base, tankSize, fuelPct) <= NetSavings(other, otherBase, tankSize, fuelPct)
  {
    var g := GallonsToBuy(tankSize, fuelPct);
    var s1, s2 := SavingsPerGal(base, stop.pricePerGal), SavingsPerGal(otherBase, other.pricePerGal);
    assert s1 <= s2;
    assert (s2 - s1) * g >= 0.0;
  }

  /**
   * The worked case: reference 4.00, stop 3.80, a 200 gal tank half full,
   * a 6 minute detour: 100 gal at 0.20 saved, minus $3, is $17.
   */
  lemma WorkedExample()
    ensures NetSavings(FuelStop("Example", 0.0, 0.0, 3.80, 6.0), 4.00, 200.0, 50.0) == 17.0
    ensures NetSavings(FuelStop("Example", 0.0, 0.0, 4.20, 6.0), 4.00, 200.0, 50.0) == -3.0
  {
  }

  // ---------------------------------------------------------------------
  // Ranking
  // ---------------------------------------------------------------------

  /** `{ ...s, savings }`: a stop with its net savings. */
  datatype RankedStop = RankedStop(stop: FuelStop, savings: real)

  /** `fuel.stops.map(s => ({ ...s, savings }))`. */
  function WithSavings(stops: seq<FuelStop>, base: real, tankSize: real, fuelPct: real): (r: seq<RankedStop>)
    ensures |r| == |stops|
    ensures forall i :: 0 <= i < |r| ==>
      r[i].stop == stops[i] && r[i].savings == NetSavings(stops[i], base, tankSize, fuelPct)
  {
    seq(|stops|, i requires 0 <= i < |stops| => RankedStop(stops[i], NetSavings(stops[i], base, tankSize, fuelPct)))
  }

  predicate SortedBySavings(xs: seq<RankedStop>)
  {
    forall i, j :: 0 <= i < j < |xs| ==> xs[i].savings >= xs[j].savings
  }

  /** The entries whose savings equal v, in order. */
  function WithValue(xs: seq<RankedStop>, v: real): seq<RankedStop>
  {
    if xs == [] then []
    else (if xs[0].savings == v then [xs[0]] else []) + WithValue(xs[1..], v)
  }

  /** Puts x in front of the first entry that does not save more than x does. */
  function Insert(x: RankedStop, xs: seq<RankedStop>): (r: seq<RankedStop>)
    requires SortedBySavings(xs)
    ensures SortedBySavings(r)
    ensures multiset(r) == multiset(xs) + multiset{x}
    ensures |r| == |xs| + 1 && (r[0] == x || (|xs| > 0 && r[0] == xs[0]))
  {
    if xs == [] || x.savings >= xs[0].savings then [x] + xs
    else
      var t := Insert(x, xs[1..]);
      assert t[0].savings <= xs[0].savings;
      assert xs == [xs[0]] + xs[1..];
      [xs[0]] + t
  }

  /**
   * `.sort((a, b) => b.savings - a.savings)`: savings descending. The
   * sort is stable (ECMAScript 2019), which `SortStable` states.
   */
  function SortBySavings(xs: seq<RankedStop>): (r: seq<RankedStop>)
    ensures SortedBySavings(r)
    ensures multiset(r) == multiset(xs)
    ensures |r| == |xs|
  {
    if xs == [] then []
    else
      assert xs == [xs[0]] + xs[1..];
      Insert(xs[0], SortBySavings(xs[1..]))
  }

  /** Inserting x before every entry with savings no greater keeps each savings class in order. */
  lemma {:induction false} InsertStable(x: RankedStop, xs: seq<RankedStop>, v: real)
    requires SortedBySavings(xs)
    ensures WithValue(Insert(x, xs), v) == WithValue([x] + xs, v)
  {
    if xs == [] || x.savings >= xs[0].savings {
    } else {
      var rest := xs[1..];
      InsertStable(x, rest, v);
      var hx := if x.savings == v then [x] else [];
      var h0 := if xs[0].savings == v then [xs[0]] else [];
      assert hx == [] || h0 == [];
      assert ([xs[0]] + Insert(x, rest))[1..] == Insert(x, rest);
      assert ([x] + rest)[1..] == rest;
      assert ([x] + xs)[1..] == xs;
      calc {
        WithValue(Insert(x, xs), v);
        h0 + WithValue(Insert(x, rest), v);
        h0 + WithValue([x] + rest, v);
        h0 + (hx + WithValue(rest, v));
        hx + (h0 + WithValue(rest, v));
        hx + WithValue(xs, v);
        WithValue([x] + xs, v);
      }
    }
  }

  /** The sort is stable: stops with equal savings keep their input order. */
  lemma {:induction false} SortStable(xs: seq<RankedStop>, v: real)
    ensures WithValue(SortBySavings(xs), v) == WithValue(xs, v)
  {
    if xs != [] {
      SortStable(xs[1..], v);
      InsertStable(xs[0], SortBySavings(xs[1..]), v);
      assert ([xs[0]] + SortBySavings(xs[1..]))[1..] == SortBySavings(xs[1..]);
    }
  }

  /** `stopsWithSavings`: nothing until both a route and fuel data are in. */
  function Ranked(fuel: Option<FuelPriceResponse>, route: Option<RouteResponse>, tankSize: real, fuelPct: real): seq<RankedStop>
  {
    if fuel.None? || route.None? then []
    else SortBySavings(WithSavings(fuel.value.stops, fuel.value.dieselUsdPerGal, tankSize, fuelPct))
  }

  /**
   * The ranked list is empty without a route or fuel data; otherwise it is a
   * permutation of the stops, each kept whole with its net savings against
   * the fetched reference price, best first, ties in input order.
   */
  lemma RankedMeaning(fuel: Option<FuelPriceResponse>, route: Option<RouteResponse>, tankSize: real, fuelPct: real, v: real)
    ensures fuel.None? || route.None? ==> Ranked(fuel, route, tankSize, fuelPct) == []
    ensures fuel.Some? && route.Some? ==>
      var all := WithSavings(fuel.value.stops, fuel.value.dieselUsdPerGal, tankSize, fuelPct);
      var r := Ranked(fuel, route, tankSize, fuelPct);
      && multiset(r) == multiset(all)
      && SortedBySavings(r)
      && WithValue(r, v) == WithValue(all, v)
      && (forall k :: 0 <= k < |r| ==>
            r[k].stop in fuel.value.stops &&
            r[k].savings == NetSavings(r[k].stop, fuel.value.dieselUsdPerGal, tankSize, fuelPct))
  {
    if fuel.Some? && route.Some? {
      var all := WithSavings(fuel.value.stops, fuel.value.dieselUsdPerGal, tankSize, fuelPct);
      var r := Ranked(fuel, route, tankSize, fuelPct);
      SortStable(all, v);
      forall k | 0 <= k < |r|
        ensures r[k].stop in fuel.value.stops
        ensures r[k].savings == NetSavings(r[k].stop, fuel.value.dieselUsdPerGal, tankSize, fuelPct)
      {
        assert r[k] in multiset(all);
        assert r[k] in all;
      }
    }
  }
}
