/** The route generator: geocode the requested names, prepend the traveller's position, route
    through all stops, attach the weather that could be fetched, ask for recommendations when a
    mood is given, and total the route. */
module RouteGeneration {
  import opened Wrappers
  import opened Types
  import Maps
  import Weather
  import Gemini

  /** The generator holds the three services it was built with. */
  datatype RouteGenerator = RouteGenerator(maps: Maps.MapsService, weather: Weather.WeatherService, gemini: Gemini.GeminiService)

  const CurrentLocationName := "Current Location"

  /** The error a name that cannot be geocoded is reported with. */
  function NotFound(name: string): (msg: string)
    ensures "Failed to find location: " <= msg && msg[|"Failed to find location: "|..] == name
  {
    "Failed to find location: " + name
  }

  // ---------------------------------------------------------------- geocoding every name

  /** Looking up one name, with the rejection `geocodeLocations` turns a failure into. */
  function Lookup(maps: Maps.MapsService, name: string): (r: Result<Location>)
    ensures r.Err? <==> Maps.GeocodeLocation(maps, name).Err?
    ensures r.Err? ==> r.error == NotFound(name)
    ensures r.Ok? ==> r == Maps.GeocodeLocation(maps, name) && r.value.name == name
  {
    match Maps.GeocodeLocation(maps, name)
    case Err(_) => Err(NotFound(name))
    case Ok(loc) => Ok(loc)
  }

  /** The lookup of each requested name, in order. */
  function Lookups(maps: Maps.MapsService, names: seq<string>): (rs: seq<Result<Location>>)
    ensures |rs| == |names|
    ensures forall i :: 0 <= i < |names| ==> rs[i] == Lookup(maps, names[i])
  {
    seq(|names|, i requires 0 <= i < |names| => Lookup(maps, names[i]))
  }

  /** What `geocodeLocations` resolves to: all the locations, or the rejection of the first name in
      request order that cannot be found. */
  function GeocodeAll(maps: Maps.MapsService, names: seq<string>): (r: Result<seq<Location>>)
    ensures r.Ok? ==> |r.value| == |names|
    ensures r.Err? ==> exists k :: 0 <= k < |names| && r.error == NotFound(names[k])
  {
    Collect(Lookups(maps, names))
  }

  /** All-or-nothing geocoding: every name found, in the requested order and keeping its name, or
      the error naming the first name that was not found, every earlier name having been found. */
  lemma GeocodeAllShape(maps: Maps.MapsService, names: seq<string>)
    ensures GeocodeAll(maps, names).Ok? ==>
      && |GeocodeAll(maps, names).value| == |names|
      && forall k :: 0 <= k < |names| ==>
           GeocodeAll(maps, names).value[k].name == names[k] &&
           Ok(GeocodeAll(maps, names).value[k]) == Maps.GeocodeLocation(maps, names[k])
    ensures GeocodeAll(maps, names).Err? <==> exists k :: 0 <= k < |names| && Maps.GeocodeLocation(maps, names[k]).Err?
    ensures GeocodeAll(maps, names).Err? ==>
      var k := FirstErr(Lookups(maps, names));
      && k.Some? && k.value < |names|
      && GeocodeAll(maps, names) == Err(NotFound(names[k.value]))
      && Maps.GeocodeLocation(maps, names[k.value]).Err?
      && forall j :: 0 <= j < k.value ==> Maps.GeocodeLocation(maps, names[j]).Ok?
  {
    var rs := Lookups(maps, names);
    if Collect(rs).Err? {
      CollectErr(rs);
      var k := FirstErr(rs).value;
      assert rs[k] == Lookup(maps, names[k]);
      forall j | 0 <= j < k
        ensures Maps.GeocodeLocation(maps, names[j]).Ok?
      {
        assert rs[j].Ok? && rs[j] == Lookup(maps, names[j]);
      }
    } else {
      CollectOk(rs);
      forall k | 0 <= k < |names|
        ensures Ok(Collect(rs).value[k]) == Maps.GeocodeLocation(maps, names[k])
        ensures Collect(rs).value[k].name == names[k]
      {
        assert Ok(Collect(rs).value[k]) == rs[k] == Lookup(maps, names[k]);
      }
    }
  }

  /** `geocodeLocations`, one name after the other. */
  method GeocodeLocations(maps: Maps.MapsService, names: seq<string>) returns (r: Result<seq<Location>>)
    ensures r == GeocodeAll(maps, names)
  {
    ghost var rs := Lookups(maps, names);
    var found: seq<Location> := [];
    assert rs[0..] == rs;
    assert Prepend(found, Collect(rs)) == Collect(rs) by {
      assert Collect(rs).Ok? ==> found + Collect(rs).value == Collect(rs).value;
    }
    for i := 0 to |names|
      invariant GeocodeAll(maps, names) == Prepend(found, Collect(rs[i..]))
    {
      var loc := Maps.GeocodeLocation(maps, names[i]);
      CollectStep(rs, i);
      if loc.Err? {
        return Err(NotFound(names[i]));
      }
      PrependTwice(found, [loc.value], Collect(rs[i + 1..]));
      found := found + [loc.value];
    }
    assert rs[|names|..] == [];
    assert found + [] == found;
    return Ok(found);
  }

  // ---------------------------------------------------------------- the stops

  /** The stops routed through: the traveller's position, named "Current Location", ahead of the
      geocoded places when a position was sent. */
  function AllLocations(request: RouteRequest, geocoded: seq<Location>): (all: seq<Location>)
    ensures request.currentLocation.None? ==> all == geocoded
    ensures request.currentLocation.Some? ==>
      && |all| == |geocoded| + 1
      && all[0] == Location(CurrentLocationName, request.currentLocation.value.lat, request.currentLocation.value.lng, None)
      && all[1..] == geocoded
  {
    match request.currentLocation
    case None => geocoded
    case Some(c) => [Location(CurrentLocationName, c.lat, c.lng, None)] + geocoded
  }

  // ---------------------------------------------------------------- totals

  /** `xs.reduce((sum, x) => sum + x, 0)`. */
  function Sum(xs: seq<int>): int
  {
    if xs == [] then 0 else Sum(xs[..|xs| - 1]) + xs[|xs| - 1]
  }

  /** A sum over two pieces is the sum of the sums, so the order of accumulation does not matter. */
  lemma {:induction false} SumAppend(a: seq<int>, b: seq<int>)
    ensures Sum(a + b) == Sum(a) + Sum(b)
    decreases |b|
  {
    if b != [] {
      assert (a + b)[..|a + b| - 1] == a + b[..|b| - 1];
      SumAppend(a, b[..|b| - 1]);
    } else {
      assert a + b == a;
    }
  }

  /** A sum of non-negative terms is non-negative and bounds each term. */
  lemma {:induction false} SumBoundsTerms(xs: seq<int>)
    requires forall i :: 0 <= i < |xs| ==> xs[i] >= 0
    ensures Sum(xs) >= 0
    ensures forall i :: 0 <= i < |xs| ==> xs[i] <= Sum(xs)
  {
    if xs != [] {
      SumBoundsTerms(xs[..|xs| - 1]);
      assert forall i :: 0 <= i < |xs| - 1 ==> xs[..|xs| - 1][i] == xs[i];
    }
  }

  function Durations(route: seq<RouteSegment>): (ds: seq<int>)
    ensures |ds| == |route| && forall i :: 0 <= i < |route| ==> ds[i] == route[i].duration
  {
    seq(|route|, i requires 0 <= i < |route| => route[i].duration)
  }

  function Distances(route: seq<RouteSegment>): (ds: seq<int>)
    ensures |ds| == |route| && forall i :: 0 <= i < |route| ==> ds[i] == route[i].distance
  {
    seq(|route|, i requires 0 <= i < |route| => route[i].distance)
  }

  /** An empty route totals zero; otherwise the totals split over any cut of the route. */
  lemma TotalsSplit(a: seq<RouteSegment>, b: seq<RouteSegment>)
    ensures Sum(Durations([])) == 0 && Sum(Distances([])) == 0
    ensures Sum(Durations(a + b)) == Sum(Durations(a)) + Sum(Durations(b))
    ensures Sum(Distances(a + b)) == Sum(Distances(a)) + Sum(Distances(b))
  {
    assert Durations(a + b) == Durations(a) + Durations(b);
    assert Distances(a + b) == Distances(a) + Distances(b);
    SumAppend(Durations(a), Durations(b));
    SumAppend(Distances(a), Distances(b));
  }

  // ---------------------------------------------------------------- weather and recommendations

  /** The weather outcome of every stop, in stop order, `target` being the forecast time. */
  function WeatherResults(gen: RouteGenerator, stops: seq<Location>, target: int): (rs: seq<Result<WeatherInfo>>)
    ensures |rs| == |stops| && forall i :: 0 <= i < |stops| ==> rs[i] == Weather.WeatherAt(gen.weather, stops[i], target)
  {
    MapSeq((loc: Location) => Weather.WeatherAt(gen.weather, loc, target), stops)
  }

  /** `if (request.mood)`: a mood that is present and non-empty. */
  predicate HasMood(request: RouteRequest)
  {
    request.mood.Some? && request.mood.value != ""
  }

  /** The spots recommended for the stops, none when no mood was given. The traveller's position is
      passed along as the first stop when a position was sent. */
  function Recommendations(gen: RouteGenerator, request: RouteRequest, stops: seq<Location>): (spots: seq<RecommendedSpot>)
    requires request.currentLocation.Some? ==> |stops| > 0
    ensures !HasMood(request) ==> spots == []
  {
    if HasMood(request) then
      Gemini.RecommendSpots(gen.gemini, request.mood.value, stops,
        if request.currentLocation.Some? then Some(stops[0]) else None)
    else []
  }

  // ---------------------------------------------------------------- the whole pipeline

  /** What `generateRoute` resolves to, `target` being the forecast time. */
  function Generate(gen: RouteGenerator, request: RouteRequest, target: int): (r: Result<RouteResponse>)
  {
    match GeocodeAll(gen.maps, request.locations)
    case Err(e) => Err(e)
    case Ok(geocoded) =>
      var stops := AllLocations(request, geocoded);
      match Maps.Route(gen.maps, stops, request.preferences)
      case Err(e) => Err(e)
      case Ok(route) =>
        var spots := Recommendations(gen, request, stops);
        Ok(RouteResponse(route, Sum(Durations(route)), Sum(Distances(route)),
          Successes(WeatherResults(gen, stops, target)),
          if |spots| > 0 then Some(spots) else None))
  }

  lemma WeatherResultsSnoc(gen: RouteGenerator, stops: seq<Location>, i: nat, target: int)
    requires i < |stops|
    ensures WeatherResults(gen, stops[..i + 1], target) ==
      WeatherResults(gen, stops[..i], target) + [Weather.WeatherAt(gen.weather, stops[i], target)]
  {
    MapSeqSnoc((loc: Location) => Weather.WeatherAt(gen.weather, loc, target), stops, i);
  }

  /** The weather of every stop, one stop after the other, keeping the lookups that succeeded. */
  method FetchWeather(gen: RouteGenerator, stops: seq<Location>, target: int) returns (weather: seq<WeatherInfo>)
    ensures weather == Successes(WeatherResults(gen, stops, target))
  {
    weather := [];
    for i := 0 to |stops|
      invariant weather == Successes(WeatherResults(gen, stops[..i], target))
    {
      var w := Weather.GetWeather(gen.weather, stops[i], target);
      assert Successes(WeatherResults(gen, stops[..i + 1], target)) == weather + Successes([w]) by {
        WeatherResultsSnoc(gen, stops, i, target);
        SuccessesAppend(WeatherResults(gen, stops[..i], target), [w]);
      }
      assert Successes([w]) == if w.Ok? then [w.value] else [];
      if w.Ok? {
        weather := weather + [w.value];
      }
    }
    assert stops[..|stops|] == stops;
  }

  /** `generateRoute`, step by step. */
  method GenerateRoute(gen: RouteGenerator, request: RouteRequest, target: int) returns (r: Result<RouteResponse>)
    ensures r == Generate(gen, request, target)
  {
    var locations := GeocodeLocations(gen.maps, request.locations);
    if locations.Err? {
      return Err(locations.error);
    }
    var allLocations := AllLocations(request, locations.value);
    var routeSegments := Maps.CalculateRoute(gen.maps, allLocations, request.preferences);
    if routeSegments.Err? {
      return Err(routeSegments.error);
    }
    var weather := FetchWeather(gen, allLocations, target);
    var recommendedSpots: seq<RecommendedSpot> := [];
    if HasMood(request) {
      recommendedSpots := Gemini.RecommendSpots(gen.gemini, request.mood.value, allLocations,
        if request.currentLocation.Some? then Some(allLocations[0]) else None);
    }
    var totalDuration := Sum(Durations(routeSegments.value));
    var totalDistance := Sum(Distances(routeSegments.value));
    return Ok(RouteResponse(routeSegments.value, totalDuration, totalDistance, weather,
      if |recommendedSpots| > 0 then Some(recommendedSpots) else None));
  }

  // ---------------------------------------------------------------- properties of the pipeline

  /** A name that cannot be geocoded fails the whole request with that name, the first such name
      when there are several. */
  lemma GeocodeFailureIsFatal(gen: RouteGenerator, request: RouteRequest, target: int, k: nat)
    requires k < |request.locations| && Maps.GeocodeLocation(gen.maps, request.locations[k]).Err?
    ensures Generate(gen, request, target).Err?
    ensures var first := FirstErr(Lookups(gen.maps, request.locations));
      first.Some? && first.value <= k && Generate(gen, request, target) == Err(NotFound(request.locations[first.value]))
  {
    GeocodeAllShape(gen.maps, request.locations);
  }

  /** The request succeeds exactly when every name is found and the route can be computed; the
      route in the response is that route, and a routing error is passed on unchanged. */
  lemma RouteIsPassedThrough(gen: RouteGenerator, request: RouteRequest, target: int)
    ensures GeocodeAll(gen.maps, request.locations).Err? ==>
      Generate(gen, request, target) == Err(GeocodeAll(gen.maps, request.locations).error)
    ensures GeocodeAll(gen.maps, request.locations).Ok? ==>
      var route := Maps.Route(gen.maps, AllLocations(request, GeocodeAll(gen.maps, request.locations).value), request.preferences);
      && (route.Err? ==> Generate(gen, request, target) == Err(route.error))
      && (route.Ok? ==> Generate(gen, request, target).Ok? && Generate(gen, request, target).value.route == route.value)
  {
  }

  /** The route has one segment per consecutive pair of stops, the first stop being the
      traveller's position when one was sent. */
  lemma ResponseRouteShape(gen: RouteGenerator, request: RouteRequest, target: int)
    requires Generate(gen, request, target).Ok?
    ensures |Generate(gen, request, target).value.route| ==
      |request.locations| + (if request.currentLocation.Some? then 1 else 0) - 1
    ensures request.currentLocation.Some? ==>
      Generate(gen, request, target).value.route[0].from.name == CurrentLocationName
  {
    var geocoded := GeocodeAll(gen.maps, request.locations).value;
    GeocodeAllShape(gen.maps, request.locations);
    var stops := AllLocations(request, geocoded);
    Maps.RouteShape(gen.maps, stops, request.preferences);
    Maps.RouteFailure(gen.maps, stops, request.preferences);
  }

  /** Weather is best effort: the outcome of the request does not depend on the weather service,
      and the response keeps the weather of the stops that had some, in stop order. */
  lemma WeatherIsBestEffort(gen: RouteGenerator, other: Weather.WeatherService, request: RouteRequest, target: int)
    ensures Generate(gen, request, target).Ok? <==> Generate(gen.(weather := other), request, target).Ok?
    ensures Generate(gen, request, target).Ok? ==>
      var stops := AllLocations(request, GeocodeAll(gen.maps, request.locations).value);
      && |Generate(gen, request, target).value.weather| <= |stops|
      && Generate(gen, request, target).value.weather == Successes(WeatherResults(gen, stops, target))
  {
  }

  /** When every stop has weather, the response has the weather of every stop, in stop order. */
  lemma AllWeatherKept(gen: RouteGenerator, request: RouteRequest, target: int)
    requires Generate(gen, request, target).Ok?
    requires forall i :: 0 <= i < |AllLocations(request, GeocodeAll(gen.maps, request.locations).value)| ==>
      Weather.WeatherAt(gen.weather, AllLocations(request, GeocodeAll(gen.maps, request.locations).value)[i], target).Ok?
    ensures |Generate(gen, request, target).value.weather| == |AllLocations(request, GeocodeAll(gen.maps, request.locations).value)|
    ensures forall i :: 0 <= i < |Generate(gen, request, target).value.weather| ==>
      Generate(gen, request, target).value.weather[i].location ==
        AllLocations(request, GeocodeAll(gen.maps, request.locations).value)[i]
  {
    var stops := AllLocations(request, GeocodeAll(gen.maps, request.locations).value);
    SuccessesAllOk(WeatherResults(gen, stops, target));
  }

  /** The totals are the sums of the segment durations and distances. */
  lemma TotalsAreSums(gen: RouteGenerator, request: RouteRequest, target: int)
    requires Generate(gen, request, target).Ok?
    ensures Generate(gen, request, target).value.totalDuration == Sum(Durations(Generate(gen, request, target).value.route))
    ensures Generate(gen, request, target).value.totalDistance == Sum(Distances(Generate(gen, request, target).value.route))
    ensures Generate(gen, request, target).value.route == [] ==>
      Generate(gen, request, target).value.totalDuration == 0 && Generate(gen, request, target).value.totalDistance == 0
  {
  }

  /** The recommender is consulted only for a non-empty mood: without one the response carries no
      spots whatever the recommender would say. With one, the traveller's position is passed as
      context exactly when it was sent. */
  lemma RecommendationsNeedMood(gen: RouteGenerator, other: Gemini.GeminiService, request: RouteRequest, target: int)
    ensures !HasMood(request) ==> Generate(gen, request, target) == Generate(gen.(gemini := other), request, target)
    ensures !HasMood(request) && Generate(gen, request, target).Ok? ==>
      Generate(gen, request, target).value.recommendedSpots.None?
    ensures HasMood(request) && request.currentLocation.Some? && GeocodeAll(gen.maps, request.locations).Ok? ==>
      var stops := AllLocations(request, GeocodeAll(gen.maps, request.locations).value);
      Recommendations(gen, request, stops) ==
        Gemini.RecommendSpots(gen.gemini, request.mood.value, stops,
          Some(Location(CurrentLocationName, request.currentLocation.value.lat, request.currentLocation.value.lng, None)))
    ensures HasMood(request) && request.currentLocation.None? && GeocodeAll(gen.maps, request.locations).Ok? ==>
      var stops := AllLocations(request, GeocodeAll(gen.maps, request.locations).value);
      Recommendations(gen, request, stops) == Gemini.RecommendSpots(gen.gemini, request.mood.value, stops, None)
  {
  }

  /** `recommendedSpots` is left out of the response exactly when there are none. */
  lemma SpotsOmittedWhenEmpty(gen: RouteGenerator, request: RouteRequest, target: int)
    requires Generate(gen, request, target).Ok?
    ensures Generate(gen, request, target).value.recommendedSpots.Some? ==>
      |Generate(gen, request, target).value.recommendedSpots.value| > 0
    ensures Generate(gen, request, target).value.recommendedSpots.None? <==>
      Recommendations(gen, request, AllLocations(request, GeocodeAll(gen.maps, request.locations).value)) == []
  {
  }
}
