/** The maps service: geocoding a place name, and routing an ordered list of stops as
    consecutive segments with plain-text step instructions. The two HTTP endpoints are
    oracles; their payloads are given as values. */
module Maps {
  import opened Wrappers
  import opened Strings
  import opened Types

  datatype GeocodeQuery = GeocodeQuery(address: string, key: string, language: string)
  datatype GeocodeResult = GeocodeResult(lat: real, lng: real, formattedAddress: string)
  datatype GeocodePayload = GeocodePayload(status: string, results: seq<GeocodeResult>)

  /** `avoid` lists the features to avoid; the wire form is the list joined with `|`. */
  datatype DirectionsQuery = DirectionsQuery(
    origin: Coords, destination: Coords, mode: string, key: string,
    language: string, alternatives: bool, avoid: seq<string>)
  datatype DirectionsStep = DirectionsStep(htmlInstructions: string, distance: int, duration: int, hasTransitDetails: bool)
  datatype DirectionsLeg = DirectionsLeg(distance: int, duration: int, steps: seq<DirectionsStep>)
  datatype DirectionsRoute = DirectionsRoute(legs: seq<DirectionsLeg>, overviewPolyline: string)
  datatype DirectionsPayload = DirectionsPayload(status: string, routes: seq<DirectionsRoute>)

  /** The service: its key and its two endpoints. An endpoint's `Err` is a rejected HTTP call. */
  datatype MapsService = MapsService(
    apiKey: string,
    geocodeApi: GeocodeQuery -> Result<GeocodePayload>,
    directionsApi: DirectionsQuery -> Result<DirectionsPayload>)

  const TooFewLocations := "At least 2 locations are required"
  const RouteErrorPrefix := "Failed to calculate route: "
  const GeocodeErrorPrefix := "Failed to geocode location: "

  // ---------------------------------------------------------------- modes

  /** `mapTransportationMode`: the three known modes map to themselves, anything else to driving. */
  function MapTransportationMode(mode: string): (r: string)
    ensures r == "walking" || r == "transit" || r == "driving"
    ensures mode == "walking" || mode == "transit" || mode == "driving" ==> r == mode
    ensures mode != "walking" && mode != "transit" ==> r == "driving"
  {
    if mode == "walking" then "walking"
    else if mode == "transit" then "transit"
    else "driving"
  }

  /** `mapTravelModeToTransportation`: reads a mode string back as a mode. */
  function MapTravelModeToTransportation(mode: string): (t: Transportation)
    ensures mode == "walking" || mode == "transit" ==> t.Name() == mode
    ensures mode != "walking" && mode != "transit" ==> t == Driving
  {
    if mode == "walking" then Walking
    else if mode == "transit" then Transit
    else Driving
  }

  /** Reading back a mode's own name gives the mode, and every mapped travel mode names its segment mode. */
  lemma ModeNamesRoundTrip(t: Transportation, mode: string)
    ensures MapTravelModeToTransportation(t.Name()) == t
    ensures MapTravelModeToTransportation(MapTransportationMode(mode)).Name() == MapTransportationMode(mode)
  {
  }

  /** The travel mode sent upstream: `mapTransportationMode(preferences?.transportation || 'driving')`. */
  function PreferredTravelMode(prefs: Option<Preferences>): (mode: string)
    ensures prefs.None? || prefs.value.transportation.None? ==> mode == "driving"
    ensures prefs.Some? && prefs.value.transportation == Some("mixed") ==> mode == "driving"
    ensures prefs.Some? && prefs.value.transportation.Some? ==>
      mode == MapTransportationMode(prefs.value.transportation.value)
  {
    var requested :=
      if prefs.Some? && prefs.value.transportation.Some? && prefs.value.transportation.value != ""
      then prefs.value.transportation.value
      else "driving";
    MapTransportationMode(requested)
  }

  /** `determineTransportationFromStep`: transit when the step has transit details, else walking when
      the route is walked, else driving. */
  function DetermineTransportationFromStep(hasTransitDetails: bool, travelMode: string): (t: Transportation)
    ensures t == Transit <==> hasTransitDetails
    ensures t == Walking <==> !hasTransitDetails && travelMode == "walking"
  {
    if hasTransitDetails then Transit
    else if travelMode == "walking" then Walking
    else Driving
  }

  // ---------------------------------------------------------------- avoid parameter

  predicate AvoidTolls(prefs: Option<Preferences>)
  {
    prefs.Some? && prefs.value.avoidTolls == Some(true)
  }

  predicate AvoidHighways(prefs: Option<Preferences>)
  {
    prefs.Some? && prefs.value.avoidHighways == Some(true)
  }

  /** The `avoid` parameter as the request object spreads it: `{avoid: 'tolls'}` and then
      `{avoid: 'highways'}` under the same key, so the second replaces the first. */
  function AvoidParamAsWritten(prefs: Option<Preferences>): seq<string>
  {
    if AvoidHighways(prefs) then ["highways"]
    else if AvoidTolls(prefs) then ["tolls"]
    else []
  }

  /** With both boxes ticked, the request as written no longer asks to avoid tolls. */
  lemma AvoidTollsLostAsWritten(prefs: Option<Preferences>)
    requires AvoidTolls(prefs) && AvoidHighways(prefs)
    ensures "tolls" !in AvoidParamAsWritten(prefs)
    ensures "tolls" in AvoidParam(prefs)
  {
  }

  /** The `avoid` parameter with both features kept (`avoid=tolls|highways`). */
  function AvoidParam(prefs: Option<Preferences>): (avoid: seq<string>)
    ensures "tolls" in avoid <==> AvoidTolls(prefs)
    ensures "highways" in avoid <==> AvoidHighways(prefs)
    ensures forall i :: 0 <= i < |avoid| ==> avoid[i] == "tolls" || avoid[i] == "highways"
  {
    (if AvoidTolls(prefs) then ["tolls"] else []) + (if AvoidHighways(prefs) then ["highways"] else [])
  }

  // ---------------------------------------------------------------- HTML tags

  /** No `<` is followed, anywhere later, by a `>`: nothing the tag pattern could match. */
  predicate Tagless(s: string)
  {
    forall i, j :: 0 <= i < j < |s| && s[i] == '<' ==> s[j] != '>'
  }

  /** `r` can be obtained from `s` by deleting characters. */
  predicate IsSubsequence(r: string, s: string)
    decreases |s|
  {
    r == [] || (s != [] && ((r[0] == s[0] && IsSubsequence(r[1..], s[1..])) || IsSubsequence(r, s[1..])))
  }

  /** `s.replace(/<[^>]*>/g, '')`: scanning from the left, every `<` with a `>` somewhere after it
      is removed together with everything up to and including the first such `>`. */
  function StripTags(s: string): (r: string)
    ensures |r| <= |s|
    ensures forall k :: 0 <= k < |r| ==> r[k] in s
    ensures Tagless(r)
    decreases |s|
  {
    if s == [] then []
    else if s[0] == '<' && '>' in s[1..] then
      var rest := s[1..][IndexOf(s[1..], '>') + 1..];
      var r := StripTags(rest);
      assert forall k :: 0 <= k < |r| ==> r[k] in rest ==> r[k] in s by {
        assert forall k :: 0 <= k < |rest| ==> rest[k] == s[|s| - |rest| + k];
      }
      r
    else
      var tail := StripTags(s[1..]);
      var r := [s[0]] + tail;
      assert s[0] == '<' ==> '>' !in tail;
      assert forall i, j :: 0 < i < j < |r| ==> r[i] == tail[i - 1] && r[j] == tail[j - 1];
      r
  }

  /** The characters that stay keep their order. */
  lemma {:induction false} StripTagsIsSubsequence(s: string)
    ensures IsSubsequence(StripTags(s), s)
    decreases |s|
  {
    if s != [] {
      if s[0] == '<' && '>' in s[1..] {
        var k := IndexOf(s[1..], '>') + 1;
        StripTagsIsSubsequence(s[1..][k..]);
        SubsequenceOfSuffix(StripTags(s[1..][k..]), s, k + 1);
      } else {
        StripTagsIsSubsequence(s[1..]);
        assert ([s[0]] + StripTags(s[1..]))[1..] == StripTags(s[1..]);
      }
    }
  }

  lemma {:induction false} SubsequenceOfSuffix(r: string, s: string, k: nat)
    requires k <= |s| && IsSubsequence(r, s[k..])
    ensures IsSubsequence(r, s)
    decreases k
  {
    if k > 0 {
      assert s[1..][k - 1..] == s[k..];
      SubsequenceOfSuffix(r, s[1..], k - 1);
    }
  }

  /** Text with nothing tag-like in it is left alone. */
  lemma {:induction false} StripTagsFixesTagless(s: string)
    requires Tagless(s)
    ensures StripTags(s) == s
    decreases |s|
  {
    if s != [] {
      assert s[0] == '<' ==> '>' !in s[1..] by {
        if s[0] == '<' {
          forall j | 0 <= j < |s[1..]| ensures s[1..][j] != '>' {
            assert s[1..][j] == s[j + 1];
          }
        }
      }
      assert Tagless(s[1..]) by {
        forall i, j | 0 <= i < j < |s[1..]| && s[1..][i] == '<' ensures s[1..][j] != '>' {
          assert s[i + 1] == '<';
        }
      }
      StripTagsFixesTagless(s[1..]);
    }
  }

  /** Text before the first `<` is kept as it is, in front of whatever the rest strips to. */
  lemma {:induction false} StripTagsKeepsText(x: string, y: string)
    requires '<' !in x
    ensures StripTags(x + y) == x + StripTags(y)
    decreases |x|
  {
    if x != [] {
      assert (x + y)[0] == x[0] && (x + y)[1..] == x[1..] + y;
      StripTagsKeepsText(x[1..], y);
      assert x == [x[0]] + x[1..];
    } else {
      assert x + y == y;
    }
  }

  /** A tag `<…>` at the front is removed entirely, up to and including its first `>`. */
  lemma StripTagsDropsTag(t: string, y: string)
    requires '>' !in t
    ensures StripTags(['<'] + t + ['>'] + y) == StripTags(y)
  {
    var s := ['<'] + t + ['>'] + y;
    assert s[1..] == t + ['>'] + y;
    assert s[1..][|t|] == '>';
    IndexAfterClose(t, y);
    assert s[1..][|t| + 1..] == y;
  }

  /** The first `>` of `t + ">" + y` is the one after `t` when `t` has none. */
  lemma {:induction false} IndexAfterClose(t: string, y: string)
    requires '>' !in t
    ensures '>' in t + ['>'] + y && IndexOf(t + ['>'] + y, '>') == |t|
    decreases |t|
  {
    var u := t + ['>'] + y;
    assert u[|t|] == '>';
    if t != [] {
      assert u[1..] == t[1..] + ['>'] + y;
      IndexAfterClose(t[1..], y);
    }
  }

  /** Stripping twice is stripping once. */
  lemma StripTagsIdempotent(s: string)
    ensures StripTags(StripTags(s)) == StripTags(s)
  {
    StripTagsFixesTagless(StripTags(s));
  }

  // ---------------------------------------------------------------- segments

  /** One upstream step as a route step. */
  function StepFromUpstream(step: DirectionsStep, travelMode: string): (r: RouteStep)
    ensures Tagless(r.instruction)
    ensures r.transportation == Some(DetermineTransportationFromStep(step.hasTransitDetails, travelMode))
  {
    RouteStep(StripTags(step.htmlInstructions), step.distance, step.duration,
      Some(DetermineTransportationFromStep(step.hasTransitDetails, travelMode)))
  }

  /** A directions payload read as the segment from `from` to `to`. */
  function SegmentFromPayload(from: Location, to: Location, payload: DirectionsPayload, travelMode: string): (r: Result<RouteSegment>)
    ensures r.Ok? <==> payload.status == "OK" && |payload.routes| > 0 && |payload.routes[0].legs| > 0
    ensures payload.status != "OK" || |payload.routes| == 0 ==> r == Err("Directions API error: " + payload.status)
    ensures r.Ok? ==>
      var leg := payload.routes[0].legs[0];
      && r.value.from == from && r.value.to == to
      && r.value.distance == leg.distance && r.value.duration == leg.duration
      && r.value.transportation == MapTravelModeToTransportation(travelMode)
      && |r.value.steps| == |leg.steps|
      && (forall i :: 0 <= i < |leg.steps| ==> r.value.steps[i] == StepFromUpstream(leg.steps[i], travelMode))
      && r.value.polyline == Some(payload.routes[0].overviewPolyline)
  {
    if payload.status != "OK" || |payload.routes| == 0 then
      Err("Directions API error: " + payload.status)
    else
      var route := payload.routes[0];
      if |route.legs| == 0 then
        Err("Cannot read properties of undefined (reading 'steps')")
      else
        var leg := route.legs[0];
        var steps := seq(|leg.steps|, i requires 0 <= i < |leg.steps| => StepFromUpstream(leg.steps[i], travelMode));
        Ok(RouteSegment(from, to, leg.distance, leg.duration, MapTravelModeToTransportation(travelMode),
          steps, Some(route.overviewPolyline)))
  }

  /** The query `calculateSegment` sends for one pair of stops. */
  function DirectionsQueryFor(svc: MapsService, from: Location, to: Location, prefs: Option<Preferences>): (q: DirectionsQuery)
    ensures q.mode == PreferredTravelMode(prefs) && q.avoid == AvoidParam(prefs)
  {
    DirectionsQuery(Coords(from.lat, from.lng), Coords(to.lat, to.lng), PreferredTravelMode(prefs),
      svc.apiKey, "en", false, AvoidParam(prefs))
  }

  /** `calculateSegment`: every failure is rethrown with the route prefix. */
  function CalculateSegment(svc: MapsService, from: Location, to: Location, prefs: Option<Preferences>): (r: Result<RouteSegment>)
    ensures r.Err? ==> RouteErrorPrefix <= r.error
    ensures r.Ok? <==> (svc.directionsApi(DirectionsQueryFor(svc, from, to, prefs)).Ok? &&
      SegmentFromPayload(from, to, svc.directionsApi(DirectionsQueryFor(svc, from, to, prefs)).value, PreferredTravelMode(prefs)).Ok?)
    ensures r.Ok? ==> r.value.from == from && r.value.to == to
  {
    match svc.directionsApi(DirectionsQueryFor(svc, from, to, prefs))
    case Err(msg) => Err(RouteErrorPrefix + msg)
    case Ok(payload) =>
      match SegmentFromPayload(from, to, payload, PreferredTravelMode(prefs))
      case Err(msg) => Err(RouteErrorPrefix + msg)
      case Ok(segment) => Ok(segment)
  }

  /** The outcome for each pair `(locations[k], locations[k+1])` of consecutive stops, in order. */
  function PairSegments(svc: MapsService, locations: seq<Location>, prefs: Option<Preferences>): (rs: seq<Result<RouteSegment>>)
    ensures |rs| == if |locations| < 2 then 0 else |locations| - 1
    ensures forall k :: 0 <= k < |rs| ==> rs[k] == CalculateSegment(svc, locations[k], locations[k + 1], prefs)
  {
    if |locations| < 2 then []
    else seq(|locations| - 1, k requires 0 <= k < |locations| - 1 => CalculateSegment(svc, locations[k], locations[k + 1], prefs))
  }

  /** What `calculateRoute` resolves to: the pairs' segments, stopping at the first pair that fails. */
  function Route(svc: MapsService, locations: seq<Location>, prefs: Option<Preferences>): (r: Result<seq<RouteSegment>>)
    ensures r.Ok? ==> |locations| >= 2 && |r.value| == |locations| - 1
    ensures r.Err? ==> r.error == TooFewLocations || RouteErrorPrefix <= r.error
  {
    if |locations| < 2 then Err(TooFewLocations) else Collect(PairSegments(svc, locations, prefs))
  }

  /** For N >= 2 stops, a successful route has exactly N - 1 segments and segment i runs from
      stop i to stop i + 1. */
  lemma RouteShape(svc: MapsService, locations: seq<Location>, prefs: Option<Preferences>)
    ensures Route(svc, locations, prefs).Ok? ==> |Route(svc, locations, prefs).value| == |locations| - 1
    ensures Route(svc, locations, prefs).Ok? ==>
      forall i :: 0 <= i < |locations| - 1 ==>
        && Ok(Route(svc, locations, prefs).value[i]) == CalculateSegment(svc, locations[i], locations[i + 1], prefs)
        && Route(svc, locations, prefs).value[i].from == locations[i]
        && Route(svc, locations, prefs).value[i].to == locations[i + 1]
  {
    if |locations| >= 2 {
      var pairs := PairSegments(svc, locations, prefs);
      CollectOk(pairs);
      if Route(svc, locations, prefs).Ok? {
        var route := Route(svc, locations, prefs).value;
        forall i | 0 <= i < |locations| - 1
          ensures Ok(route[i]) == CalculateSegment(svc, locations[i], locations[i + 1], prefs)
          ensures route[i].from == locations[i] && route[i].to == locations[i + 1]
        {
          assert Ok(route[i]) == pairs[i];
        }
      }
    }
  }

  /** The route fails exactly when there are fewer than two stops or some pair fails; the error is
      that of the first failing pair, every earlier pair having succeeded, so no partial list is
      ever returned. */
  lemma RouteFailure(svc: MapsService, locations: seq<Location>, prefs: Option<Preferences>)
    ensures |locations| < 2 ==> Route(svc, locations, prefs) == Err(TooFewLocations)
    ensures |locations| >= 2 ==>
      (Route(svc, locations, prefs).Err? <==>
        exists i :: 0 <= i < |locations| - 1 && CalculateSegment(svc, locations[i], locations[i + 1], prefs).Err?)
    ensures |locations| >= 2 && Route(svc, locations, prefs).Err? ==>
      var k := FirstErr(PairSegments(svc, locations, prefs));
      && k.Some? && k.value < |locations| - 1
      && Err(Route(svc, locations, prefs).error) == CalculateSegment(svc, locations[k.value], locations[k.value + 1], prefs)
      && forall j :: 0 <= j < k.value ==> CalculateSegment(svc, locations[j], locations[j + 1], prefs).Ok?
    ensures |locations| >= 2 && Route(svc, locations, prefs).Err? ==>
      RouteErrorPrefix <= Route(svc, locations, prefs).error
  {
    if |locations| >= 2 {
      var pairs := PairSegments(svc, locations, prefs);
      assert Route(svc, locations, prefs) == Collect(pairs);
      if Collect(pairs).Err? {
        CollectErr(pairs);
        var k := FirstErr(pairs).value;
        assert pairs[k] == CalculateSegment(svc, locations[k], locations[k + 1], prefs);
        forall j | 0 <= j < k
          ensures CalculateSegment(svc, locations[j], locations[j + 1], prefs).Ok?
        {
          assert pairs[j].Ok?;
        }
      } else {
        CollectOk(pairs);
        forall i | 0 <= i < |locations| - 1
          ensures CalculateSegment(svc, locations[i], locations[i + 1], prefs).Ok?
        {
          assert pairs[i].Ok?;
        }
      }
    }
  }

  /** `calculateRoute`: the segments for consecutive pairs, computed one after the other. */
  method CalculateRoute(svc: MapsService, locations: seq<Location>, prefs: Option<Preferences>)
    returns (r: Result<seq<RouteSegment>>)
    ensures r == Route(svc, locations, prefs)
  {
    if |locations| < 2 {
      return Err(TooFewLocations);
    }
    ghost var pairs := PairSegments(svc, locations, prefs);
    var segments: seq<RouteSegment> := [];
    assert pairs[0..] == pairs;
    assert Prepend(segments, Collect(pairs)) == Collect(pairs) by {
      assert Collect(pairs).Ok? ==> segments + Collect(pairs).value == Collect(pairs).value;
    }
    for i := 0 to |locations| - 1
      invariant Route(svc, locations, prefs) == Prepend(segments, Collect(pairs[i..]))
    {
      var segment := CalculateSegment(svc, locations[i], locations[i + 1], prefs);
      assert segment == pairs[i];
      CollectStep(pairs, i);
      if segment.Err? {
        return Err(segment.error);
      }
      PrependTwice(segments, [segment.value], Collect(pairs[i + 1..]));
      segments := segments + [segment.value];
    }
    assert pairs[|locations| - 1..] == [];
    assert segments + [] == segments;
    return Ok(segments);
  }

  // ---------------------------------------------------------------- geocoding

  /** `geocodeLocation`: the first match, named by the query itself. */
  function GeocodeLocation(svc: MapsService, name: string): (r: Result<Location>)
    ensures r.Ok? <==> (svc.geocodeApi(GeocodeQuery(name, svc.apiKey, "en")).Ok? &&
      svc.geocodeApi(GeocodeQuery(name, svc.apiKey, "en")).value.status == "OK" &&
      |svc.geocodeApi(GeocodeQuery(name, svc.apiKey, "en")).value.results| > 0)
    ensures r.Ok? ==>
      var first := svc.geocodeApi(GeocodeQuery(name, svc.apiKey, "en")).value.results[0];
      r.value == Location(name, first.lat, first.lng, Some(first.formattedAddress))
    ensures r.Err? ==> GeocodeErrorPrefix <= r.error
  {
    match svc.geocodeApi(GeocodeQuery(name, svc.apiKey, "en"))
    case Err(msg) => Err(GeocodeErrorPrefix + msg)
    case Ok(payload) =>
      if payload.status != "OK" || |payload.results| == 0 then
        Err(GeocodeErrorPrefix + "Geocoding failed for: " + name)
      else
        var first := payload.results[0];
        Ok(Location(name, first.lat, first.lng, Some(first.formattedAddress)))
  }
}
