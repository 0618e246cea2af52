/** The weather service: current conditions and the forecast for about 24 hours ahead at one
    location, read out of loosely shaped upstream payloads by chains of fallback keys. The two
    HTTP endpoints are oracles returning the parsed response body. */
module Weather {
  import opened Wrappers
  import opened JsValues
  import opened Types

  datatype WeatherQuery = WeatherQuery(location: Coords, key: string, units: string, language: string)

  /** The service: its key and its two endpoints. An endpoint's `Err` is a rejected HTTP call. */
  datatype WeatherService = WeatherService(
    apiKey: string,
    currentApi: WeatherQuery -> Result<JsValue>,
    forecastApi: WeatherQuery -> Result<JsValue>)

  const WeatherErrorPrefix := "Failed to fetch weather: "

  /** The query both endpoints receive for a location. */
  function QueryFor(svc: WeatherService, loc: Location): (q: WeatherQuery)
    ensures q.location == Coords(loc.lat, loc.lng) && q.units == "metric" && q.language == "en"
  {
    WeatherQuery(Coords(loc.lat, loc.lng), svc.apiKey, "metric", "en")
  }

  /** `response.data || {}`. */
  function Body(payload: JsValue): (data: JsValue)
    ensures !Falsy(data)
    ensures !Falsy(payload) ==> data == payload
    ensures Falsy(payload) ==> data == Obj(map[])
  {
    FirstTruthy([payload], Obj(map[]))
  }

  /** The condition chain shared by both readings: `conditions[0].main`, `weather[0].main`,
      `summary`, joined by `||`, with `'Unknown'` last. */
  function Condition(v: JsValue): (r: JsValue)
    ensures !Falsy(r)
    ensures !Falsy(Get(At(Get(v, "conditions"), 0), "main")) ==> r == Get(At(Get(v, "conditions"), 0), "main")
    ensures (Falsy(Get(At(Get(v, "conditions"), 0), "main")) && Falsy(Get(At(Get(v, "weather"), 0), "main")) &&
             Falsy(Get(v, "summary"))) ==> r == Str("Unknown")
  {
    FirstTruthy([Get(At(Get(v, "conditions"), 0), "main"), Get(At(Get(v, "weather"), 0), "main"), Get(v, "summary")],
      Str("Unknown"))
  }

  // ---------------------------------------------------------------- current conditions

  /** The object the current reading comes from: the first truthy of `current`, `currently`,
      `current_weather`, else the body itself. */
  function CurrentObject(data: JsValue): (c: JsValue)
    ensures !Falsy(data) ==> !Falsy(c)
    ensures c in [Get(data, "current"), Get(data, "currently"), Get(data, "current_weather"), data]
    ensures !Falsy(Get(data, "current")) ==> c == Get(data, "current")
  {
    FirstTruthy([Get(data, "current"), Get(data, "currently"), Get(data, "current_weather")], data)
  }

  /** The four current fields read from the chosen object `c`. */
  function Reading(c: JsValue): (w: CurrentWeather)
    ensures !Nullish(w.temperature) && !Nullish(w.humidity) && !Nullish(w.windSpeed) && !Falsy(w.condition)
    ensures !Nullish(Get(c, "temp")) ==> w.temperature == Get(c, "temp")
    ensures !Nullish(Get(c, "humidity")) ==> w.humidity == Get(c, "humidity")
    ensures !Nullish(Get(Get(c, "wind"), "speed")) ==> w.windSpeed == Get(Get(c, "wind"), "speed")
    ensures !c.Obj? ==> w == CurrentWeather(Num(0.0), Str("Unknown"), Num(0.0), Num(0.0))
  {
    CurrentWeather(
      FirstDefined([Get(c, "temp"), Get(c, "temperature"), Get(c, "temp_c")], Num(0.0)),
      Condition(c),
      FirstDefined([Get(c, "humidity"), Get(c, "humidity_percent")], Num(0.0)),
      FirstDefined([Get(Get(c, "wind"), "speed"), Get(c, "wind_speed")], Num(0.0)))
  }

  /** `getCurrentWeather` once the response body is in hand. */
  function CurrentFromPayload(payload: JsValue): (w: CurrentWeather)
    ensures !Nullish(w.temperature) && !Nullish(w.humidity) && !Nullish(w.windSpeed) && !Falsy(w.condition)
  {
    Reading(CurrentObject(Body(payload)))
  }

  /** `getCurrentWeather`: the upstream call, then the reading. */
  function CurrentWeatherAt(svc: WeatherService, loc: Location): (r: Result<CurrentWeather>)
    ensures r.Ok? <==> svc.currentApi(QueryFor(svc, loc)).Ok?
    ensures r.Err? ==> r.error == svc.currentApi(QueryFor(svc, loc)).error
  {
    match svc.currentApi(QueryFor(svc, loc))
    case Err(e) => Err(e)
    case Ok(payload) => Ok(CurrentFromPayload(payload))
  }

  /** A current reading whose keys are the ones each chain tries first keeps those values, even a
      present zero that `||` would have skipped. */
  lemma CurrentFirstKeysWin(payload: JsValue)
    requires !Falsy(payload)
    requires Falsy(Get(payload, "current")) && Falsy(Get(payload, "currently")) && Falsy(Get(payload, "current_weather"))
    requires !Nullish(Get(payload, "temp")) && !Nullish(Get(payload, "humidity"))
    ensures CurrentFromPayload(payload).temperature == Get(payload, "temp")
    ensures CurrentFromPayload(payload).humidity == Get(payload, "humidity")
  {
  }

  /** A body with none of the keys gives the defaults 0, `'Unknown'`, 0, 0. */
  lemma {:induction false} CurrentDefaults(payload: JsValue)
    requires Falsy(payload)
    ensures CurrentFromPayload(payload) == CurrentWeather(Num(0.0), Str("Unknown"), Num(0.0), Num(0.0))
  {
    var data := Body(payload);
    assert data == Obj(map[]);
    assert CurrentObject(data) == data;
  }

  /** Readings nested under `current` are preferred to the same keys at the top level. */
  lemma CurrentPrefersNested(payload: JsValue, inner: map<string, JsValue>)
    requires payload.Obj? && "current" in payload.fields && payload.fields["current"] == Obj(inner)
    ensures CurrentFromPayload(payload) == Reading(Obj(inner))
  {
    assert CurrentObject(Body(payload)) == Obj(inner);
  }

  // ---------------------------------------------------------------- forecast selection

  /** `Array.isArray(v) && v.length > 0`. */
  predicate NonEmptyArray(v: JsValue)
  {
    v.Arr? && |v.items| > 0
  }

  /** The timestamp an entry carries: `h.dt || h.time` in `hourly`, `f.dt` in `list`. */
  function Stamp(entry: JsValue, hourly: bool): (r: JsValue)
    requires !Nullish(entry)
    ensures !hourly ==> r == Get(entry, "dt")
  {
    if hourly then FirstTruthy([Get(entry, "dt")], Get(entry, "time")) else Get(entry, "dt")
  }

  /** Rounding toward zero. */
  function Truncate(x: real): (n: int)
    ensures x >= 0.0 ==> n as real <= x < n as real + 1.0
    ensures x < 0.0 ==> n as real - 1.0 < x <= n as real
  {
    if x >= 0.0 then x.Floor else -((-x).Floor)
  }

  /** `new Date(v * 1000).getTime()`: milliseconds, or None (NaN) when the value is not a number or
      the instant lies beyond the 8.64e15 ms the date type can hold. */
  function TimeValue(v: JsValue): (r: Option<int>)
    ensures r.Some? ==> -8640000000000000 <= r.value <= 8640000000000000
    ensures v.Num? && -8640000000000.0 <= v.n <= 8640000000000.0 ==> r == Some(Truncate(v.n * 1000.0))
    ensures v.Num? && (v.n < -8640000000000.0 || v.n > 8640000000000.0) ==> r.None?
  {
    match ToNumber(v)
    case None => None
    case Some(n) =>
      var ms := n * 1000.0;
      if ms < -8640000000000000.0 || ms > 8640000000000000.0 then None else Some(Truncate(ms))
  }

  /** `Math.abs(t.getTime() - targetTime.getTime())` for an entry `t`; None stands for NaN. A null
      or undefined entry has none: the scan stops at such an entry before asking for it. */
  function Distance(entry: JsValue, hourly: bool, target: int): (d: Option<int>)
    ensures d.Some? ==> d.value >= 0
    ensures Nullish(entry) ==> d.None?
  {
    if Nullish(entry) then None
    else
      match TimeValue(Stamp(entry, hourly))
      case None => None
      case Some(t) => Some(if t >= target then t - target else target - t)
  }

  /** How the scan over `hourly` (or over `list`) measures an entry. */
  function EntryDistance(hourly: bool, target: int): (dist: JsValue -> Option<int>)
  {
    e => Distance(e, hourly, target)
  }

  /** The distances of all entries, in order. */
  function Distances(entries: seq<JsValue>, dist: JsValue -> Option<int>): (ds: seq<Option<int>>)
    ensures |ds| == |entries|
    ensures forall i :: 0 <= i < |entries| ==> ds[i] == dist(entries[i])
  {
    seq(|entries|, i requires 0 <= i < |entries| => dist(entries[i]))
  }

  /** `diff < minDiff`: a comparison with NaN is false. */
  predicate Closer(d: Option<int>, best: Option<int>)
  {
    d.Some? && best.Some? && d.value < best.value
  }

  /** The index the scan keeps: it starts at the first entry and moves only to a strictly closer one. */
  function Closest(ds: seq<Option<int>>): (k: nat)
    requires |ds| > 0
    ensures k < |ds|
  {
    if |ds| == 1 then 0
    else
      var k := Closest(ds[..|ds| - 1]);
      if Closer(ds[|ds| - 1], ds[k]) then |ds| - 1 else k
  }

  /** What "the closest entry" means: when the first entry has no usable time nothing can beat it;
      otherwise the chosen entry has the least distance, and every entry before it is farther. */
  predicate IsClosest(ds: seq<Option<int>>, k: nat)
    requires k < |ds|
  {
    if ds[0].None? then k == 0
    else
      && ds[k].Some?
      && (forall j :: 0 <= j < |ds| && ds[j].Some? ==> ds[k].value <= ds[j].value)
      && (forall j :: 0 <= j < k && ds[j].Some? ==> ds[k].value < ds[j].value)
  }

  /** The scan finds the closest entry, with the earliest one winning a tie. */
  lemma {:induction false} ClosestIsClosest(ds: seq<Option<int>>)
    requires |ds| > 0
    ensures IsClosest(ds, Closest(ds))
  {
    if |ds| > 1 {
      var init := ds[..|ds| - 1];
      ClosestIsClosest(init);
      var k := Closest(init);
      assert forall j :: 0 <= j < |init| ==> init[j] == ds[j];
    }
  }

  /** There is only one closest entry, so the scan is characterised by IsClosest. */
  lemma ClosestUnique(ds: seq<Option<int>>, k1: nat, k2: nat)
    requires k1 < |ds| && k2 < |ds| && IsClosest(ds, k1) && IsClosest(ds, k2)
    ensures k1 == k2
  {
    if ds[0].Some? {
      assert ds[k1].Some? && ds[k2].Some?;
      assert ds[k1].value <= ds[k2].value && ds[k2].value <= ds[k1].value;
    }
  }

  /** The first entry that is null or undefined, whose `.dt` would throw. */
  function FirstNullish(entries: seq<JsValue>): (r: Option<nat>)
    ensures r.None? <==> forall i :: 0 <= i < |entries| ==> !Nullish(entries[i])
    ensures r.Some? ==> r.value < |entries| && Nullish(entries[r.value]) &&
                        forall i :: 0 <= i < r.value ==> !Nullish(entries[i])
  {
    if entries == [] then None
    else if Nullish(entries[0]) then Some(0)
    else match FirstNullish(entries[1..])
      case None => None
      case Some(i) => Some(i + 1)
  }

  /** The index the scan holds after the first `n` entries: it starts at the first entry and
      moves only to a strictly closer one. */
  function ScanIndex(entries: seq<JsValue>, dist: JsValue -> Option<int>, n: nat): (k: nat)
    requires 0 < n <= |entries|
    ensures k < n
  {
    if n == 1 then 0
    else
      var k := ScanIndex(entries, dist, n - 1);
      if Closer(dist(entries[n - 1]), dist(entries[k])) then n - 1 else k
  }

  /** The scan over the entries is the scan over their distances. */
  lemma {:induction false} ScanIndexIsClosest(entries: seq<JsValue>, dist: JsValue -> Option<int>, n: nat)
    requires 0 < n <= |entries|
    ensures ScanIndex(entries, dist, n) == Closest(Distances(entries[..n], dist))
  {
    if n > 1 {
      ScanIndexIsClosest(entries, dist, n - 1);
      var ds := Distances(entries[..n], dist);
      assert ds[..n - 1] == Distances(entries[..n - 1], dist);
    }
  }

  /** The entry of a non-empty `hourly` or `list` array the forecast is read from. */
  function ClosestEntry(entries: seq<JsValue>, dist: JsValue -> Option<int>): Result<JsValue>
    requires |entries| > 0
  {
    match FirstNullish(entries)
    case Some(i) => Err(ReadError(entries[i], "dt"))
    case None => Ok(entries[ScanIndex(entries, dist, |entries|)])
  }

  /** The selection fails exactly when some entry is null or undefined, with the error of the first
      such entry; otherwise it is the closest entry in the sense of IsClosest. */
  lemma ClosestEntryIsClosest(entries: seq<JsValue>, dist: JsValue -> Option<int>)
    requires |entries| > 0
    ensures ClosestEntry(entries, dist).Ok? <==> forall i :: 0 <= i < |entries| ==> !Nullish(entries[i])
    ensures ClosestEntry(entries, dist).Ok? ==>
      exists k :: 0 <= k < |entries| && ClosestEntry(entries, dist).value == entries[k] &&
                  IsClosest(Distances(entries, dist), k)
    ensures ClosestEntry(entries, dist).Err? ==>
      ClosestEntry(entries, dist).error == ReadError(entries[FirstNullish(entries).value], "dt")
  {
    if FirstNullish(entries).None? {
      ScanIndexIsClosest(entries, dist, |entries|);
      assert entries[..|entries|] == entries;
      ClosestIsClosest(Distances(entries, dist));
    }
  }

  /** The scan loop of `getForecast` over `hourly` or `list`: it reads the first entry, then walks
      every entry, the first one included, keeping the one with the strictly smallest distance. */
  method SelectClosest(entries: seq<JsValue>, dist: JsValue -> Option<int>) returns (r: Result<JsValue>)
    requires |entries| > 0
    ensures r == ClosestEntry(entries, dist)
  {
    var closest := entries[0];
    if Nullish(closest) {
      ScanStopsAt(entries, dist, 0);
      return Err(ReadError(closest, "dt"));
    }
    var minDiff := dist(closest);
    ghost var k := 0;
    for i := 0 to |entries|
      invariant forall j :: 0 <= j < i ==> !Nullish(entries[j])
      invariant k < |entries| && closest == entries[k] && minDiff == dist(closest)
      invariant i == 0 ==> k == 0
      invariant i > 0 ==> k == ScanIndex(entries, dist, i)
    {
      var h := entries[i];
      if Nullish(h) {
        ScanStopsAt(entries, dist, i);
        return Err(ReadError(h, "dt"));
      }
      var diff := dist(h);
      if Closer(diff, minDiff) {
        minDiff := diff;
        closest := h;
        k := i;
      }
    }
    assert FirstNullish(entries).None?;
    return Ok(closest);
  }

  /** The scan stops with the error of the first null or undefined entry. */
  lemma ScanStopsAt(entries: seq<JsValue>, dist: JsValue -> Option<int>, i: nat)
    requires i < |entries| && Nullish(entries[i]) && forall j :: 0 <= j < i ==> !Nullish(entries[j])
    ensures ClosestEntry(entries, dist) == Err(ReadError(entries[i], "dt"))
  {
    assert FirstNullish(entries) == Some(i);
  }

  /** Which entry the forecast is read from: `daily[1] || daily[0]` when `daily` is a non-empty array,
      else the closest `hourly` entry, else the closest `list` entry, else null. */
  function ForecastSource(data: JsValue, target: int): (r: Result<JsValue>)
    ensures NonEmptyArray(Get(data, "daily")) ==>
      r == Ok(if !Falsy(At(Get(data, "daily"), 1)) then At(Get(data, "daily"), 1) else Get(data, "daily").items[0])
    ensures !NonEmptyArray(Get(data, "daily")) && NonEmptyArray(Get(data, "hourly")) ==>
      r == ClosestEntry(Get(data, "hourly").items, EntryDistance(true, target))
    ensures !NonEmptyArray(Get(data, "daily")) && !NonEmptyArray(Get(data, "hourly")) && NonEmptyArray(Get(data, "list")) ==>
      r == ClosestEntry(Get(data, "list").items, EntryDistance(false, target))
    ensures !NonEmptyArray(Get(data, "daily")) && !NonEmptyArray(Get(data, "hourly")) && !NonEmptyArray(Get(data, "list")) ==>
      r == Ok(Null)
  {
    var daily := Get(data, "daily");
    var hourly := Get(data, "hourly");
    var list := Get(data, "list");
    if NonEmptyArray(daily) then Ok(FirstTruthy([At(daily, 1)], At(daily, 0)))
    else if NonEmptyArray(hourly) then ClosestEntry(hourly.items, EntryDistance(true, target))
    else if NonEmptyArray(list) then ClosestEntry(list.items, EntryDistance(false, target))
    else Ok(Null)
  }

  /** The forecast fields read from the selected entry. */
  function ForecastFromEntry(t: JsValue): (f: ForecastWeather)
    ensures !Nullish(f.temperature) && !Nullish(f.precipitation) && !Falsy(f.condition)
    ensures Nullish(t) ==> f == ForecastWeather(Num(0.0), Str("Unknown"), Num(0.0))
  {
    ForecastWeather(
      FirstDefined([Get(Get(t, "temp"), "day"), Get(t, "temp"), Get(Get(t, "main"), "temp"), Get(t, "temperature")], Num(0.0)),
      Condition(t),
      FirstDefined([Get(t, "rain"), Get(t, "precipitation"), Get(t, "pop")], Num(0.0)))
  }

  /** `getForecast` once the response body is in hand, `target` being `targetTime.getTime()`. */
  function ForecastFromPayload(payload: JsValue, target: int): (r: Result<ForecastWeather>)
    ensures r.Ok? <==> ForecastSource(Body(payload), target).Ok?
    ensures r.Ok? ==> r.value == ForecastFromEntry(ForecastSource(Body(payload), target).value)
  {
    match ForecastSource(Body(payload), target)
    case Err(e) => Err(e)
    case Ok(t) => Ok(ForecastFromEntry(t))
  }

  /** A body with no usable `daily`, `hourly` or `list` gives the defaults 0, `'Unknown'`, 0. */
  lemma NoSourceDefaults(payload: JsValue, target: int)
    requires !NonEmptyArray(Get(Body(payload), "daily")) && !NonEmptyArray(Get(Body(payload), "hourly"))
    requires !NonEmptyArray(Get(Body(payload), "list"))
    ensures ForecastFromPayload(payload, target) == Ok(ForecastWeather(Num(0.0), Str("Unknown"), Num(0.0)))
  {
  }

  /** `??` keeps a present zero: an entry reporting `temp: 0` and `rain: 0` is read as 0 and 0,
      whatever the keys further down the chain hold. */
  lemma ForecastKeepsPresentZero(t: JsValue)
    requires t.Obj? && "temp" in t.fields && t.fields["temp"] == Num(0.0)
    requires "rain" in t.fields && t.fields["rain"] == Num(0.0)
    ensures ForecastFromEntry(t).temperature == Num(0.0)
    ensures ForecastFromEntry(t).precipitation == Num(0.0)
  {
    var temps := [Get(Get(t, "temp"), "day"), Get(t, "temp"), Get(Get(t, "main"), "temp"), Get(t, "temperature")];
    assert Nullish(temps[0]) && !Nullish(temps[1]);
    var rains := [Get(t, "rain"), Get(t, "precipitation"), Get(t, "pop")];
    assert !Nullish(rains[0]);
  }

  /** `||` skips an empty condition: an empty `conditions[0].main` falls through to `weather[0].main`. */
  lemma ConditionSkipsEmpty(t: JsValue)
    requires Get(At(Get(t, "conditions"), 0), "main") == Str("")
    requires !Falsy(Get(At(Get(t, "weather"), 0), "main"))
    ensures Condition(t) == Get(At(Get(t, "weather"), 0), "main")
  {
    var chain := [Get(At(Get(t, "conditions"), 0), "main"), Get(At(Get(t, "weather"), 0), "main"), Get(t, "summary")];
    assert Falsy(chain[0]) && !Falsy(chain[1]);
  }

  /** `getForecast` with the selection loops written out. */
  method GetForecastFromPayload(payload: JsValue, target: int) returns (r: Result<ForecastWeather>)
    ensures r == ForecastFromPayload(payload, target)
  {
    var data := Body(payload);
    var targetForecast := Null;
    var daily := Get(data, "daily");
    var hourly := Get(data, "hourly");
    var list := Get(data, "list");
    if NonEmptyArray(daily) {
      targetForecast := FirstTruthy([At(daily, 1)], At(daily, 0));
    } else if NonEmptyArray(hourly) {
      var selected := SelectClosest(hourly.items, EntryDistance(true, target));
      if selected.Err? {
        return Err(selected.error);
      }
      targetForecast := selected.value;
    } else if NonEmptyArray(list) {
      var selected := SelectClosest(list.items, EntryDistance(false, target));
      if selected.Err? {
        return Err(selected.error);
      }
      targetForecast := selected.value;
    }
    return Ok(ForecastFromEntry(targetForecast));
  }

  /** `getForecast`: the upstream call, then the selection and the reading. */
  function ForecastAt(svc: WeatherService, loc: Location, target: int): (r: Result<ForecastWeather>)
    ensures svc.forecastApi(QueryFor(svc, loc)).Err? ==> r == Err(svc.forecastApi(QueryFor(svc, loc)).error)
    ensures svc.forecastApi(QueryFor(svc, loc)).Ok? ==> r == ForecastFromPayload(svc.forecastApi(QueryFor(svc, loc)).value, target)
  {
    match svc.forecastApi(QueryFor(svc, loc))
    case Err(e) => Err(e)
    case Ok(payload) => ForecastFromPayload(payload, target)
  }

  // ---------------------------------------------------------------- both together

  /** `getWeather`: both readings for the location, or the first failure with the weather prefix. */
  function WeatherAt(svc: WeatherService, loc: Location, target: int): (r: Result<WeatherInfo>)
    ensures r.Ok? <==> CurrentWeatherAt(svc, loc).Ok? && ForecastAt(svc, loc, target).Ok?
    ensures r.Ok? ==> r.value == WeatherInfo(loc, CurrentWeatherAt(svc, loc).value, Some(ForecastAt(svc, loc, target).value))
    ensures CurrentWeatherAt(svc, loc).Err? ==> r == Err(WeatherErrorPrefix + CurrentWeatherAt(svc, loc).error)
    ensures CurrentWeatherAt(svc, loc).Ok? && ForecastAt(svc, loc, target).Err? ==>
      r == Err(WeatherErrorPrefix + ForecastAt(svc, loc, target).error)
  {
    match CurrentWeatherAt(svc, loc)
    case Err(e) => Err(WeatherErrorPrefix + e)
    case Ok(current) =>
      match ForecastAt(svc, loc, target)
      case Err(e) => Err(WeatherErrorPrefix + e)
      case Ok(forecast) => Ok(WeatherInfo(loc, current, Some(forecast)))
  }

  /** `getWeather` with the upstream calls made one after the other. */
  method GetWeather(svc: WeatherService, loc: Location, target: int) returns (r: Result<WeatherInfo>)
    ensures r == WeatherAt(svc, loc, target)
  {
    var currentResponse := svc.currentApi(QueryFor(svc, loc));
    if currentResponse.Err? {
      return Err(WeatherErrorPrefix + currentResponse.error);
    }
    var forecastResponse := svc.forecastApi(QueryFor(svc, loc));
    if forecastResponse.Err? {
      return Err(WeatherErrorPrefix + forecastResponse.error);
    }
    var forecast := GetForecastFromPayload(forecastResponse.value, target);
    if forecast.Err? {
      return Err(WeatherErrorPrefix + forecast.error);
    }
    return Ok(WeatherInfo(loc, CurrentFromPayload(currentResponse.value), Some(forecast.value)));
  }
}
